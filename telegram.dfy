/** The Telegram side of a cycle, apart from the history walk: the dialog refresh that keeps
    groups and channels and gives each its `peer_id` key, the member listing with its
    display names and its fixed 2 s pause per user, and the retry governor around the
    full-user request. Every remote answer is an input of the model. */
module Telegram {
  import opened Common
  import opened Strings

  // ---------------------------------------------------------------------------------
  // Dialogs (telegram.rs: fetch_dialogs)

  /** A dialog as the client library yields it: a private chat, a basic group, or a
      channel (supergroups included) with its optional access hash. */
  datatype Dialog =
    | UserDialog(userId: int)
    | GroupDialog(groupId: int, groupTitle: string)
    | ChannelDialog(channelId: int, channelTitle: string, channelHash: Option<int>)

  function KindPrefix(kind: ChatKind): string {
    match kind
    case Group => "group:"
    case Channel => "channel:"
  }

  /** The stable key of a chat: its kind, a colon and its numeric id in decimal. */
  function PeerId(kind: ChatKind, id: int): (r: string)
    ensures StartsWith(r, KindPrefix(kind))
  {
    KindPrefix(kind) + IntToString(id)
  }

  /** Different chats never share a key: the key determines both the kind and the id, so
      a group and a channel with the same numeric id are kept apart. */
  lemma PeerIdInjective(k1: ChatKind, id1: int, k2: ChatKind, id2: int)
    requires PeerId(k1, id1) == PeerId(k2, id2)
    ensures k1 == k2 && id1 == id2
  {
    var p := PeerId(k1, id1);
    assert KindPrefix(k1)[0] == p[0] == KindPrefix(k2)[0];
    assert k1 == k2;
    assert p[|KindPrefix(k1)|..] == IntToString(id1);
    assert p[|KindPrefix(k2)|..] == IntToString(id2);
    IntToStringInjective(id1, id2);
  }

  /** The record kept for a dialog, or None for a private chat. */
  function ChatInfoOf(d: Dialog): (r: Option<ChatInfo>)
    ensures r.None? <==> d.UserDialog?
    ensures r.Some? ==> r.value.peerId == PeerId(r.value.kind, r.value.tgId)
    ensures d.GroupDialog? ==> r.Some? && r.value.kind == Group && r.value.tgId == d.groupId
                               && r.value.title == d.groupTitle && r.value.accessHash == None
    ensures d.ChannelDialog? ==> r.Some? && r.value.kind == Channel && r.value.tgId == d.channelId
                                 && r.value.title == d.channelTitle
                                 && r.value.accessHash == d.channelHash
  {
    match d
    case UserDialog(_) => None
    case GroupDialog(id, title) => Some(ChatInfo(PeerId(Group, id), title, Group, id, None))
    case ChannelDialog(id, title, hash) => Some(ChatInfo(PeerId(Channel, id), title, Channel, id, hash))
  }

  /** The kept chats of a run of dialogs, in dialog order. */
  function KeepChats(ds: seq<Dialog>): seq<ChatInfo>
    decreases |ds|
  {
    if ds == [] then []
    else
      var rest := KeepChats(ds[..|ds| - 1]);
      match ChatInfoOf(ds[|ds| - 1])
      case None => rest
      case Some(c) => rest + [c]
  }

  /** Keeping chats commutes with concatenation, which is to say the filter keeps the
      dialog order. */
  lemma {:induction false} KeepChatsAppend(a: seq<Dialog>, b: seq<Dialog>)
    ensures KeepChats(a + b) == KeepChats(a) + KeepChats(b)
    decreases |b|
  {
    if b != [] {
      var b' := b[..|b| - 1];
      assert (a + b)[..|a + b| - 1] == a + b';
      assert (a + b)[|a + b| - 1] == b[|b| - 1];
      KeepChatsAppend(a, b');
    } else {
      assert a + b == a;
    }
  }

  /** A chat is listed exactly when some group or channel dialog produced it. */
  lemma {:induction false} KeepChatsMembers(ds: seq<Dialog>)
    ensures forall c :: c in KeepChats(ds) <==> exists k :: 0 <= k < |ds| && ChatInfoOf(ds[k]) == Some(c)
    ensures |KeepChats(ds)| <= |ds|
    decreases |ds|
  {
    if ds != [] {
      var init := ds[..|ds| - 1];
      KeepChatsMembers(init);
      forall c ensures c in KeepChats(ds) <==> exists k :: 0 <= k < |ds| && ChatInfoOf(ds[k]) == Some(c) {
        if c in KeepChats(ds) && c !in KeepChats(init) {
          assert ChatInfoOf(ds[|ds| - 1]) == Some(c);
        }
        if exists k :: 0 <= k < |ds| && ChatInfoOf(ds[k]) == Some(c) {
          var k :| 0 <= k < |ds| && ChatInfoOf(ds[k]) == Some(c);
          if k < |ds| - 1 {
            assert init[k] == ds[k];
          }
        }
      }
    }
  }

  /** The dialog iterator's answers: each is a dialog or an error that ends the listing. */
  function ListDialogs(stream: seq<Result<Dialog>>): Result<seq<ChatInfo>>
    decreases |stream|
  {
    if stream == [] then Ok([])
    else match stream[0]
      case Err(e) => Err(e)
      case Ok(d) =>
        match ListDialogs(stream[1..])
        case Err(e) => Err(e)
        case Ok(rest) => Ok(KeepChats([d]) + rest)
  }

  function OkDialogs(stream: seq<Result<Dialog>>): seq<Dialog>
    requires forall k :: 0 <= k < |stream| ==> stream[k].Ok?
    decreases |stream|
  {
    if stream == [] then [] else [stream[0].value] + OkDialogs(stream[1..])
  }

  /** The listing fails exactly when the iterator reports an error, and then with the first
      error; otherwise it is the kept chats of all dialogs in order. */
  lemma {:induction false} ListDialogsMeaning(stream: seq<Result<Dialog>>)
    ensures ListDialogs(stream).Err? <==> exists k :: 0 <= k < |stream| && stream[k].Err?
    ensures ListDialogs(stream).Err? ==>
              exists k :: 0 <= k < |stream| && stream[k].Err? && ListDialogs(stream).error == stream[k].error
                          && forall j :: 0 <= j < k ==> stream[j].Ok?
    ensures ListDialogs(stream).Ok? ==>
              (forall k :: 0 <= k < |stream| ==> stream[k].Ok?) &&
              ListDialogs(stream).value == KeepChats(OkDialogs(stream))
    decreases |stream|
  {
    if stream != [] {
      var tail := stream[1..];
      ListDialogsMeaning(tail);
      if stream[0].Ok? {
        if ListDialogs(tail).Err? {
          var k :| 0 <= k < |tail| && tail[k].Err? && ListDialogs(tail).error == tail[k].error
                   && forall j :: 0 <= j < k ==> tail[j].Ok?;
          assert stream[k + 1] == tail[k];
          forall j | 0 <= j < k + 1 ensures stream[j].Ok? {
            if j > 0 { assert stream[j] == tail[j - 1]; }
          }
        } else {
          forall k | 0 <= k < |stream| ensures stream[k].Ok? {
            if k > 0 { assert stream[k] == tail[k - 1]; }
          }
          assert OkDialogs(stream) == [stream[0].value] + OkDialogs(tail);
          KeepChatsAppend([stream[0].value], OkDialogs(tail));
        }
        if exists k :: 0 <= k < |stream| && stream[k].Err? {
          var k :| 0 <= k < |stream| && stream[k].Err?;
          assert tail[k - 1] == stream[k];
        }
      }
    }
  }

  /** `fetch_dialogs`: walks the dialog iterator, skips private chats and collects the
      rest; an iterator error ends the walk with that error. */
  method FetchDialogs(stream: seq<Result<Dialog>>) returns (r: Result<seq<ChatInfo>>)
    ensures r == ListDialogs(stream)
  {
    var chats: seq<ChatInfo> := [];
    var i := 0;
    assert stream[0..] == stream;
    PrependNil(ListDialogs(stream));
    while i < |stream|
      invariant 0 <= i <= |stream|
      invariant ListDialogs(stream) == Prepend(chats, ListDialogs(stream[i..]))
    {
      ListDialogsAt(stream, i);
      if stream[i].Err? {
        return Err(stream[i].error);
      }
      var d := stream[i].value;
      PrependStep(chats, KeepChats([d]), ListDialogs(stream[i + 1..]));
      ghost var before := chats;
      var info := ChatInfoOf(d);
      if info.Some? {
        chats := chats + [info.value];
      } else {
        assert chats == before + [];
      }
      assert chats == before + KeepChats([d]);
      i := i + 1;
    }
    assert stream[|stream|..] == [];
    assert chats + [] == chats;
    r := Ok(chats);
  }

  function Prepend(front: seq<ChatInfo>, r: Result<seq<ChatInfo>>): Result<seq<ChatInfo>> {
    match r
    case Err(e) => Err(e)
    case Ok(rest) => Ok(front + rest)
  }

  /** One step of the listing, seen from position `i`. */
  lemma ListDialogsAt(stream: seq<Result<Dialog>>, i: nat)
    requires i < |stream|
    ensures stream[i].Err? ==> ListDialogs(stream[i..]) == Err(stream[i].error)
    ensures stream[i].Ok? ==>
              ListDialogs(stream[i..]) == Prepend(KeepChats([stream[i].value]), ListDialogs(stream[i + 1..]))
    ensures stream[i].Ok? ==>
              KeepChats([stream[i].value]) == (match ChatInfoOf(stream[i].value) case None => [] case Some(c) => [c])
  {
    assert stream[i..][1..] == stream[i + 1..];
    assert stream[i..][0] == stream[i];
    if stream[i].Ok? {
      assert [stream[i].value][..0] == [];
    }
  }

  lemma PrependNil(r: Result<seq<ChatInfo>>)
    ensures Prepend([], r) == r
  {
    if r.Ok? { assert [] + r.value == r.value; }
  }

  lemma PrependStep(front: seq<ChatInfo>, mid: seq<ChatInfo>, r: Result<seq<ChatInfo>>)
    ensures Prepend(front, Prepend(mid, r)) == Prepend(front + mid, r)
  {
    if r.Ok? { assert front + (mid + r.value) == (front + mid) + r.value; }
  }

  // ---------------------------------------------------------------------------------
  // Members (telegram.rs: fetch_chat_members)

  datatype TgUser = TgUser(id: int, firstName: Option<string>, lastName: Option<string>, username: Option<string>)

  /** An entry of a `users` vector: a full user object or an empty placeholder. */
  datatype UserEntry = UserObj(user: TgUser) | UserEmpty(emptyId: int)

  /** A participant of a basic group; only the plain `Participant` variant is listed. */
  datatype ChatParticipant =
    | Participant(userId: int)
    | ParticipantCreator(creatorId: int)
    | ParticipantAdmin(adminId: int)

  /** The answer to the full-chat request of a basic group: its participant list (None when
      the chat is not a plain full chat or its participants are forbidden) and its users. */
  datatype GroupFull = GroupFull(participants: Option<seq<ChatParticipant>>, users: seq<UserEntry>)

  /** The answer to the participants request of a channel. */
  datatype ChannelParticipantsReply =
    | ParticipantsFailed
    | ParticipantsNotModified
    | ParticipantsList(listed: seq<UserEntry>)

  /** Every remote answer one member refresh may consume: the group full-chat request
      (None = failed), whether the channel full-channel request succeeded, and the channel
      participants request. */
  datatype MemberReplies = MemberReplies(
    groupFull: Option<GroupFull>,
    channelFullOk: bool,
    channelParticipants: ChannelParticipantsReply)

  /** A member as handed to the store: (user_id, name, username, bio). */
  datatype Member = Member(userId: int, name: string, username: Option<string>, bio: Option<string>)

  /** "first last" with a missing part read as empty, then trimmed. */
  function DisplayName(u: TgUser): (r: string)
    ensures NoEdgeSpace(r)
  {
    Trim(u.firstName.GetOr("") + " " + u.lastName.GetOr(""))
  }

  /** The name is exactly "first last" when both parts are present, non-empty and free of
      edge whitespace; it is the first name alone when there is no last name, and empty
      when neither is present. */
  lemma DisplayNameCases(u: TgUser)
    ensures u.firstName.Some? && u.lastName.Some? && u.firstName.value != [] && u.lastName.value != []
            && NoEdgeSpace(u.firstName.value) && NoEdgeSpace(u.lastName.value)
            ==> DisplayName(u) == u.firstName.value + " " + u.lastName.value
    ensures u.firstName.Some? && u.lastName.None? && NoEdgeSpace(u.firstName.value)
            ==> DisplayName(u) == u.firstName.value
    ensures u.firstName.None? && u.lastName.None? ==> DisplayName(u) == ""
  {
    var f := u.firstName.GetOr("");
    var l := u.lastName.GetOr("");
    var s := f + " " + l;
    if u.firstName.Some? && u.lastName.None? && NoEdgeSpace(f) {
      assert l == "";
      var t := Trim(s);
      if f == [] {
        assert s == " ";
        assert LeadingSpaces(s) == 1;
      } else {
        assert LeadingSpaces(s) == 0;
        assert s[..|f|] == f;
        assert !IsSpace(s[|f| - 1]) && IsSpace(s[|f|]);
      }
    }
    if u.firstName.None? && u.lastName.None? {
      assert s == " ";
      assert LeadingSpaces(s) == 1;
    }
  }

  function MemberOf(u: TgUser): Member {
    Member(u.id, DisplayName(u), u.username, None)
  }

  /** The first full user object of `users` with the given id (`Iterator::find`). */
  function FindUser(users: seq<UserEntry>, id: int): (r: Option<TgUser>)
    ensures r.Some? ==> r.value.id == id && UserObj(r.value) in users
    ensures r.None? ==> forall k :: 0 <= k < |users| && users[k].UserObj? ==> users[k].user.id != id
    ensures r.Some? ==> exists k :: 0 <= k < |users| && users[k] == UserObj(r.value)
                                    && forall j :: 0 <= j < k ==> !(users[j].UserObj? && users[j].user.id == id)
    decreases |users|
  {
    if users == [] then None
    else if users[0].UserObj? && users[0].user.id == id then Some(users[0].user)
    else
      var r := FindUser(users[1..], id);
      if r.Some? then
        var k :| 0 <= k < |users[1..]| && users[1..][k] == UserObj(r.value)
                 && forall j :: 0 <= j < k ==> !(users[1..][j].UserObj? && users[1..][j].user.id == id);
        assert users[k + 1] == UserObj(r.value);
        assert forall j :: 0 <= j < k + 1 ==> !(users[j].UserObj? && users[j].user.id == id) by {
          forall j | 0 <= j < k + 1 ensures !(users[j].UserObj? && users[j].user.id == id) {
            if j > 0 { assert users[j] == users[1..][j - 1]; }
          }
        }
        r
      else r
  }

  /** Members of a basic group: each plain participant whose user object is found. */
  function GroupMembers(parts: seq<ChatParticipant>, users: seq<UserEntry>): seq<Member>
    decreases |parts|
  {
    if parts == [] then []
    else
      var rest := GroupMembers(parts[..|parts| - 1], users);
      var p := parts[|parts| - 1];
      if p.Participant? && FindUser(users, p.userId).Some? then rest + [MemberOf(FindUser(users, p.userId).value)]
      else rest
  }

  /** Members of a channel: one per full user object, in order. */
  function ChannelMembers(users: seq<UserEntry>): seq<Member>
    decreases |users|
  {
    if users == [] then []
    else
      var rest := ChannelMembers(users[..|users| - 1]);
      match users[|users| - 1]
      case UserObj(u) => rest + [MemberOf(u)]
      case UserEmpty(_) => rest
  }

  /** The members one refresh reports for a chat of the given kind. */
  function ChatMembers(kind: ChatKind, replies: MemberReplies): seq<Member> {
    match kind
    case Group =>
      if replies.groupFull.Some? && replies.groupFull.value.participants.Some? then
        GroupMembers(replies.groupFull.value.participants.value, replies.groupFull.value.users)
      else []
    case Channel =>
      if replies.channelFullOk && replies.channelParticipants.ParticipantsList? then
        ChannelMembers(replies.channelParticipants.listed)
      else []
  }

  /** Every reported member has no bio and a trimmed name, and is the user object the
      lookup finds for a plain participant; conversely every plain participant whose user
      object the lookup finds is reported. */
  lemma {:induction false} GroupMembersFacts(parts: seq<ChatParticipant>, users: seq<UserEntry>)
    ensures |GroupMembers(parts, users)| <= |parts|
    ensures forall m :: m in GroupMembers(parts, users) ==>
              && m.bio == None && NoEdgeSpace(m.name)
              && Participant(m.userId) in parts
              && FindUser(users, m.userId).Some? && m == MemberOf(FindUser(users, m.userId).value)
    ensures forall k :: 0 <= k < |parts| && parts[k].Participant? && FindUser(users, parts[k].userId).Some? ==>
              MemberOf(FindUser(users, parts[k].userId).value) in GroupMembers(parts, users)
    decreases |parts|
  {
    if parts != [] {
      var init := parts[..|parts| - 1];
      var p := parts[|parts| - 1];
      GroupMembersFacts(init, users);
      forall m | m in GroupMembers(parts, users)
        ensures && m.bio == None && NoEdgeSpace(m.name)
                && Participant(m.userId) in parts
                && FindUser(users, m.userId).Some? && m == MemberOf(FindUser(users, m.userId).value)
      {
        if m in GroupMembers(init, users) {
          assert Participant(m.userId) in init;
        } else {
          assert p == Participant(m.userId);
        }
      }
      forall k | 0 <= k < |parts| && parts[k].Participant? && FindUser(users, parts[k].userId).Some?
        ensures MemberOf(FindUser(users, parts[k].userId).value) in GroupMembers(parts, users)
      {
        if k < |init| {
          assert parts[k] == init[k];
        }
      }
    }
  }

  /** The number of full user objects in a `users` vector. */
  function FullUsers(users: seq<UserEntry>): nat
    decreases |users|
  {
    if users == [] then 0
    else FullUsers(users[..|users| - 1]) + (if users[|users| - 1].UserObj? then 1 else 0)
  }

  /** Exactly one member per full user object: as many members as full user objects, each
      member built from one of them, with no bio and a trimmed name, and every full user
      object reported. */
  lemma {:induction false} ChannelMembersFacts(users: seq<UserEntry>)
    ensures |ChannelMembers(users)| == FullUsers(users) <= |users|
    ensures forall m :: m in ChannelMembers(users) ==>
              m.bio == None && NoEdgeSpace(m.name) && exists u :: UserObj(u) in users && m == MemberOf(u)
    ensures forall k :: 0 <= k < |users| && users[k].UserObj? ==> MemberOf(users[k].user) in ChannelMembers(users)
    decreases |users|
  {
    if users != [] {
      var init := users[..|users| - 1];
      ChannelMembersFacts(init);
      forall k | 0 <= k < |users| && users[k].UserObj?
        ensures MemberOf(users[k].user) in ChannelMembers(users)
      {
        if k < |init| {
          assert users[k] == init[k];
        }
      }
      forall m | m in ChannelMembers(users)
        ensures m.bio == None && NoEdgeSpace(m.name) && exists u :: UserObj(u) in users && m == MemberOf(u)
      {
        if m in ChannelMembers(init) {
          var u :| UserObj(u) in init && m == MemberOf(u);
          assert UserObj(u) in users;
        } else {
          assert UserObj(users[|users| - 1].user) in users;
        }
      }
    }
  }

  const MemberPause: nat := 2

  /** `fetch_chat_members`: for a group, each plain participant whose user object is in
      the reply; for a channel, each user object of the participants reply. A 2 s pause
      precedes every listed user. Failed requests yield an empty list; the call itself
      never fails. */
  method FetchChatMembers(chat: ChatInfo, replies: MemberReplies) returns (members: seq<Member>, delays: seq<nat>)
    ensures members == ChatMembers(chat.kind, replies)
    ensures |delays| == |members| && forall k :: 0 <= k < |delays| ==> delays[k] == MemberPause
  {
    members, delays := [], [];
    match chat.kind {
      case Group =>
        if replies.groupFull.Some? && replies.groupFull.value.participants.Some? {
          var parts := replies.groupFull.value.participants.value;
          var users := replies.groupFull.value.users;
          for i := 0 to |parts|
            invariant members == GroupMembers(parts[..i], users)
            invariant |delays| == |members| && forall k :: 0 <= k < |delays| ==> delays[k] == MemberPause
          {
            assert parts[..i + 1][..i] == parts[..i];
            if parts[i].Participant? {
              var found := FindUser(users, parts[i].userId);
              if found.Some? {
                delays := delays + [MemberPause];
                members := members + [MemberOf(found.value)];
              }
            }
          }
          assert parts[..|parts|] == parts;
        }
      case Channel =>
        if replies.channelFullOk && replies.channelParticipants.ParticipantsList? {
          var users := replies.channelParticipants.listed;
          for i := 0 to |users|
            invariant members == ChannelMembers(users[..i])
            invariant |delays| == |members| && forall k :: 0 <= k < |delays| ==> delays[k] == MemberPause
          {
            assert users[..i + 1][..i] == users[..i];
            if users[i].UserObj? {
              delays := delays + [MemberPause];
              members := members + [MemberOf(users[i].user)];
            }
          }
          assert users[..|users|] == users;
        }
    }
  }

  // ---------------------------------------------------------------------------------
  // Retry governor (telegram.rs: get_user_info)

  /** The answer to the full-user request: its `users` vector and the user's about text. */
  datatype FullUserReply = FullUserReply(users: seq<UserEntry>, about: Option<string>)

  /** (name, username, bio) of a user. */
  datatype UserDetails = UserDetails(name: string, username: Option<string>, bio: Option<string>)

  const MaxAttempts: nat := 3
  const FirstRetryDelay: nat := 2

  /** What the governor degrades to: "User <id>" and no username or bio. */
  function Placeholder(userId: int): UserDetails {
    UserDetails("User " + IntToString(userId), None, None)
  }

  /** A rate-limit error: its lower-cased text mentions "flood". */
  predicate IsFlood(e: string) {
    Contains(Lower(e), "flood")
  }

  /** The details a successful reply gives: those of its first user object, or the
      placeholder when the first entry is missing or empty. */
  function DetailsOf(reply: FullUserReply, userId: int): UserDetails {
    if |reply.users| > 0 && reply.users[0].UserObj? then
      UserDetails(DisplayName(reply.users[0].user), reply.users[0].user.username, reply.about)
    else Placeholder(userId)
  }

  /** The outcome of the governed call, how many requests it sent and the pauses it took. */
  datatype RetryRun = RetryRun(result: Result<UserDetails>, calls: nat, delays: seq<nat>)

  /** The governor from attempt `attempt` on, with `delay` seconds as the next pause;
      `invoke(k)` is the remote's answer to the k-th request. */
  function RetryFrom(userId: int, invoke: nat -> Result<FullUserReply>, attempt: nat, delay: nat): RetryRun
    requires attempt <= MaxAttempts
    decreases MaxAttempts - attempt
  {
    if attempt == MaxAttempts then RetryRun(Ok(Placeholder(userId)), 0, [])
    else match invoke(attempt)
      case Ok(reply) => RetryRun(Ok(DetailsOf(reply, userId)), 1, [])
      case Err(e) =>
        if IsFlood(e) then
          var rest := RetryFrom(userId, invoke, attempt + 1, delay * 2);
          RetryRun(rest.result, 1 + rest.calls, [delay] + rest.delays)
        else RetryRun(Err(e), 1, [])
  }

  function After(calls: nat, delays: seq<nat>, rest: RetryRun): RetryRun {
    RetryRun(rest.result, calls + rest.calls, delays + rest.delays)
  }

  function Pow2(n: nat): nat {
    if n == 0 then 1 else 2 * Pow2(n - 1)
  }

  /** Between one and three requests, and at most one pause per request. */
  lemma {:induction false} RetryCalls(userId: int, invoke: nat -> Result<FullUserReply>, attempt: nat, delay: nat)
    requires attempt <= MaxAttempts
    ensures var run := RetryFrom(userId, invoke, attempt, delay);
            && run.calls <= MaxAttempts - attempt
            && (attempt < MaxAttempts ==> run.calls >= 1)
            && |run.delays| <= run.calls
            && (run.result.Err? ==> run.calls >= 1 && |run.delays| == run.calls - 1)
    decreases MaxAttempts - attempt
  {
    if attempt < MaxAttempts && invoke(attempt).Err? && IsFlood(invoke(attempt).error) {
      RetryCalls(userId, invoke, attempt + 1, delay * 2);
    }
  }

  /** The pauses double from 2 s: 2, 4, 8. */
  lemma {:induction false} RetryDelays(userId: int, invoke: nat -> Result<FullUserReply>, attempt: nat)
    requires attempt <= MaxAttempts
    ensures var run := RetryFrom(userId, invoke, attempt, FirstRetryDelay * Pow2(attempt));
            forall k :: 0 <= k < |run.delays| ==> run.delays[k] == FirstRetryDelay * Pow2(attempt + k)
    decreases MaxAttempts - attempt
  {
    if attempt < MaxAttempts && invoke(attempt).Err? && IsFlood(invoke(attempt).error) {
      var delay := FirstRetryDelay * Pow2(attempt);
      assert delay * 2 == FirstRetryDelay * Pow2(attempt + 1);
      var rest := RetryFrom(userId, invoke, attempt + 1, delay * 2);
      RetryDelays(userId, invoke, attempt + 1);
      var run := RetryFrom(userId, invoke, attempt, delay);
      assert run.delays == [delay] + rest.delays;
      forall k | 0 <= k < |run.delays|
        ensures run.delays[k] == FirstRetryDelay * Pow2(attempt + k)
      {
        if k > 0 {
          assert run.delays[k] == rest.delays[k - 1];
        }
      }
    }
  }

  /** One pause per rate-limit error: every request that was paused on failed with a
      rate-limit error. */
  lemma {:induction false} RetryPauses(userId: int, invoke: nat -> Result<FullUserReply>, attempt: nat, delay: nat)
    requires attempt <= MaxAttempts
    ensures var run := RetryFrom(userId, invoke, attempt, delay);
            forall k :: attempt <= k < attempt + |run.delays| ==> invoke(k).Err? && IsFlood(invoke(k).error)
    decreases MaxAttempts - attempt
  {
    if attempt < MaxAttempts && invoke(attempt).Err? && IsFlood(invoke(attempt).error) {
      var rest := RetryFrom(userId, invoke, attempt + 1, delay * 2);
      RetryPauses(userId, invoke, attempt + 1, delay * 2);
      assert |RetryFrom(userId, invoke, attempt, delay).delays| == 1 + |rest.delays|;
    }
  }

  /** A run ends in an error only after a request that failed for another reason than
      a rate limit, and that request was the last one. */
  lemma {:induction false} RetryErrorCause(userId: int, invoke: nat -> Result<FullUserReply>, attempt: nat, delay: nat)
    requires attempt <= MaxAttempts
    ensures var run := RetryFrom(userId, invoke, attempt, delay);
            run.result.Err? ==> run.calls >= 1 && invoke(attempt + run.calls - 1).Err?
                                && !IsFlood(invoke(attempt + run.calls - 1).error)
                                && run.result.error == invoke(attempt + run.calls - 1).error
    decreases MaxAttempts - attempt
  {
    if attempt < MaxAttempts && invoke(attempt).Err? && IsFlood(invoke(attempt).error) {
      var rest := RetryFrom(userId, invoke, attempt + 1, delay * 2);
      RetryErrorCause(userId, invoke, attempt + 1, delay * 2);
      RetryCalls(userId, invoke, attempt + 1, delay * 2);
      assert attempt + (1 + rest.calls) - 1 == attempt + 1 + rest.calls - 1;
    }
  }

  /** A rate-limit error on every request: exactly three requests, pauses of 2, 4 and 8 s,
      then the placeholder instead of an error. */
  lemma AllFloodsDegrade(userId: int, invoke: nat -> Result<FullUserReply>)
    requires forall k :: 0 <= k < MaxAttempts ==> invoke(k).Err? && IsFlood(invoke(k).error)
    ensures RetryFrom(userId, invoke, 0, FirstRetryDelay) == RetryRun(Ok(Placeholder(userId)), 3, [2, 4, 8])
  {
    assert invoke(0).Err? && invoke(1).Err? && invoke(2).Err?;
  }

  /** Any other error on the first request is returned at once: one request, no pause. */
  lemma OtherErrorPropagates(userId: int, invoke: nat -> Result<FullUserReply>)
    requires invoke(0).Err? && !IsFlood(invoke(0).error)
    ensures RetryFrom(userId, invoke, 0, FirstRetryDelay) == RetryRun(Err(invoke(0).error), 1, [])
  {
  }

  /** A paused request moves from the governed rest of the run to the part already done. */
  lemma AfterFlood(calls: nat, delays: seq<nat>, delay: nat, rest: RetryRun)
    ensures After(calls, delays, RetryRun(rest.result, 1 + rest.calls, [delay] + rest.delays))
            == After(calls + 1, delays + [delay], rest)
  {
    assert delays + ([delay] + rest.delays) == (delays + [delay]) + rest.delays;
  }

  /** `get_user_info`: up to three requests; a rate-limit error pauses `retry_delay`
      seconds and doubles it, any other error is returned, a reply gives the user's
      details, and running out of attempts gives the placeholder. */
  method GetUserInfo(userId: int, invoke: nat -> Result<FullUserReply>)
    returns (r: Result<UserDetails>, calls: nat, delays: seq<nat>)
    ensures RetryRun(r, calls, delays) == RetryFrom(userId, invoke, 0, FirstRetryDelay)
  {
    var retryDelay := FirstRetryDelay;
    calls, delays := 0, [];
    for attempt := 0 to MaxAttempts
      invariant calls == attempt
      invariant RetryFrom(userId, invoke, 0, FirstRetryDelay)
                == After(calls, delays, RetryFrom(userId, invoke, attempt, retryDelay))
    {
      calls := calls + 1;
      match invoke(attempt)
      case Ok(reply) =>
        r := Ok(DetailsOf(reply, userId));
        return;
      case Err(e) =>
        if IsFlood(e) {
          AfterFlood(calls - 1, delays, retryDelay, RetryFrom(userId, invoke, attempt + 1, retryDelay * 2));
          delays := delays + [retryDelay];
          retryDelay := retryDelay * 2;
        } else {
          r := Err(e);
          return;
        }
    }
    r := Ok(Placeholder(userId));
  }
}
