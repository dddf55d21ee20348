/** One cycle of the periodic sync `run_schedule` and the store queries it relies on:
    refresh the chat list and the members, then per chat read the checkpoint, fetch and
    save what is new, analyse the chat when needed, and finally resolve duplicate
    categories. */
module Scheduler {
  import opened Common
  import opened Sorting
  import opened Database
  import Telegram
  import Paginator
  import Ai
  import Duplicates

  /** The pause between two cycles, in seconds. */
  const Interval: nat := 1800

  /** How many stored messages an analysis sees. */
  const RecentLimit: nat := 20

  // ---------------------------------------------------------------------------------
  // The checkpoint

  /** `SELECT MAX(msg_id) FROM messages WHERE chat_peer = ?`: NULL when the chat has no
      stored message, otherwise the largest stored id of the chat. */
  function MaxStoredId(rows: seq<MessageRow>, peer: string): (r: Option<int>)
    ensures r.None? <==> forall i :: 0 <= i < |rows| ==> rows[i].chatPeer != peer
    ensures r.Some? ==> HasMessage(rows, peer, r.value)
    ensures r.Some? ==> forall i :: 0 <= i < |rows| && rows[i].chatPeer == peer ==> rows[i].msgId <= r.value
    decreases |rows|
  {
    if rows == [] then None
    else
      var front := rows[..|rows| - 1];
      var last := rows[|rows| - 1];
      var best := MaxStoredId(front, peer);
      assert forall i :: 0 <= i < |front| ==> rows[i] == front[i];
      if last.chatPeer != peer then best
      else if best.Some? && best.value >= last.msgId then best
      else Some(last.msgId)
  }

  /** `get_last_message_id`: a failing query reads as no row. */
  function GetLastMessageId(rows: seq<MessageRow>, peer: string, fault: bool): Option<int> {
    if fault then None else MaxStoredId(rows, peer)
  }

  /** The checkpoint handed to the paginator: `unwrap_or(0)`, passed on only when positive. */
  function Checkpoint(last: Option<int>): (r: Option<int>)
    ensures r.Some? <==> last.Some? && last.value > 0
    ensures r.Some? ==> r == last
  {
    var lastId := last.GetOr(0);
    if lastId > 0 then Some(lastId) else None
  }

  /** Read without a fault, the checkpoint makes the paginator return only messages newer
      than every message already stored for the chat. */
  lemma FetchedAreNewer(rows: seq<MessageRow>, peer: string, remote: Paginator.Remote)
    requires Paginator.WellBehaved(remote, Paginator.FirstMinId(Checkpoint(MaxStoredId(rows, peer))))
    ensures forall x, i :: (x in Paginator.FetchNew(remote, Checkpoint(MaxStoredId(rows, peer)))
                            && 0 <= i < |rows| && rows[i].chatPeer == peer) ==> rows[i].msgId < x.msgId
  {
  }

  // ---------------------------------------------------------------------------------
  // The most recent messages

  function AsInfo(row: MessageRow): MessageInfo {
    MessageInfo(row.msgId, row.date, row.text)
  }

  /** The chat's stored messages, in table order. */
  function PeerMessages(rows: seq<MessageRow>, peer: string): (r: seq<MessageInfo>)
    ensures |r| <= |rows|
    ensures forall m :: m in r <==> exists i :: 0 <= i < |rows| && rows[i].chatPeer == peer && m == AsInfo(rows[i])
    decreases |rows|
  {
    if rows == [] then []
    else
      var front := rows[..|rows| - 1];
      var last := rows[|rows| - 1];
      assert forall i :: 0 <= i < |front| ==> rows[i] == front[i];
      if last.chatPeer == peer then PeerMessages(front, peer) + [AsInfo(last)] else PeerMessages(front, peer)
  }

  /** With unique keys the chat's messages carry pairwise distinct ids. */
  lemma {:induction false} PeerMessagesDistinct(rows: seq<MessageRow>, peer: string)
    requires UniqueMessages(rows)
    ensures DistinctIds(PeerMessages(rows, peer))
    decreases |rows|
  {
    if rows != [] {
      var front := rows[..|rows| - 1];
      var last := rows[|rows| - 1];
      assert UniqueMessages(front);
      PeerMessagesDistinct(front, peer);
      if last.chatPeer == peer {
        var s := PeerMessages(front, peer);
        forall y | y in s ensures y.msgId != last.msgId {
          var i :| 0 <= i < |front| && front[i].chatPeer == peer && y == AsInfo(front[i]);
          assert rows[i] == front[i];
        }
        var r := s + [AsInfo(last)];
        forall i, j | 0 <= i < j < |r| ensures r[i].msgId != r[j].msgId {
          if j == |s| {
            assert r[i] in s;
          } else {
            assert r[i] == s[i] && r[j] == s[j];
          }
        }
      }
    }
  }

  /** The rows of `ORDER BY msg_id DESC LIMIT limit`. */
  function NewestFirst(rows: seq<MessageRow>, peer: string, limit: nat): seq<MessageInfo> {
    Take(Reverse(SortById(PeerMessages(rows, peer))), limit)
  }

  /** What `get_recent_messages` hands to the analysis. */
  function Recent(rows: seq<MessageRow>, peer: string, limit: nat): seq<MessageInfo> {
    LastN(SortById(PeerMessages(rows, peer)), limit)
  }

  /** The last `limit` of a strictly increasing sequence are strictly increasing elements
      of it, and every element left out has a smaller id than each one kept. */
  lemma LastNNewest(s: seq<MessageInfo>, limit: nat)
    requires StrictlyIncreasing(s)
    ensures var r := LastN(s, limit);
            && StrictlyIncreasing(r)
            && (forall x :: x in r ==> x in s)
            && (forall x, y :: x in s && x !in r && y in r ==> x.msgId < y.msgId)
  {
    var r := LastN(s, limit);
    var cut := |s| - Min(limit, |s|);
    assert forall j :: 0 <= j < |r| ==> r[j] == s[cut + j];
    forall x, y | x in s && x !in r && y in r ensures x.msgId < y.msgId {
      var i :| 0 <= i < |s| && s[i] == x;
      var j :| 0 <= j < |r| && r[j] == y;
      assert s[cut + j] == y;
    }
  }

  /** The recent messages are at most `limit` of the chat's stored messages, in strictly
      ascending id order, and every stored message of the chat left out has a smaller id
      than each one kept. */
  lemma RecentMeaning(rows: seq<MessageRow>, peer: string, limit: nat)
    requires UniqueMessages(rows)
    ensures var all := PeerMessages(rows, peer);
            var r := Recent(rows, peer, limit);
            && |r| == Min(limit, |all|)
            && StrictlyIncreasing(r)
            && (forall x :: x in r ==> x in all)
            && (forall x, y :: x in all && x !in r && y in r ==> x.msgId < y.msgId)
  {
    var all := PeerMessages(rows, peer);
    var s := SortById(all);
    var r := Recent(rows, peer, limit);
    PeerMessagesDistinct(rows, peer);
    SortByIdDistinct(all);
    SortedDistinctIncreasing(s);
    LastNNewest(s, limit);
  }

  /** `Vec::reverse`: swap the ends inwards. */
  method ReverseInPlace<T>(a: array<T>)
    modifies a
    ensures a[..] == Reverse(old(a[..]))
  {
    var n := a.Length;
    for i := 0 to n / 2
      invariant forall k :: 0 <= k < i ==> a[k] == old(a[n - 1 - k]) && a[n - 1 - k] == old(a[k])
      invariant forall k :: i <= k < n - i ==> a[k] == old(a[k])
    {
      a[i], a[n - 1 - i] := a[n - 1 - i], a[i];
    }
  }

  /** `get_recent_messages`: the newest `limit` rows of the chat, read highest id first
      into a vector which is then reversed in place; a failing query is an error. */
  method GetRecentMessages(store: Store, peer: string, limit: nat, fault: bool) returns (r: Result<seq<MessageInfo>>)
    ensures r.Err? <==> fault
    ensures r.Ok? ==> r.value == Recent(store.messages, peer, limit)
  {
    if fault {
      return Err(DbError);
    }
    var rows := NewestFirst(store.messages, peer, limit);
    var messages := new MessageInfo[|rows|];
    for k := 0 to |rows|
      invariant messages[..k] == rows[..k]
    {
      messages[k] := rows[k];
    }
    assert messages[..] == rows;
    ReverseInPlace(messages);
    ReverseTakeReverse(SortById(PeerMessages(store.messages, peer)), limit);
    r := Ok(messages[..]);
  }

  /** `get_chat_category`: the stored category; a failing query or an unknown chat reads
      as none. */
  function GetChatCategory(chats: map<string, ChatRow>, peer: string, fault: bool): (r: Option<string>)
    ensures r.Some? <==> !fault && peer in chats && chats[peer].category.Some?
    ensures r.Some? ==> r == chats[peer].category
  {
    if fault || peer !in chats then None else chats[peer].category
  }

  // ---------------------------------------------------------------------------------
  // Growth of the message table

  /** Rows only accumulate: each earlier row keeps its place and content, except that its
      urgent flag may be raised, never lowered. */
  predicate Grown(before: seq<MessageRow>, after: seq<MessageRow>) {
    && |before| <= |after|
    && forall i :: 0 <= i < |before| ==>
         after[i] == before[i].(urgent := after[i].urgent) && (before[i].urgent ==> after[i].urgent)
  }

  lemma GrownTrans(a: seq<MessageRow>, b: seq<MessageRow>, c: seq<MessageRow>)
    requires Grown(a, b) && Grown(b, c)
    ensures Grown(a, c)
  {
    forall i | 0 <= i < |a| ensures c[i] == a[i].(urgent := c[i].urgent) && (a[i].urgent ==> c[i].urgent) {
      assert b[i] == a[i].(urgent := b[i].urgent);
    }
  }

  lemma InsertAllGrown(rows: seq<MessageRow>, peer: string, batch: seq<MessageInfo>)
    ensures Grown(rows, InsertAll(rows, peer, batch))
  {
    InsertAllFacts(rows, peer, batch);
  }

  lemma MarkAllGrown(rows: seq<MessageRow>, peer: string, ids: seq<int>)
    ensures Grown(rows, MarkAll(rows, peer, ids))
  {
    MarkAllMeaning(rows, peer, ids);
  }

  /** As the table grows the checkpoint of a chat never moves back. */
  lemma GrownKeepsCheckpoint(before: seq<MessageRow>, after: seq<MessageRow>, peer: string)
    requires Grown(before, after)
    ensures MaxStoredId(before, peer).Some? ==>
              MaxStoredId(after, peer).Some? && MaxStoredId(before, peer).value <= MaxStoredId(after, peer).value
  {
    var b := MaxStoredId(before, peer);
    if b.Some? {
      var i :| 0 <= i < |before| && before[i].chatPeer == peer && before[i].msgId == b.value;
      assert after[i].chatPeer == peer && after[i].msgId == b.value;
    }
  }

  // ---------------------------------------------------------------------------------
  // The world one cycle runs against

  /** The database statements of a cycle, each of which may fail. */
  datatype DbCall =
    | SaveChatCall(chatPeer: string)
    | SaveMemberCall(memberPeer: string, userId: int)
    | LastIdCall(lastPeer: string)
    | SaveMessagesCall(savePeer: string)
    | CategoryCall(categoryPeer: string)
    | RecentCall(recentPeer: string)
    | MarkUrgentCall(urgentPeer: string)
    | AnalysisCall(analysisPeer: string)
    | DuplicatesCall

  /** Everything outside the engine: the dialog listing, the member and history replies
      per chat, the language model, which statements fail, and the clock. */
  datatype Environment = Environment(
    dialogs: seq<Result<Telegram.Dialog>>,
    memberReplies: string -> Telegram.MemberReplies,
    history: string -> Paginator.Remote,
    generate: string -> Result<string>,
    dbFault: DbCall -> bool,
    now: int)

  /** Every chat's history honours the bounds of every request. */
  ghost predicate HonestHistory(env: Environment) {
    forall peer, minId :: 0 <= minId ==> Paginator.WellBehaved(env.history(peer), minId)
  }

  /** What the paginator brings for the chat, given the stored rows. */
  function Fetched(env: Environment, rows: seq<MessageRow>, peer: string): seq<MessageInfo>
    requires HonestHistory(env)
  {
    Paginator.FetchNew(env.history(peer), Checkpoint(GetLastMessageId(rows, peer, env.dbFault(LastIdCall(peer)))))
  }

  /** The message table after the fetched messages are saved. */
  function Saved(env: Environment, rows: seq<MessageRow>, peer: string): seq<MessageRow>
    requires HonestHistory(env)
  {
    var fetched := Fetched(env, rows, peer);
    if env.dbFault(SaveMessagesCall(peer)) && fetched != [] then rows else InsertAll(rows, peer, fetched)
  }

  /** The chat is analysed when it has no category yet or new messages arrived. */
  predicate Wanted(env: Environment, chats: map<string, ChatRow>, rows: seq<MessageRow>, peer: string)
    requires HonestHistory(env)
  {
    GetChatCategory(chats, peer, env.dbFault(CategoryCall(peer))).None? || Fetched(env, rows, peer) != []
  }

  // ---------------------------------------------------------------------------------
  // What step 2 writes

  /** Some save of a member of `ms` with this user id goes through. */
  ghost predicate SavedUser(env: Environment, peer: string, ms: seq<Telegram.Member>, id: int) {
    exists k :: 0 <= k < |ms| && ms[k].userId == id && !env.dbFault(SaveMemberCall(peer, id))
  }

  /** A save goes through for a user of `ms` when it does for one of all but the last
      member, or for the last one. */
  lemma SavedUserStep(env: Environment, peer: string, ms: seq<Telegram.Member>)
    requires ms != []
    ensures var m := ms[|ms| - 1];
            forall id :: SavedUser(env, peer, ms, id) <==>
              SavedUser(env, peer, ms[..|ms| - 1], id) || (id == m.userId && !env.dbFault(SaveMemberCall(peer, id)))
  {
    var init := ms[..|ms| - 1];
    forall id | SavedUser(env, peer, init, id) ensures SavedUser(env, peer, ms, id) {
      var k :| 0 <= k < |init| && init[k].userId == id && !env.dbFault(SaveMemberCall(peer, id));
      assert ms[k] == init[k];
    }
  }

  /** The users table after the members of one chat are saved in order: each save that
      goes through writes the member's row with `last_seen` 0. */
  function UsersAfter(env: Environment, peer: string, users: map<int, UserRow>,
                      ms: seq<Telegram.Member>): map<int, UserRow>
    decreases |ms|
  {
    if ms == [] then users
    else
      var before := UsersAfter(env, peer, users, ms[..|ms| - 1]);
      var m := ms[|ms| - 1];
      if env.dbFault(SaveMemberCall(peer, m.userId)) then before
      else before[m.userId := UserRow(m.name, m.username, m.bio, 0)]
  }

  /** The membership table after the members of one chat are saved in order: each save
      that goes through replaces the (chat, user) row, stamped with the clock. */
  function MembersAfter(env: Environment, peer: string, rows: seq<MemberRow>,
                        ms: seq<Telegram.Member>): seq<MemberRow>
    decreases |ms|
  {
    if ms == [] then rows
    else
      var before := MembersAfter(env, peer, rows, ms[..|ms| - 1]);
      var m := ms[|ms| - 1];
      if env.dbFault(SaveMemberCall(peer, m.userId)) then before
      else ReplaceMember(before, MemberRow(peer, m.userId, env.now))
  }

  /** After the saves the users table holds the old ids and the saved ones, and a user no
      save reached keeps its row. */
  lemma {:induction false} UsersAfterMeaning(env: Environment, peer: string, users: map<int, UserRow>,
                                             ms: seq<Telegram.Member>)
    ensures var r := UsersAfter(env, peer, users, ms);
            && (forall id :: id in r <==> id in users || SavedUser(env, peer, ms, id))
            && (forall id :: id in users && !SavedUser(env, peer, ms, id) ==> r[id] == users[id])
    decreases |ms|
  {
    if ms != [] {
      UsersAfterMeaning(env, peer, users, ms[..|ms| - 1]);
      SavedUserStep(env, peer, ms);
    }
  }

  /** A saved user holds the row of its last listing in the chat. */
  lemma {:induction false} UsersAfterRow(env: Environment, peer: string, users: map<int, UserRow>,
                                         ms: seq<Telegram.Member>)
    ensures var r := UsersAfter(env, peer, users, ms);
            forall k ::
              (0 <= k < |ms| && !env.dbFault(SaveMemberCall(peer, ms[k].userId))
               && forall j :: k < j < |ms| ==> ms[j].userId != ms[k].userId) ==>
              ms[k].userId in r && r[ms[k].userId] == UserRow(ms[k].name, ms[k].username, ms[k].bio, 0)
    decreases |ms|
  {
    if ms != [] {
      var init := ms[..|ms| - 1];
      UsersAfterRow(env, peer, users, init);
      forall k | 0 <= k < |ms| - 1 ensures ms[k] == init[k] { }
    }
  }

  /** After the saves the membership keys stay unique; the rows of the saved users of this
      chat are the fresh ones, and every other row is kept. */
  lemma {:induction false} MembersAfterMeaning(env: Environment, peer: string, rows: seq<MemberRow>,
                                               ms: seq<Telegram.Member>)
    requires UniqueMembers(rows)
    ensures var r := MembersAfter(env, peer, rows, ms);
            && UniqueMembers(r)
            && forall x :: x in r <==>
                 || (x in rows && !(x.chatPeer == peer && SavedUser(env, peer, ms, x.userId)))
                 || (x == MemberRow(peer, x.userId, env.now) && SavedUser(env, peer, ms, x.userId))
    decreases |ms|
  {
    if ms != [] {
      var init := ms[..|ms| - 1];
      var m := ms[|ms| - 1];
      MembersAfterMeaning(env, peer, rows, init);
      var before := MembersAfter(env, peer, rows, init);
      SavedUserStep(env, peer, ms);
      if !env.dbFault(SaveMemberCall(peer, m.userId)) {
        ReplaceMemberMeaning(before, MemberRow(peer, m.userId, env.now));
      }
    }
  }

  /** Every member whose save goes through ends up with a user row and a membership row
      for the chat stamped with the clock, and no user row is lost. */
  lemma SavedMembersPresent(env: Environment, peer: string, users: map<int, UserRow>, rows: seq<MemberRow>,
                            ms: seq<Telegram.Member>)
    requires UniqueMembers(rows)
    ensures users.Keys <= UsersAfter(env, peer, users, ms).Keys
    ensures forall k :: 0 <= k < |ms| && !env.dbFault(SaveMemberCall(peer, ms[k].userId)) ==>
              && ms[k].userId in UsersAfter(env, peer, users, ms)
              && MemberRow(peer, ms[k].userId, env.now) in MembersAfter(env, peer, rows, ms)
  {
    UsersAfterMeaning(env, peer, users, ms);
    MembersAfterMeaning(env, peer, rows, ms);
    forall k | 0 <= k < |ms| && !env.dbFault(SaveMemberCall(peer, ms[k].userId))
      ensures SavedUser(env, peer, ms, ms[k].userId)
    {
    }
  }

  /** Some save of a listed chat with this peer id goes through. */
  ghost predicate SavedChat(env: Environment, list: seq<ChatInfo>, p: string) {
    exists k :: 0 <= k < |list| && list[k].peerId == p && !env.dbFault(SaveChatCall(p))
  }

  /** A save goes through for a peer of `list` when it does for one of all but the last
      chat, or for the last one. */
  lemma SavedChatStep(env: Environment, list: seq<ChatInfo>)
    requires list != []
    ensures var c := list[|list| - 1];
            forall p :: SavedChat(env, list, p) <==>
              SavedChat(env, list[..|list| - 1], p) || (p == c.peerId && !env.dbFault(SaveChatCall(p)))
  {
    var init := list[..|list| - 1];
    forall p | SavedChat(env, init, p) ensures SavedChat(env, list, p) {
      var k :| 0 <= k < |init| && init[k].peerId == p && !env.dbFault(SaveChatCall(p));
      assert list[k] == init[k];
    }
  }

  /** The chats table after every listed chat is upserted in order, a failed save
      changing nothing. */
  function ChatsAfter(env: Environment, chats: map<string, ChatRow>, list: seq<ChatInfo>): map<string, ChatRow>
    decreases |list|
  {
    if list == [] then chats
    else
      var before := ChatsAfter(env, chats, list[..|list| - 1]);
      var c := list[|list| - 1];
      if env.dbFault(SaveChatCall(c.peerId)) then before else UpsertChat(before, c)
  }

  /** After step 2 the chats table holds the old peers and the saved ones, and a chat no
      save reached keeps its row. */
  lemma {:induction false} ChatsAfterMeaning(env: Environment, chats: map<string, ChatRow>, list: seq<ChatInfo>)
    ensures var r := ChatsAfter(env, chats, list);
            && (forall p :: p in r <==> p in chats || SavedChat(env, list, p))
            && (forall p :: p in chats && !SavedChat(env, list, p) ==> r[p] == chats[p])
    decreases |list|
  {
    if list != [] {
      var c := list[|list| - 1];
      ChatsAfterMeaning(env, chats, list[..|list| - 1]);
      UpsertChatMeaning(ChatsAfter(env, chats, list[..|list| - 1]), c);
      SavedChatStep(env, list);
    }
  }

  /** A saved chat carries the title of its last listing. */
  lemma {:induction false} ChatsAfterTitle(env: Environment, chats: map<string, ChatRow>, list: seq<ChatInfo>)
    ensures var r := ChatsAfter(env, chats, list);
            forall k ::
              (0 <= k < |list| && !env.dbFault(SaveChatCall(list[k].peerId))
               && forall j :: k < j < |list| ==> list[j].peerId != list[k].peerId) ==>
              list[k].peerId in r && r[list[k].peerId].name == list[k].title
    decreases |list|
  {
    if list != [] {
      var init := list[..|list| - 1];
      var c := list[|list| - 1];
      ChatsAfterTitle(env, chats, init);
      UpsertChatMeaning(ChatsAfter(env, chats, init), c);
      forall k | 0 <= k < |list| - 1 ensures list[k] == init[k] { }
    }
  }

  /** The members one refresh reports for a listed chat. */
  function MembersOf(env: Environment, chat: ChatInfo): seq<Telegram.Member> {
    Telegram.ChatMembers(chat.kind, env.memberReplies(chat.peerId))
  }

  /** The users table after the members of every listed chat are saved. */
  function RefreshedUsers(env: Environment, users: map<int, UserRow>, list: seq<ChatInfo>): map<int, UserRow>
    decreases |list|
  {
    if list == [] then users
    else
      var c := list[|list| - 1];
      UsersAfter(env, c.peerId, RefreshedUsers(env, users, list[..|list| - 1]), MembersOf(env, c))
  }

  /** The membership table after the members of every listed chat are saved. */
  function RefreshedMembers(env: Environment, rows: seq<MemberRow>, list: seq<ChatInfo>): seq<MemberRow>
    decreases |list|
  {
    if list == [] then rows
    else
      var c := list[|list| - 1];
      MembersAfter(env, c.peerId, RefreshedMembers(env, rows, list[..|list| - 1]), MembersOf(env, c))
  }

  /** One pause per member fetched. */
  function Pauses(n: nat): seq<nat> {
    seq(n, _ => Telegram.MemberPause)
  }

  /** The pauses of step 2: those of each listed chat's members, chat after chat. */
  function RefreshDelays(env: Environment, list: seq<ChatInfo>): seq<nat>
    decreases |list|
  {
    if list == [] then []
    else RefreshDelays(env, list[..|list| - 1]) + Pauses(|MembersOf(env, list[|list| - 1])|)
  }

  /** How many members step 2 fetches over all listed chats. */
  function MemberTotal(env: Environment, list: seq<ChatInfo>): nat
    decreases |list|
  {
    if list == [] then 0
    else MemberTotal(env, list[..|list| - 1]) + |MembersOf(env, list[|list| - 1])|
  }

  /** Step 2 pauses once per fetched member, and only for that. */
  lemma {:induction false} RefreshDelaysMeaning(env: Environment, list: seq<ChatInfo>)
    ensures var d := RefreshDelays(env, list);
            && |d| == MemberTotal(env, list)
            && forall k :: 0 <= k < |d| ==> d[k] == Telegram.MemberPause
    decreases |list|
  {
    if list != [] {
      RefreshDelaysMeaning(env, list[..|list| - 1]);
    }
  }

  // ---------------------------------------------------------------------------------
  // The cycle

  /** Save the members of one chat, one `save_member` each; a failed save is logged and
      skipped. */
  method SaveMembers(store: Store, env: Environment, peer: string, members: seq<Telegram.Member>)
    requires store.Valid()
    modifies store
    ensures store.Valid()
    ensures store.chats == old(store.chats) && store.messages == old(store.messages)
    ensures old(store.users).Keys <= store.users.Keys
    ensures forall k :: 0 <= k < |members| && !env.dbFault(SaveMemberCall(peer, members[k].userId)) ==>
              members[k].userId in store.users && MemberRow(peer, members[k].userId, env.now) in store.members
    ensures store.users == UsersAfter(env, peer, old(store.users), members)
    ensures store.members == MembersAfter(env, peer, old(store.members), members)
  {
    for k := 0 to |members|
      invariant store.Valid()
      invariant store.chats == old(store.chats) && store.messages == old(store.messages)
      invariant store.users == UsersAfter(env, peer, old(store.users), members[..k])
      invariant store.members == MembersAfter(env, peer, old(store.members), members[..k])
    {
      var m := members[k];
      var _ := store.SaveMember(peer, m.userId, m.name, m.username, m.bio, 0, env.now,
                                env.dbFault(SaveMemberCall(peer, m.userId)));
      assert members[..k + 1][..k] == members[..k];
    }
    assert members[..|members|] == members;
    SavedMembersPresent(env, peer, old(store.users), old(store.members), members);
  }

  /** Step 2 for one chat: save it, then fetch and save its members. */
  method RefreshChat(store: Store, env: Environment, chat: ChatInfo) returns (pauses: seq<nat>)
    requires store.Valid()
    modifies store
    ensures store.Valid()
    ensures store.messages == old(store.messages)
    ensures old(store.chats).Keys <= store.chats.Keys && old(store.users).Keys <= store.users.Keys
    ensures !env.dbFault(SaveChatCall(chat.peerId)) ==> chat.peerId in store.chats
    ensures store.chats == if env.dbFault(SaveChatCall(chat.peerId)) then old(store.chats)
                           else UpsertChat(old(store.chats), chat)
    ensures store.users == UsersAfter(env, chat.peerId, old(store.users), MembersOf(env, chat))
    ensures store.members == MembersAfter(env, chat.peerId, old(store.members), MembersOf(env, chat))
    ensures pauses == Pauses(|MembersOf(env, chat)|)
  {
    UpsertChatMeaning(store.chats, chat);
    var _ := store.SaveChat(chat, env.dbFault(SaveChatCall(chat.peerId)));
    var members;
    members, pauses := Telegram.FetchChatMembers(chat, env.memberReplies(chat.peerId));
    SaveMembers(store, env, chat.peerId, members);
  }

  /** Step 2: save every listed chat, then fetch and save its members. */
  method RefreshChats(store: Store, env: Environment, chats: seq<ChatInfo>) returns (delays: seq<nat>)
    requires store.Valid()
    modifies store
    ensures store.Valid()
    ensures store.messages == old(store.messages)
    ensures old(store.chats).Keys <= store.chats.Keys && old(store.users).Keys <= store.users.Keys
    ensures forall k :: 0 <= k < |chats| && !env.dbFault(SaveChatCall(chats[k].peerId)) ==> chats[k].peerId in store.chats
    ensures forall k :: 0 <= k < |delays| ==> delays[k] == Telegram.MemberPause
    ensures store.chats == ChatsAfter(env, old(store.chats), chats)
    ensures store.users == RefreshedUsers(env, old(store.users), chats)
    ensures store.members == RefreshedMembers(env, old(store.members), chats)
    ensures delays == RefreshDelays(env, chats)
  {
    delays := [];
    for i := 0 to |chats|
      invariant store.Valid()
      invariant store.messages == old(store.messages)
      invariant old(store.users).Keys <= store.users.Keys
      invariant store.chats == ChatsAfter(env, old(store.chats), chats[..i])
      invariant store.users == RefreshedUsers(env, old(store.users), chats[..i])
      invariant store.members == RefreshedMembers(env, old(store.members), chats[..i])
      invariant delays == RefreshDelays(env, chats[..i])
    {
      assert chats[..i + 1][..i] == chats[..i];
      var pauses := RefreshChat(store, env, chats[i]);
      delays := delays + pauses;
    }
    assert chats[..|chats|] == chats;
    ChatsAfterMeaning(env, old(store.chats), chats);
    RefreshDelaysMeaning(env, chats);
  }

  /** Store one analysis: mark its urgent messages, then write its category and suggested
      name with the duplicate flag cleared; each write fails on its own. */
  method StoreAnalysis(store: Store, env: Environment, peer: string, a: Ai.Analysis)
    requires store.Valid()
    modifies store
    ensures store.Valid()
    ensures store.users == old(store.users) && store.members == old(store.members)
    ensures store.chats.Keys == old(store.chats).Keys
    ensures Grown(old(store.messages), store.messages)
    ensures store.chats == if env.dbFault(AnalysisCall(peer)) then old(store.chats)
                           else UpdateAnalysis(old(store.chats), peer, a.category, a.suggestedName, false)
    ensures store.messages == if env.dbFault(MarkUrgentCall(peer)) && a.urgentIds != [] then old(store.messages)
                              else MarkAll(old(store.messages), peer, a.urgentIds)
  {
    MarkAllGrown(store.messages, peer, a.urgentIds);
    var _ := store.MarkUrgent(peer, a.urgentIds, env.dbFault(MarkUrgentCall(peer)));
    var _ := store.UpdateChatAnalysis(peer, a.category, a.suggestedName, false, env.dbFault(AnalysisCall(peer)));
  }

  /** A successful analysis: mark the urgent messages, store the category and suggested
      name (duplicate cleared), and hand back the pair for the resolver; a failed one
      changes nothing and hands back nothing. */
  method AnalyzeAndStore(store: Store, env: Environment, chat: ChatInfo, recent: seq<MessageInfo>)
      returns (pushed: seq<(string, string)>)
    requires store.Valid()
    modifies store
    ensures store.Valid()
    ensures store.users == old(store.users) && store.members == old(store.members)
    ensures store.chats.Keys == old(store.chats).Keys
    ensures Grown(old(store.messages), store.messages)
    ensures var a := Ai.ChatAnalysis(chat.title, recent, env.generate);
            && pushed == (if a.Ok? then [(a.value.category, chat.peerId)] else [])
            && (a.Err? ==> store.chats == old(store.chats) && store.messages == old(store.messages))
            && (a.Ok? ==> store.chats == if env.dbFault(AnalysisCall(chat.peerId)) then old(store.chats)
                                         else UpdateAnalysis(old(store.chats), chat.peerId, a.value.category,
                                                             a.value.suggestedName, false))
            && (a.Ok? ==> store.messages == if env.dbFault(MarkUrgentCall(chat.peerId)) && a.value.urgentIds != []
                                           then old(store.messages)
                                           else MarkAll(old(store.messages), chat.peerId, a.value.urgentIds))
  {
    var analysis := Ai.AnalyzeChat(chat.title, recent, env.generate);
    if analysis.Err? {
      return [];
    }
    StoreAnalysis(store, env, chat.peerId, analysis.value);
    pushed := [(analysis.value.category, chat.peerId)];
  }

  /** Read the checkpoint, fetch the newer messages and save them. */
  method FetchAndSave(store: Store, env: Environment, peer: string) returns (newMsgs: seq<MessageInfo>)
    requires store.Valid() && HonestHistory(env)
    modifies store
    ensures store.Valid()
    ensures newMsgs == Fetched(env, old(store.messages), peer)
    ensures store.messages == Saved(env, old(store.messages), peer)
    ensures Grown(old(store.messages), store.messages)
    ensures store.chats == old(store.chats) && store.users == old(store.users) && store.members == old(store.members)
  {
    var last := GetLastMessageId(store.messages, peer, env.dbFault(LastIdCall(peer)));
    ghost var requests;
    newMsgs, requests := Paginator.FetchNewMessages(env.history(peer), Checkpoint(last));
    InsertAllGrown(store.messages, peer, newMsgs);
    var _ := store.SaveMessages(peer, newMsgs, env.dbFault(SaveMessagesCall(peer)));
  }

  /** Step 3 for one chat: read the checkpoint, fetch and save what is new, and analyse the
      chat when it has no category or something new arrived. Only a failing read of the
      recent messages is an error; it ends the cycle. */
  method ProcessChat(store: Store, env: Environment, chat: ChatInfo) returns (r: Result<()>, pushed: seq<(string, string)>)
    requires store.Valid() && HonestHistory(env)
    modifies store
    ensures store.Valid()
    ensures store.users == old(store.users) && store.members == old(store.members)
    ensures store.chats.Keys == old(store.chats).Keys
    ensures Grown(old(store.messages), store.messages)
    ensures !Wanted(env, old(store.chats), old(store.messages), chat.peerId) ==>
              && r.Ok? && pushed == [] && store.chats == old(store.chats)
              && store.messages == Saved(env, old(store.messages), chat.peerId)
    ensures Wanted(env, old(store.chats), old(store.messages), chat.peerId) ==>
              (r.Err? <==> env.dbFault(RecentCall(chat.peerId)))
    ensures r.Err? ==> pushed == [] && store.chats == old(store.chats)
    ensures Wanted(env, old(store.chats), old(store.messages), chat.peerId) && r.Ok? ==>
              var recent := Recent(Saved(env, old(store.messages), chat.peerId), chat.peerId, RecentLimit);
              var a := Ai.ChatAnalysis(chat.title, recent, env.generate);
              && pushed == (if a.Ok? then [(a.value.category, chat.peerId)] else [])
              && (a.Err? ==> store.chats == old(store.chats))
    ensures r.Err? ==> store.messages == Saved(env, old(store.messages), chat.peerId)
    ensures Wanted(env, old(store.chats), old(store.messages), chat.peerId) && r.Ok? ==>
              var saved := Saved(env, old(store.messages), chat.peerId);
              var a := Ai.ChatAnalysis(chat.title, Recent(saved, chat.peerId, RecentLimit), env.generate);
              && store.chats == (if a.Ok? && !env.dbFault(AnalysisCall(chat.peerId))
                                 then UpdateAnalysis(old(store.chats), chat.peerId, a.value.category,
                                                     a.value.suggestedName, false)
                                 else old(store.chats))
              && store.messages == (if a.Ok? && !(env.dbFault(MarkUrgentCall(chat.peerId)) && a.value.urgentIds != [])
                                    then MarkAll(saved, chat.peerId, a.value.urgentIds)
                                    else saved)
  {
    var peer := chat.peerId;
    var newMsgs := FetchAndSave(store, env, peer);
    var category := GetChatCategory(store.chats, peer, env.dbFault(CategoryCall(peer)));
    if category.Some? && newMsgs == [] {
      return Ok(()), [];
    }
    var recent := GetRecentMessages(store, peer, RecentLimit, env.dbFault(RecentCall(peer)));
    if recent.Err? {
      return Err(recent.error), [];
    }
    ghost var saved := store.messages;
    pushed := AnalyzeAndStore(store, env, chat, recent.value);
    GrownTrans(old(store.messages), saved, store.messages);
    r := Ok(());
  }

  /** The outcome of one cycle: `Ok` to sleep and go again, `Err` when the loop ends. */
  method RunCycle(store: Store, env: Environment) returns (r: Result<()>, delays: seq<nat>)
    requires store.Valid() && HonestHistory(env)
    modifies store
    ensures store.Valid()
    ensures Grown(old(store.messages), store.messages)
    ensures store.users.Keys >= old(store.users).Keys && store.chats.Keys >= old(store.chats).Keys
    ensures Telegram.ListDialogs(env.dialogs).Err? ==>
              && r.Ok? && delays == [Interval]
              && store.chats == old(store.chats) && store.messages == old(store.messages)
              && store.users == old(store.users) && store.members == old(store.members)
    ensures Telegram.ListDialogs(env.dialogs).Ok? ==>
              forall c :: c in Telegram.ListDialogs(env.dialogs).value && !env.dbFault(SaveChatCall(c.peerId)) ==>
                c.peerId in store.chats
    ensures r.Ok? ==> delays != [] && delays[|delays| - 1] == Interval
                      && forall k :: 0 <= k < |delays| - 1 ==> delays[k] == Telegram.MemberPause
    ensures Telegram.ListDialogs(env.dialogs).Ok? ==>
              var list := Telegram.ListDialogs(env.dialogs).value;
              && store.users == RefreshedUsers(env, old(store.users), list)
              && store.members == RefreshedMembers(env, old(store.members), list)
              && store.chats.Keys == ChatsAfter(env, old(store.chats), list).Keys
              && delays == RefreshDelays(env, list) + (if r.Ok? then [Interval] else [])
  {
    var listed := Telegram.FetchDialogs(env.dialogs);
    if listed.Err? {
      return Ok(()), [Interval];
    }
    var chatList := listed.value;
    delays := RefreshChats(store, env, chatList);
    ghost var refreshed := store.chats.Keys;
    ghost var users, members := store.users, store.members;
    ghost var start := old(store.messages);
    var categories: seq<(string, string)> := [];
    for i := 0 to |chatList|
      invariant store.Valid()
      invariant store.chats.Keys == refreshed && store.users == users && store.members == members
      invariant Grown(start, store.messages)
      invariant forall k :: 0 <= k < |delays| ==> delays[k] == Telegram.MemberPause
    {
      ghost var before := store.messages;
      var outcome, pushed := ProcessChat(store, env, chatList[i]);
      GrownTrans(start, before, store.messages);
      if outcome.Err? {
        return outcome, delays;
      }
      categories := categories + pushed;
    }
    var resolved, _ := Duplicates.MarkDuplicates(store, categories, env.dbFault(DuplicatesCall));
    if resolved.Err? {
      return resolved, delays;
    }
    delays := delays + [Interval];
    r := Ok(());
  }
}
