/** The SQLite store: four tables and the statements the engine runs against them. Each
    statement is a function from table contents to table contents; the `Store` class holds
    the tables and applies the statements, every write either fully or (on a database
    fault) not at all. */
module Database {
  import opened Common
  import opened Strings

  /** A row of `chats`, keyed by peer id. The analysis columns start out NULL / 0. */
  datatype ChatRow = ChatRow(
    kind: ChatKind,
    tgId: int,
    name: string,
    accessHash: int,
    category: Option<string>,
    suggestedName: Option<string>,
    duplicate: bool)

  /** A row of the message table; (chatPeer, msgId) is unique. */
  datatype MessageRow = MessageRow(chatPeer: string, msgId: int, date: int, text: string, urgent: bool)

  /** A row of `users`, keyed by user id. */
  datatype UserRow = UserRow(name: string, username: Option<string>, bio: Option<string>, lastSeen: int)

  /** A row of `chat_members`; (chatPeer, userId) is the primary key. */
  datatype MemberRow = MemberRow(chatPeer: string, userId: int, joinedAt: int)

  /** A row of the member listing: the user columns joined through `chat_members`. */
  datatype Listing = Listing(userId: int, name: string, username: Option<string>, bio: Option<string>)

  /** The text of an error raised by the database engine. */
  const DbError := "database error"

  // ---------------------------------------------------------------------------------
  // chats

  /** The row `save_chat` inserts for a chat not seen before. */
  function NewChatRow(chat: ChatInfo): ChatRow {
    ChatRow(chat.kind, chat.tgId, chat.title, chat.accessHash.GetOr(0), None, None, false)
  }

  /** `save_chat`: insert, or on a known peer id refresh only the name and access hash. */
  function UpsertChat(chats: map<string, ChatRow>, chat: ChatInfo): map<string, ChatRow> {
    if chat.peerId in chats then
      chats[chat.peerId := chats[chat.peerId].(name := chat.title, accessHash := chat.accessHash.GetOr(0))]
    else
      chats[chat.peerId := NewChatRow(chat)]
  }

  /** After `save_chat` the peer is present with the chat's title and access hash (0 when
      missing); a known chat keeps its type, id and analysis columns; a new one starts with
      no analysis; no other row changes. */
  lemma UpsertChatMeaning(chats: map<string, ChatRow>, chat: ChatInfo)
    ensures var r := UpsertChat(chats, chat);
            && r.Keys == chats.Keys + {chat.peerId}
            && (forall p :: p in chats && p != chat.peerId ==> r[p] == chats[p])
            && r[chat.peerId].name == chat.title
            && r[chat.peerId].accessHash == (if chat.accessHash.Some? then chat.accessHash.value else 0)
            && (chat.peerId in chats ==>
                  var old_ := chats[chat.peerId];
                  && r[chat.peerId].kind == old_.kind && r[chat.peerId].tgId == old_.tgId
                  && r[chat.peerId].category == old_.category
                  && r[chat.peerId].suggestedName == old_.suggestedName
                  && r[chat.peerId].duplicate == old_.duplicate)
            && (chat.peerId !in chats ==>
                  && r[chat.peerId].kind == chat.kind && r[chat.peerId].tgId == chat.tgId
                  && r[chat.peerId].category.None? && r[chat.peerId].suggestedName.None?
                  && !r[chat.peerId].duplicate)
  {
  }

  /** Saving the same chat twice is the same as saving it once. */
  lemma UpsertChatIdempotent(chats: map<string, ChatRow>, chat: ChatInfo)
    ensures UpsertChat(UpsertChat(chats, chat), chat) == UpsertChat(chats, chat)
  {
  }

  /** `update_chat_analysis`: overwrite the three analysis columns of one chat; an unknown
      peer id matches no row. */
  function UpdateAnalysis(chats: map<string, ChatRow>, peer: string, category: string,
                          suggested: string, duplicate: bool): map<string, ChatRow> {
    if peer in chats then
      chats[peer := chats[peer].(category := Some(category), suggestedName := Some(suggested), duplicate := duplicate)]
    else chats
  }

  /** The analysis update touches the given peer's analysis columns and nothing else. */
  lemma UpdateAnalysisMeaning(chats: map<string, ChatRow>, peer: string, category: string,
                              suggested: string, duplicate: bool)
    ensures var r := UpdateAnalysis(chats, peer, category, suggested, duplicate);
            && r.Keys == chats.Keys
            && (forall p :: p in chats && p != peer ==> r[p] == chats[p])
            && (peer in chats ==>
                  && r[peer].category == Some(category) && r[peer].suggestedName == Some(suggested)
                  && r[peer].duplicate == duplicate
                  && r[peer].name == chats[peer].name && r[peer].kind == chats[peer].kind
                  && r[peer].tgId == chats[peer].tgId && r[peer].accessHash == chats[peer].accessHash)
  {
  }

  /** `UPDATE chats SET duplicate = ? WHERE peer_id = ?`. */
  function SetDuplicate(chats: map<string, ChatRow>, peer: string, flag: bool): map<string, ChatRow> {
    if peer in chats then chats[peer := chats[peer].(duplicate := flag)] else chats
  }

  /** `UPDATE chats SET duplicate = 0`. */
  function ResetDuplicates(chats: map<string, ChatRow>): (r: map<string, ChatRow>)
    ensures r.Keys == chats.Keys
    ensures forall p :: p in chats ==> r[p] == chats[p].(duplicate := false)
  {
    map p | p in chats :: chats[p].(duplicate := false)
  }

  // ---------------------------------------------------------------------------------
  // messages

  /** Some row carries the key (peer, id). */
  predicate HasMessage(rows: seq<MessageRow>, peer: string, id: int) {
    exists i :: 0 <= i < |rows| && rows[i].chatPeer == peer && rows[i].msgId == id
  }

  /** UNIQUE(chat_peer, msg_id). */
  ghost predicate UniqueMessages(rows: seq<MessageRow>) {
    forall i, j :: 0 <= i < j < |rows| ==> !(rows[i].chatPeer == rows[j].chatPeer && rows[i].msgId == rows[j].msgId)
  }

  /** The row stored for a freshly saved message: not urgent. */
  function NewMessageRow(peer: string, m: MessageInfo): MessageRow {
    MessageRow(peer, m.msgId, m.date, m.text, false)
  }

  /** `INSERT OR IGNORE`: a new key is appended, a known one leaves the table as it is. */
  function InsertOrIgnore(rows: seq<MessageRow>, peer: string, m: MessageInfo): seq<MessageRow> {
    if HasMessage(rows, peer, m.msgId) then rows else rows + [NewMessageRow(peer, m)]
  }

  /** `save_messages`: the batch inserted one message after another. */
  function InsertAll(rows: seq<MessageRow>, peer: string, batch: seq<MessageInfo>): seq<MessageRow>
    decreases |batch|
  {
    if batch == [] then rows
    else InsertOrIgnore(InsertAll(rows, peer, batch[..|batch| - 1]), peer, batch[|batch| - 1])
  }

  lemma HasMessageGrows(rows: seq<MessageRow>, more: seq<MessageRow>, peer: string, id: int)
    requires rows <= more && HasMessage(rows, peer, id)
    ensures HasMessage(more, peer, id)
  {
    var i :| 0 <= i < |rows| && rows[i].chatPeer == peer && rows[i].msgId == id;
    assert more[i] == rows[i];
  }

  /** Inserting a batch keeps every existing row where and as it was (urgent flag included),
      keeps keys unique, stores every message of the batch, and adds only rows of this chat
      that come from the batch and are not urgent. */
  lemma {:induction false} InsertAllFacts(rows: seq<MessageRow>, peer: string, batch: seq<MessageInfo>)
    ensures var r := InsertAll(rows, peer, batch);
            && rows <= r
            && (UniqueMessages(rows) ==> UniqueMessages(r))
            && (forall k :: 0 <= k < |batch| ==> HasMessage(r, peer, batch[k].msgId))
            && (forall i :: |rows| <= i < |r| ==>
                  exists k :: 0 <= k < |batch| && r[i] == NewMessageRow(peer, batch[k]))
    decreases |batch|
  {
    if batch != [] {
      var front := batch[..|batch| - 1];
      var m := batch[|batch| - 1];
      var mid := InsertAll(rows, peer, front);
      InsertAllFacts(rows, peer, front);
      var r := InsertAll(rows, peer, batch);
      assert r == InsertOrIgnore(mid, peer, m);
      forall k | 0 <= k < |batch| ensures HasMessage(r, peer, batch[k].msgId) {
        if k < |batch| - 1 {
          assert batch[k] == front[k];
          HasMessageGrows(mid, r, peer, batch[k].msgId);
        } else if !HasMessage(mid, peer, m.msgId) {
          assert r[|mid|] == NewMessageRow(peer, m);
        }
      }
      forall i | |rows| <= i < |r| ensures exists k :: 0 <= k < |batch| && r[i] == NewMessageRow(peer, batch[k]) {
        if i < |mid| {
          assert r[i] == mid[i];
          var k :| 0 <= k < |front| && mid[i] == NewMessageRow(peer, front[k]);
          assert front[k] == batch[k];
        } else {
          assert r[i] == NewMessageRow(peer, batch[|batch| - 1]);
        }
      }
      if UniqueMessages(rows) && !HasMessage(mid, peer, m.msgId) {
        forall i, j | 0 <= i < j < |r|
          ensures !(r[i].chatPeer == r[j].chatPeer && r[i].msgId == r[j].msgId)
        {
          if j == |mid| {
            assert r[i] == mid[i];
          } else {
            assert r[i] == mid[i] && r[j] == mid[j];
          }
        }
      }
    }
  }

  /** When every message of the batch is already stored, inserting it changes nothing. */
  lemma {:induction false} InsertAllPresent(rows: seq<MessageRow>, peer: string, batch: seq<MessageInfo>)
    requires forall k :: 0 <= k < |batch| ==> HasMessage(rows, peer, batch[k].msgId)
    ensures InsertAll(rows, peer, batch) == rows
    decreases |batch|
  {
    if batch != [] {
      var front := batch[..|batch| - 1];
      forall k | 0 <= k < |front| ensures HasMessage(rows, peer, front[k].msgId) {
        assert front[k] == batch[k];
      }
      InsertAllPresent(rows, peer, front);
    }
  }

  /** Saving the same batch a second time changes nothing. */
  lemma InsertAllIdempotent(rows: seq<MessageRow>, peer: string, batch: seq<MessageInfo>)
    ensures InsertAll(InsertAll(rows, peer, batch), peer, batch) == InsertAll(rows, peer, batch)
  {
    InsertAllFacts(rows, peer, batch);
    InsertAllPresent(InsertAll(rows, peer, batch), peer, batch);
  }

  /** One `UPDATE ... SET urgent = 1 WHERE chat_peer = ? AND msg_id = ?`. */
  function MarkOne(rows: seq<MessageRow>, peer: string, id: int): seq<MessageRow> {
    seq(|rows|, i requires 0 <= i < |rows| =>
      if rows[i].chatPeer == peer && rows[i].msgId == id then rows[i].(urgent := true) else rows[i])
  }

  /** `mark_urgent`: one update per id, in order. */
  function MarkAll(rows: seq<MessageRow>, peer: string, ids: seq<int>): seq<MessageRow>
    decreases |ids|
  {
    if ids == [] then rows else MarkOne(MarkAll(rows, peer, ids[..|ids| - 1]), peer, ids[|ids| - 1])
  }

  /** A row is urgent after `mark_urgent` exactly when it was before or it belongs to the
      chat and its id is one of those given; nothing else about any row changes. */
  lemma {:induction false} MarkAllMeaning(rows: seq<MessageRow>, peer: string, ids: seq<int>)
    ensures |MarkAll(rows, peer, ids)| == |rows|
    ensures forall i :: 0 <= i < |rows| ==>
              MarkAll(rows, peer, ids)[i]
                == rows[i].(urgent := rows[i].urgent || (rows[i].chatPeer == peer && rows[i].msgId in ids))
    decreases |ids|
  {
    if ids != [] {
      var front := ids[..|ids| - 1];
      MarkAllMeaning(rows, peer, front);
      assert forall x :: x in ids <==> x in front || x == ids[|ids| - 1] by {
        assert ids == front + [ids[|ids| - 1]];
      }
    }
  }

  /** Urgent flags never revert, keys stay as they were, and marking the same ids again
      changes nothing. */
  lemma MarkAllMonotoneIdempotent(rows: seq<MessageRow>, peer: string, ids: seq<int>)
    ensures var r := MarkAll(rows, peer, ids);
            && |r| == |rows|
            && (forall i :: 0 <= i < |rows| ==> rows[i].urgent ==> r[i].urgent)
            && (forall i :: 0 <= i < |rows| ==> r[i].chatPeer == rows[i].chatPeer && r[i].msgId == rows[i].msgId)
            && (UniqueMessages(rows) ==> UniqueMessages(r))
            && MarkAll(r, peer, ids) == r
  {
    var r := MarkAll(rows, peer, ids);
    MarkAllMeaning(rows, peer, ids);
    MarkAllMeaning(r, peer, ids);
  }

  // ---------------------------------------------------------------------------------
  // users and chat_members

  /** PRIMARY KEY (chat_peer, user_id). */
  ghost predicate UniqueMembers(rows: seq<MemberRow>) {
    forall i, j :: 0 <= i < j < |rows| ==> !(rows[i].chatPeer == rows[j].chatPeer && rows[i].userId == rows[j].userId)
  }

  /** The rows whose key differs from (peer, userId), in order. */
  function WithoutMember(rows: seq<MemberRow>, peer: string, userId: int): (r: seq<MemberRow>)
    ensures forall x :: x in r <==> x in rows && !(x.chatPeer == peer && x.userId == userId)
    decreases |rows|
  {
    if rows == [] then []
    else
      var front := WithoutMember(rows[..|rows| - 1], peer, userId);
      var last := rows[|rows| - 1];
      assert rows == rows[..|rows| - 1] + [last];
      if last.chatPeer == peer && last.userId == userId then front else front + [last]
  }

  /** `INSERT OR REPLACE`: the row holding the key is deleted and the new one appended. */
  function ReplaceMember(rows: seq<MemberRow>, m: MemberRow): seq<MemberRow> {
    WithoutMember(rows, m.chatPeer, m.userId) + [m]
  }

  lemma {:induction false} WithoutMemberUnique(rows: seq<MemberRow>, peer: string, userId: int)
    requires UniqueMembers(rows)
    ensures UniqueMembers(WithoutMember(rows, peer, userId))
    decreases |rows|
  {
    if rows != [] {
      var init := rows[..|rows| - 1];
      var last := rows[|rows| - 1];
      WithoutMemberUnique(init, peer, userId);
      var front := WithoutMember(init, peer, userId);
      if !(last.chatPeer == peer && last.userId == userId) {
        var r := front + [last];
        forall i, j | 0 <= i < j < |r|
          ensures !(r[i].chatPeer == r[j].chatPeer && r[i].userId == r[j].userId)
        {
          if j == |front| {
            assert r[i] in init;
            var k :| 0 <= k < |init| && init[k] == r[i];
            assert rows[k] == r[i];
          } else {
            assert r[i] == front[i] && r[j] == front[j];
          }
        }
      }
    }
  }

  /** After the replace the key is held by the new row alone, every row under another key
      survives, and the key stays unique. */
  lemma ReplaceMemberMeaning(rows: seq<MemberRow>, m: MemberRow)
    requires UniqueMembers(rows)
    ensures var r := ReplaceMember(rows, m);
            && UniqueMembers(r)
            && r[|r| - 1] == m
            && (forall x :: x in r <==> x == m || (x in rows && !(x.chatPeer == m.chatPeer && x.userId == m.userId)))
  {
    var front := WithoutMember(rows, m.chatPeer, m.userId);
    WithoutMemberUnique(rows, m.chatPeer, m.userId);
    var r := front + [m];
    forall i, j | 0 <= i < j < |r| ensures !(r[i].chatPeer == r[j].chatPeer && r[i].userId == r[j].userId) {
      if j == |front| {
        assert r[i] in front;
      } else {
        assert r[i] == front[i] && r[j] == front[j];
      }
    }
  }

  /** Names compared as SQLite's NOCASE collation does: ASCII letters folded, then
      character by character. */
  predicate LexLe(a: string, b: string)
    decreases |a|
  {
    a == [] || (b != [] && (a[0] < b[0] || (a[0] == b[0] && LexLe(a[1..], b[1..]))))
  }

  lemma LexLeTotal(a: string, b: string)
    ensures LexLe(a, b) || LexLe(b, a)
    decreases |a|
  {
  }

  lemma LexLeTrans(a: string, b: string, c: string)
    requires LexLe(a, b) && LexLe(b, c)
    ensures LexLe(a, c)
    decreases |a|
  {
  }

  predicate NameLe(x: Listing, y: Listing) {
    LexLe(Lower(x.name), Lower(y.name))
  }

  predicate SortedByName(s: seq<Listing>) {
    forall i, j :: 0 <= i < j < |s| ==> NameLe(s[i], s[j])
  }

  function InsertByName(x: Listing, s: seq<Listing>): (r: seq<Listing>)
    requires SortedByName(s)
    ensures SortedByName(r)
    ensures multiset(r) == multiset(s) + multiset{x}
    decreases |s|
  {
    if s == [] then [x]
    else if NameLe(x, s[0]) then
      NameFront(x, s);
      [x] + s
    else
      var rest := InsertByName(x, s[1..]);
      assert s == [s[0]] + s[1..];
      LexLeTotal(Lower(x.name), Lower(s[0].name));
      NameConsSorted(s[0], rest, x, s[1..]);
      [s[0]] + rest
  }

  lemma NameFront(x: Listing, s: seq<Listing>)
    requires SortedByName(s) && s != [] && NameLe(x, s[0])
    ensures SortedByName([x] + s)
  {
    var r := [x] + s;
    forall i, j | 0 <= i < j < |r| ensures NameLe(r[i], r[j]) {
      if i == 0 {
        if j > 1 {
          assert NameLe(s[0], s[j - 1]);
          LexLeTrans(Lower(x.name), Lower(s[0].name), Lower(s[j - 1].name));
        }
      } else {
        assert r[i] == s[i - 1] && r[j] == s[j - 1];
      }
    }
  }

  lemma NameConsSorted(head: Listing, rest: seq<Listing>, x: Listing, tail: seq<Listing>)
    requires SortedByName(rest)
    requires multiset(rest) == multiset(tail) + multiset{x}
    requires NameLe(head, x)
    requires forall y :: y in tail ==> NameLe(head, y)
    ensures SortedByName([head] + rest)
  {
    var r := [head] + rest;
    forall i, j | 0 <= i < j < |r| ensures NameLe(r[i], r[j]) {
      if i == 0 {
        assert r[j] == rest[j - 1];
        assert rest[j - 1] in multiset(rest);
      } else {
        assert r[i] == rest[i - 1] && r[j] == rest[j - 1];
      }
    }
  }

  /** `ORDER BY name COLLATE NOCASE`: a permutation of its input, ordered by folded name. */
  function SortByName(s: seq<Listing>): (r: seq<Listing>)
    ensures SortedByName(r)
    ensures multiset(r) == multiset(s)
    decreases |s|
  {
    if s == [] then []
    else
      assert s == [s[0]] + s[1..];
      InsertByName(s[0], SortByName(s[1..]))
  }

  /** The join of `chat_members` (for one chat) with `users`, in membership-row order. */
  function JoinMembers(users: map<int, UserRow>, rows: seq<MemberRow>, peer: string): (r: seq<Listing>)
    ensures forall x :: x in r <==>
              exists k :: 0 <= k < |rows| && rows[k].chatPeer == peer && rows[k].userId in users
                          && x == Listing(rows[k].userId, users[rows[k].userId].name,
                                          users[rows[k].userId].username, users[rows[k].userId].bio)
    decreases |rows|
  {
    if rows == [] then []
    else
      var init := rows[..|rows| - 1];
      var m := rows[|rows| - 1];
      var front := JoinMembers(users, init, peer);
      assert forall k :: 0 <= k < |init| ==> rows[k] == init[k];
      if m.chatPeer == peer && m.userId in users then
        front + [Listing(m.userId, users[m.userId].name, users[m.userId].username, users[m.userId].bio)]
      else front
  }

  /** The chat peers of the membership rows of one user, in row order. */
  function ChatsOfUser(rows: seq<MemberRow>, userId: int): (r: seq<string>)
    ensures forall p :: p in r <==> exists k :: 0 <= k < |rows| && rows[k].userId == userId && rows[k].chatPeer == p
    decreases |rows|
  {
    if rows == [] then []
    else
      var init := rows[..|rows| - 1];
      var m := rows[|rows| - 1];
      assert forall k :: 0 <= k < |init| ==> rows[k] == init[k];
      if m.userId == userId then ChatsOfUser(init, userId) + [m.chatPeer] else ChatsOfUser(init, userId)
  }

  // ---------------------------------------------------------------------------------
  // The store

  class Store {
    var chats: map<string, ChatRow>
    var messages: seq<MessageRow>
    var users: map<int, UserRow>
    var members: seq<MemberRow>

    /** The table keys are unique. */
    ghost predicate Valid()
      reads this
    {
      UniqueMessages(messages) && UniqueMembers(members)
    }

    /** `init_db` on a fresh file: every table empty. */
    constructor ()
      ensures Valid()
      ensures chats == map[] && messages == [] && users == map[] && members == []
    {
      chats := map[];
      messages := [];
      users := map[];
      members := [];
    }

    /** `save_chat`. */
    method SaveChat(chat: ChatInfo, fault: bool) returns (r: Result<()>)
      requires Valid()
      modifies this
      ensures Valid()
      ensures r.Ok? <==> !fault
      ensures chats == (if fault then old(chats) else UpsertChat(old(chats), chat))
      ensures messages == old(messages) && users == old(users) && members == old(members)
    {
      if fault {
        return Err(DbError);
      }
      chats := UpsertChat(chats, chat);
      r := Ok(());
    }

    /** `save_messages`: nothing for an empty batch; otherwise one transaction of
        insert-or-ignore statements, committed whole or (on a fault) not at all. */
    method SaveMessages(peer: string, batch: seq<MessageInfo>, fault: bool) returns (r: Result<()>)
      requires Valid()
      modifies this
      ensures Valid()
      ensures r.Err? <==> fault && batch != []
      ensures messages == (if r.Err? then old(messages) else InsertAll(old(messages), peer, batch))
      ensures old(messages) <= messages
      ensures chats == old(chats) && users == old(users) && members == old(members)
    {
      if batch == [] {
        return Ok(());
      }
      if fault {
        return Err(DbError);
      }
      var tx := messages;
      for k := 0 to |batch|
        invariant tx == InsertAll(messages, peer, batch[..k])
      {
        assert batch[..k + 1][..k] == batch[..k];
        if !HasMessage(tx, peer, batch[k].msgId) {
          tx := tx + [NewMessageRow(peer, batch[k])];
        }
      }
      assert batch[..|batch|] == batch;
      InsertAllFacts(messages, peer, batch);
      messages := tx;
      r := Ok(());
    }

    /** `update_chat_analysis`. */
    method UpdateChatAnalysis(peer: string, category: string, suggested: string, duplicate: bool, fault: bool)
        returns (r: Result<()>)
      requires Valid()
      modifies this
      ensures Valid()
      ensures r.Ok? <==> !fault
      ensures chats == (if fault then old(chats) else UpdateAnalysis(old(chats), peer, category, suggested, duplicate))
      ensures messages == old(messages) && users == old(users) && members == old(members)
    {
      if fault {
        return Err(DbError);
      }
      chats := UpdateAnalysis(chats, peer, category, suggested, duplicate);
      r := Ok(());
    }

    /** `mark_urgent`: nothing for an empty list; otherwise one transaction of updates. */
    method MarkUrgent(peer: string, ids: seq<int>, fault: bool) returns (r: Result<()>)
      requires Valid()
      modifies this
      ensures Valid()
      ensures r.Err? <==> fault && ids != []
      ensures messages == (if r.Err? then old(messages) else MarkAll(old(messages), peer, ids))
      ensures chats == old(chats) && users == old(users) && members == old(members)
    {
      if ids == [] {
        return Ok(());
      }
      if fault {
        return Err(DbError);
      }
      var tx := messages;
      for k := 0 to |ids|
        invariant tx == MarkAll(messages, peer, ids[..k])
      {
        assert ids[..k + 1][..k] == ids[..k];
        tx := MarkOne(tx, peer, ids[k]);
      }
      assert ids[..|ids|] == ids;
      MarkAllMonotoneIdempotent(messages, peer, ids);
      messages := tx;
      r := Ok(());
    }

    /** `save_member`: one transaction replacing the user row and the membership row;
        `now` is the clock reading stored as `joined_at`. */
    method SaveMember(peer: string, userId: int, name: string, username: Option<string>,
                      bio: Option<string>, lastSeen: int, now: int, fault: bool) returns (r: Result<()>)
      requires Valid()
      modifies this
      ensures Valid()
      ensures r.Ok? <==> !fault
      ensures users == (if fault then old(users) else old(users)[userId := UserRow(name, username, bio, lastSeen)])
      ensures members == (if fault then old(members) else ReplaceMember(old(members), MemberRow(peer, userId, now)))
      ensures chats == old(chats) && messages == old(messages)
    {
      if fault {
        return Err(DbError);
      }
      ReplaceMemberMeaning(members, MemberRow(peer, userId, now));
      users := users[userId := UserRow(name, username, bio, lastSeen)];
      members := ReplaceMember(members, MemberRow(peer, userId, now));
      r := Ok(());
    }

    /** `get_chat_members`: the users linked to the chat, ordered by name without regard
        to case. */
    function ChatMembers(peer: string, fault: bool): (r: Result<seq<Listing>>)
      reads this
      ensures r.Err? <==> fault
      ensures r.Ok? ==> SortedByName(r.value)
      ensures r.Ok? ==> forall x :: x in r.value <==>
                && x.userId in users
                && x == Listing(x.userId, users[x.userId].name, users[x.userId].username, users[x.userId].bio)
                && exists k :: 0 <= k < |members| && members[k].chatPeer == peer && members[k].userId == x.userId
    {
      if fault then Err(DbError)
      else
        var joined := JoinMembers(users, members, peer);
        var sorted := SortByName(joined);
        assert forall x :: x in sorted <==> x in multiset(sorted);
        assert forall x :: x in joined <==> x in multiset(joined);
        Ok(sorted)
    }

    /** `get_user_chats`: every chat the user is linked to. */
    function UserChats(userId: int, fault: bool): (r: Result<seq<string>>)
      reads this
      ensures r.Err? <==> fault
      ensures r.Ok? ==> forall p :: p in r.value <==>
                exists k :: 0 <= k < |members| && members[k].userId == userId && members[k].chatPeer == p
    {
      if fault then Err(DbError) else Ok(ChatsOfUser(members, userId))
    }
  }
}
