/** The history paginator `fetch_new_messages`: pages of at most 100 raw items are requested
    inside the exclusive window (min_id, max_id), newest first, and max_id is lowered to the
    smallest id gathered so far until a short or empty page, or an error, ends the walk. */
module Paginator {
  import opened Common
  import opened Strings
  import opened Sorting

  /** One raw item of a history page; only real messages are converted. */
  datatype RawMessage = Msg(info: MessageInfo) | Service(serviceId: int) | Empty(emptyId: int)

  /** A history reply: the items of a page, or "not modified" (which carries none). */
  datatype HistoryReply = Messages(items: seq<RawMessage>) | NotModified

  /** The server, as seen by one paginator run: the answer to `GetHistory` for a given
      (min_id, max_id) pair; max_id 0 means no upper bound. */
  type Remote = (int, int) -> Result<HistoryReply>

  /** The `limit` of every request; a page this long may have more behind it. */
  const PageLimit := 100

  function PageItems(reply: HistoryReply): seq<RawMessage> {
    match reply
    case Messages(items) => items
    case NotModified => []
  }

  /** The real messages of a page, in page order. */
  function Convert(items: seq<RawMessage>): (r: seq<MessageInfo>)
    ensures |r| <= |items|
    ensures forall m :: m in r <==> Msg(m) in items
    decreases |items|
  {
    if items == [] then []
    else
      var front := items[..|items| - 1];
      var last := items[|items| - 1];
      assert items == front + [last];
      if last.Msg? then Convert(front) + [last.info] else Convert(front)
  }

  /** `min()` of the gathered ids. */
  function MinMsgId(s: seq<MessageInfo>): (m: int)
    requires s != []
    ensures forall x :: x in s ==> m <= x.msgId
    ensures exists x :: x in s && x.msgId == m
    decreases |s|
  {
    if |s| == 1 then s[0].msgId
    else
      var t := MinMsgId(s[1..]);
      assert forall x :: x in s[1..] ==> x in s;
      if s[0].msgId <= t then s[0].msgId else t
  }

  /** The max_id of the next request: the smallest gathered id, or 0 (`unwrap_or(0)`). */
  function NextMaxId(acc: seq<MessageInfo>): int {
    if acc == [] then 0 else MinMsgId(acc)
  }

  /** The min_id of every request: the checkpoint when it is positive, else 0. */
  function FirstMinId(lastSeen: Option<int>): nat {
    var lastId := lastSeen.GetOr(0);
    if lastId > 0 then lastId else 0
  }

  /** The error codes that mean the chat is gone or inaccessible. */
  const InvalidPeerMarkers: seq<string> := ["peer_id_invalid", "chat_id_invalid", "channel_invalid"]

  /** The error text, in any case, mentions one of the invalid-peer codes. */
  predicate IsInvalidPeer(e: string) {
    exists k :: 0 <= k < |InvalidPeerMarkers| && Contains(Lower(e), InvalidPeerMarkers[k])
  }

  /** Every gathered id lies above min_id. */
  predicate Inside(acc: seq<MessageInfo>, minId: int) {
    forall x :: x in acc ==> minId < x.msgId
  }

  /** A page that honours its window: every message lies strictly inside it, no id occurs
      twice, and a full page holds at least one real message. */
  ghost predicate PageHonours(items: seq<RawMessage>, minId: int, maxId: int) {
    && (forall m :: Msg(m) in items ==> minId < m.msgId && (maxId == 0 || m.msgId < maxId))
    && DistinctIds(Convert(items))
    && (|items| >= PageLimit ==> Convert(items) != [])
  }

  /** The server honours the bounds of every request with this min_id. */
  ghost predicate WellBehaved(remote: Remote, minId: int) {
    forall maxId :: remote(minId, maxId).Ok? && remote(minId, maxId).value.Messages? ==>
      PageHonours(remote(minId, maxId).value.items, minId, maxId)
  }

  /** What one request does to the run: stop with a result, or carry on with more gathered. */
  datatype Step = Finished(found: seq<MessageInfo>) | Continue(next: seq<MessageInfo>)

  function StepFrom(remote: Remote, minId: int, acc: seq<MessageInfo>): Step {
    var reply := remote(minId, NextMaxId(acc));
    if reply.Err? then
      if IsInvalidPeer(reply.error) then Finished([]) else Finished(acc)
    else
      var items := PageItems(reply.value);
      if items == [] then Finished(acc)
      else if |items| < PageLimit then Finished(acc + Convert(items))
      else Continue(acc + Convert(items))
  }

  lemma {:induction false} ConvertNoMessages(items: seq<RawMessage>)
    requires forall k :: 0 <= k < |items| ==> !items[k].Msg?
    ensures Convert(items) == []
    decreases |items|
  {
    if items != [] {
      ConvertNoMessages(items[..|items| - 1]);
    }
  }

  /** A full page made only of service or empty items leaves the gathered messages, and so
      the next max_id, as they were: without the server's help the run repeats the same
      request forever. */
  lemma ServicePageRepeats(remote: Remote, minId: int, acc: seq<MessageInfo>)
    requires remote(minId, NextMaxId(acc)).Ok?
    requires |PageItems(remote(minId, NextMaxId(acc)).value)| >= PageLimit
    requires forall k :: 0 <= k < |PageItems(remote(minId, NextMaxId(acc)).value)| ==>
               !PageItems(remote(minId, NextMaxId(acc)).value)[k].Msg?
    ensures StepFrom(remote, minId, acc) == Continue(acc)
    ensures !WellBehaved(remote, minId)
  {
    ConvertNoMessages(PageItems(remote(minId, NextMaxId(acc)).value));
    assert acc + [] == acc;
  }

  /** The id every raw history item carries, service and empty items included. */
  function ItemId(it: RawMessage): int {
    match it
    case Msg(m) => m.msgId
    case Service(id) => id
    case Empty(id) => id
  }

  /** The smallest id among a page's raw items. */
  function PageMinId(items: seq<RawMessage>): (m: int)
    requires items != []
    ensures forall k :: 0 <= k < |items| ==> m <= ItemId(items[k])
    ensures exists k :: 0 <= k < |items| && ItemId(items[k]) == m
    decreases |items|
  {
    if |items| == 1 then ItemId(items[0])
    else
      var t := PageMinId(items[1..]);
      assert forall k :: 1 <= k < |items| ==> items[k] == items[1..][k - 1];
      if ItemId(items[0]) <= t then ItemId(items[0]) else t
  }

  /** Every raw item of the page, whatever its kind, lies strictly inside the window. */
  ghost predicate ItemsInside(items: seq<RawMessage>, minId: int, maxId: int) {
    forall k :: 0 <= k < |items| ==> minId < ItemId(items[k]) && (maxId == 0 || ItemId(items[k]) < maxId)
  }

  /** The evidently intended next max_id after a full page: the smallest id of the page's
      items, so that service items also move the window. */
  function CorrectedNextMaxId(items: seq<RawMessage>): int
    requires items != []
  {
    PageMinId(items)
  }

  /** On a full page of service items alone, the code as written asks for the same window
      again, while the corrected bound moves strictly below the old one and stays above
      min_id. */
  lemma CorrectedServicePageMoves(acc: seq<MessageInfo>, items: seq<RawMessage>, minId: int)
    requires |items| >= PageLimit && ItemsInside(items, minId, NextMaxId(acc))
    requires forall k :: 0 <= k < |items| ==> !items[k].Msg?
    ensures NextMaxId(acc + Convert(items)) == NextMaxId(acc)
    ensures minId < CorrectedNextMaxId(items)
    ensures NextMaxId(acc) == 0 || CorrectedNextMaxId(items) < NextMaxId(acc)
  {
    ConvertNoMessages(items);
    assert acc + [] == acc;
  }

  /** A step that carries on has gathered something new, stays inside the window, keeps ids
      distinct, and lowers the next max_id. */
  lemma StepProgress(remote: Remote, minId: int, acc: seq<MessageInfo>)
    requires WellBehaved(remote, minId)
    requires 0 <= minId && Inside(acc, minId) && DistinctIds(acc)
    requires StepFrom(remote, minId, acc).Continue?
    ensures var next := StepFrom(remote, minId, acc).next;
            && next != [] && Inside(next, minId) && DistinctIds(next)
            && (acc != [] ==> MinMsgId(next) < MinMsgId(acc))
            && acc <= next
  {
    var maxId := NextMaxId(acc);
    var items := PageItems(remote(minId, maxId).value);
    var page := Convert(items);
    var next := acc + page;
    assert PageHonours(items, minId, maxId);
    forall x | x in page ensures minId < x.msgId && (acc != [] ==> x.msgId < MinMsgId(acc)) {
      assert Msg(x) in items;
    }
    forall i, j | 0 <= i < j < |next| ensures next[i].msgId != next[j].msgId {
      if j < |acc| {
        assert next[i] == acc[i] && next[j] == acc[j];
      } else if i >= |acc| {
        assert next[i] == page[i - |acc|] && next[j] == page[j - |acc|];
      } else {
        assert next[i] == acc[i] && next[j] == page[j - |acc|];
        assert next[i] in acc && next[j] in page;
      }
    }
    if acc != [] {
      var y := page[0];
      assert y in next;
    }
  }

  /** The measure the walk decreases: first the empty start, then the gap between the
      smallest gathered id and min_id. */
  function Gap(acc: seq<MessageInfo>, minId: int): int {
    if acc == [] then 0 else MinMsgId(acc) - minId
  }

  /** The outcome of a whole run: the gathered messages (unsorted) and the max_id of each
      request sent, in order. */
  datatype WalkResult = WalkResult(found: seq<MessageInfo>, requests: seq<int>)

  function Walk(remote: Remote, minId: int, acc: seq<MessageInfo>): (w: WalkResult)
    requires WellBehaved(remote, minId)
    requires 0 <= minId && Inside(acc, minId) && DistinctIds(acc)
    decreases (if acc == [] then 1 else 0), Gap(acc, minId)
  {
    match StepFrom(remote, minId, acc)
    case Finished(found) => WalkResult(found, [NextMaxId(acc)])
    case Continue(next) =>
      StepProgress(remote, minId, acc);
      var rest := Walk(remote, minId, next);
      WalkResult(rest.found, [NextMaxId(acc)] + rest.requests)
  }

  /** Whatever the walk returns lies strictly above min_id, has distinct ids, and is either
      empty (an invalid-peer error) or extends what had been gathered. */
  lemma {:induction false} WalkFound(remote: Remote, minId: int, acc: seq<MessageInfo>)
    requires WellBehaved(remote, minId)
    requires 0 <= minId && Inside(acc, minId) && DistinctIds(acc)
    ensures var w := Walk(remote, minId, acc);
            Inside(w.found, minId) && DistinctIds(w.found) && (w.found == [] || acc <= w.found)
    decreases (if acc == [] then 1 else 0), Gap(acc, minId)
  {
    match StepFrom(remote, minId, acc)
    case Finished(found) =>
      if found != [] && found != acc {
        var maxId := NextMaxId(acc);
        var items := PageItems(remote(minId, maxId).value);
        assert found == acc + Convert(items);
        assert PageHonours(items, minId, maxId);
        assert StepFrom(remote, minId, acc) == Continue(found) || |items| < PageLimit;
        StepProgressShort(remote, minId, acc);
      }
    case Continue(next) =>
      StepProgress(remote, minId, acc);
      WalkFound(remote, minId, next);
  }

  /** The last, short page obeys the same rules as a full one. */
  lemma StepProgressShort(remote: Remote, minId: int, acc: seq<MessageInfo>)
    requires WellBehaved(remote, minId)
    requires 0 <= minId && Inside(acc, minId) && DistinctIds(acc)
    requires remote(minId, NextMaxId(acc)).Ok?
    ensures var found := acc + Convert(PageItems(remote(minId, NextMaxId(acc)).value));
            Inside(found, minId) && DistinctIds(found)
  {
    var maxId := NextMaxId(acc);
    var items := PageItems(remote(minId, maxId).value);
    var page := Convert(items);
    var next := acc + page;
    assert PageHonours(items, minId, maxId);
    forall x | x in page ensures minId < x.msgId && (acc != [] ==> x.msgId < MinMsgId(acc)) {
      assert Msg(x) in items;
    }
    forall i, j | 0 <= i < j < |next| ensures next[i].msgId != next[j].msgId {
      if j < |acc| {
        assert next[i] == acc[i] && next[j] == acc[j];
      } else if i >= |acc| {
        assert next[i] == page[i - |acc|] && next[j] == page[j - |acc|];
      } else {
        assert next[i] == acc[i] && next[j] == page[j - |acc|];
        assert next[i] in acc && next[j] in page;
      }
    }
  }

  /** Every bound after the first lies above min_id, and each is below the one before. */
  predicate Shrinking(q: seq<int>, minId: int) {
    && (forall k :: 1 <= k < |q| ==> minId < q[k])
    && (forall k :: 1 <= k < |q| - 1 ==> q[k + 1] < q[k])
  }

  lemma ShrinkingCons(first: int, rest: seq<int>, minId: int)
    requires |rest| >= 1 && minId < rest[0] && Shrinking(rest, minId)
    requires |rest| > 1 ==> rest[1] < rest[0]
    ensures Shrinking([first] + rest, minId)
  {
    var q := [first] + rest;
    forall k | 1 <= k < |q| ensures minId < q[k] {
      assert q[k] == rest[k - 1];
    }
    forall k | 1 <= k < |q| - 1 ensures q[k + 1] < q[k] {
      assert q[k] == rest[k - 1] && q[k + 1] == rest[k];
    }
  }

  /** The first request of a run uses max_id = NextMaxId(acc); every later one has a bound
      strictly above min_id and strictly below the bound before it, so the windows shrink. */
  lemma {:induction false} WalkRequests(remote: Remote, minId: int, acc: seq<MessageInfo>)
    requires WellBehaved(remote, minId)
    requires 0 <= minId && Inside(acc, minId) && DistinctIds(acc)
    ensures var q := Walk(remote, minId, acc).requests;
            && |q| >= 1 && q[0] == NextMaxId(acc)
            && Shrinking(q, minId)
            && (acc != [] && |q| > 1 ==> q[1] < q[0])
    decreases (if acc == [] then 1 else 0), Gap(acc, minId)
  {
    match StepFrom(remote, minId, acc)
    case Finished(found) =>
    case Continue(next) =>
      StepProgress(remote, minId, acc);
      WalkRequests(remote, minId, next);
      var rest := Walk(remote, minId, next).requests;
      assert rest[0] == MinMsgId(next);
      assert minId < rest[0];
      ShrinkingCons(NextMaxId(acc), rest, minId);
  }

  /** Every request but the last brings at least one new message, so a run that keeps what
      it gathered sends at most one request more than the messages it gathered. */
  lemma {:induction false} WalkRequestCount(remote: Remote, minId: int, acc: seq<MessageInfo>)
    requires WellBehaved(remote, minId)
    requires 0 <= minId && Inside(acc, minId) && DistinctIds(acc)
    ensures var w := Walk(remote, minId, acc);
            w.found == [] || |w.requests| <= |w.found| - |acc| + 1
    decreases (if acc == [] then 1 else 0), Gap(acc, minId)
  {
    match StepFrom(remote, minId, acc)
    case Finished(found) =>
    case Continue(next) =>
      StepProgress(remote, minId, acc);
      WalkRequestCount(remote, minId, next);
      WalkFound(remote, minId, next);
      assert |next| > |acc| by {
        if acc != [] {
          assert next != acc;
        }
      }
  }

  /** An invalid-peer error throws away every page gathered before it. */
  lemma InvalidPeerDiscards(remote: Remote, minId: int, acc: seq<MessageInfo>)
    requires WellBehaved(remote, minId)
    requires 0 <= minId && Inside(acc, minId) && DistinctIds(acc)
    requires remote(minId, NextMaxId(acc)).Err? && IsInvalidPeer(remote(minId, NextMaxId(acc)).error)
    ensures Walk(remote, minId, acc) == WalkResult([], [NextMaxId(acc)])
  {
  }

  /** Any other error keeps what had been gathered, and ends the run. */
  lemma OtherErrorKeeps(remote: Remote, minId: int, acc: seq<MessageInfo>)
    requires WellBehaved(remote, minId)
    requires 0 <= minId && Inside(acc, minId) && DistinctIds(acc)
    requires remote(minId, NextMaxId(acc)).Err? && !IsInvalidPeer(remote(minId, NextMaxId(acc)).error)
    ensures Walk(remote, minId, acc) == WalkResult(acc, [NextMaxId(acc)])
  {
  }

  /** One unfolding of the walk, with the request log split after its first entry. */
  lemma WalkAt(remote: Remote, minId: int, acc: seq<MessageInfo>)
    requires WellBehaved(remote, minId)
    requires 0 <= minId && Inside(acc, minId) && DistinctIds(acc)
    ensures StepFrom(remote, minId, acc).Finished? ==>
              Walk(remote, minId, acc) == WalkResult(StepFrom(remote, minId, acc).found, [NextMaxId(acc)])
    ensures StepFrom(remote, minId, acc).Continue? ==>
              var next := StepFrom(remote, minId, acc).next;
              && Inside(next, minId) && DistinctIds(next)
              && Walk(remote, minId, acc).found == Walk(remote, minId, next).found
              && Walk(remote, minId, acc).requests == [NextMaxId(acc)] + Walk(remote, minId, next).requests
  {
    if StepFrom(remote, minId, acc).Continue? {
      StepProgress(remote, minId, acc);
    }
  }

  lemma LogAppend(sent: seq<int>, maxId: int, rest: seq<int>)
    ensures sent + ([maxId] + rest) == (sent + [maxId]) + rest
  {
  }

  /** The conversion loop: every real message of the page, in page order, appended. */
  method AppendMessages(acc: seq<MessageInfo>, items: seq<RawMessage>) returns (r: seq<MessageInfo>)
    ensures r == acc + Convert(items)
  {
    r := acc;
    for k := 0 to |items|
      invariant r == acc + Convert(items[..k])
    {
      assert items[..k + 1] == items[..k] + [items[k]];
      if items[k].Msg? {
        r := r + [items[k].info];
      }
    }
    assert items[..|items|] == items;
  }

  /** `fetch_new_messages` as a value: the walk from nothing, sorted by id. */
  function FetchNew(remote: Remote, lastSeen: Option<int>): (r: seq<MessageInfo>)
    requires WellBehaved(remote, FirstMinId(lastSeen))
    ensures StrictlyIncreasing(r)
    ensures forall x :: x in r ==> x.msgId > FirstMinId(lastSeen)
    ensures lastSeen.Some? ==> forall x :: x in r ==> x.msgId > lastSeen.value
    ensures forall x :: x in r <==> x in Walk(remote, FirstMinId(lastSeen), []).found
  {
    var minId := FirstMinId(lastSeen);
    var found := Walk(remote, minId, []).found;
    WalkFound(remote, minId, []);
    SortByIdDistinct(found);
    SortedDistinctIncreasing(SortById(found));
    SortById(found)
  }

  /** Unless an invalid-peer error emptied the result, `fetch_new_messages` sends at most one
      request more than the messages it returns. */
  lemma FetchNewRequestBound(remote: Remote, lastSeen: Option<int>)
    requires WellBehaved(remote, FirstMinId(lastSeen))
    ensures var w := Walk(remote, FirstMinId(lastSeen), []);
            FetchNew(remote, lastSeen) == [] || |w.requests| <= |FetchNew(remote, lastSeen)| + 1
  {
    var w := Walk(remote, FirstMinId(lastSeen), []);
    WalkRequestCount(remote, FirstMinId(lastSeen), []);
    SortByIdKeeps(w.found);
  }

  /** `fetch_new_messages`: the paging loop over the server, followed by the sort. The
      ghost `requests` records the max_id of every request sent. */
  method FetchNewMessages(remote: Remote, lastSeen: Option<int>)
      returns (r: seq<MessageInfo>, ghost requests: seq<int>)
    requires WellBehaved(remote, FirstMinId(lastSeen))
    ensures r == FetchNew(remote, lastSeen)
    ensures requests == Walk(remote, FirstMinId(lastSeen), []).requests
  {
    var newMessages: seq<MessageInfo> := [];
    var lastId := lastSeen.GetOr(0);
    var minId := if lastId > 0 then lastId else 0;
    var maxId := 0;
    requests := [];
    ghost var whole := Walk(remote, minId, []);
    while true
      invariant 0 <= minId == FirstMinId(lastSeen)
      invariant Inside(newMessages, minId) && DistinctIds(newMessages)
      invariant maxId == NextMaxId(newMessages)
      invariant Walk(remote, minId, newMessages).found == whole.found
      invariant whole.requests == requests + Walk(remote, minId, newMessages).requests
      decreases (if newMessages == [] then 1 else 0), Gap(newMessages, minId)
    {
      ghost var sent := requests;
      requests := requests + [maxId];
      var step := RequestPage(remote, minId, newMessages, maxId);
      WalkAt(remote, minId, newMessages);
      if step.Finished? {
        r := SortById(step.found);
        return;
      }
      StepProgress(remote, minId, newMessages);
      LogAppend(sent, maxId, Walk(remote, minId, step.next).requests);
      newMessages := step.next;
      maxId := NextMaxId(newMessages);
    }
  }

  /** One pass of the loop body: the request for the window (min_id, max_id), then either
      the end of the run (an error, or an empty or short page) or the grown collection.
      An invalid-peer error discards everything gathered. */
  method RequestPage(remote: Remote, minId: int, acc: seq<MessageInfo>, maxId: int) returns (step: Step)
    requires maxId == NextMaxId(acc)
    ensures step == StepFrom(remote, minId, acc)
  {
    var reply := remote(minId, maxId);
    if reply.Err? {
      if IsInvalidPeer(reply.error) {
        return Finished([]);
      }
      return Finished(acc);
    }
    var items := match reply.value case Messages(items) => items case NotModified => [];
    if items == [] {
      return Finished(acc);
    }
    var next := AppendMessages(acc, items);
    if |items| < PageLimit {
      return Finished(next);
    }
    return Continue(next);
  }
}
