/** Ordering of messages by id: the stable `sort_by_key(|m| m.msg_id)` of the paginator and
    the `ORDER BY msg_id` of the store's queries, plus the reversal and windowing used when
    the newest rows are read back. */
module Sorting {
  import opened Common

  predicate SortedById(s: seq<MessageInfo>) {
    forall i, j :: 0 <= i < j < |s| ==> s[i].msgId <= s[j].msgId
  }

  /** Inserts `m` in front of the first message whose id is not smaller, so that among
      equal ids the inserted message comes first. */
  function InsertById(m: MessageInfo, s: seq<MessageInfo>): (r: seq<MessageInfo>)
    requires SortedById(s)
    ensures SortedById(r)
    ensures multiset(r) == multiset(s) + multiset{m}
    decreases |s|
  {
    if s == [] then [m]
    else if m.msgId <= s[0].msgId then [m] + s
    else
      var rest := InsertById(m, s[1..]);
      assert s == [s[0]] + s[1..];
      ConsSorted(s[0], rest, m, s[1..]);
      [s[0]] + rest
  }

  lemma ConsSorted(head: MessageInfo, rest: seq<MessageInfo>, m: MessageInfo, tail: seq<MessageInfo>)
    requires SortedById(rest)
    requires multiset(rest) == multiset(tail) + multiset{m}
    requires head.msgId < m.msgId
    requires forall x :: x in tail ==> head.msgId <= x.msgId
    ensures SortedById([head] + rest)
  {
    var r := [head] + rest;
    forall i, j | 0 <= i < j < |r| ensures r[i].msgId <= r[j].msgId {
      if i == 0 {
        assert r[j] == rest[j - 1];
        assert rest[j - 1] in multiset(rest);
      } else {
        assert r[i] == rest[i - 1] && r[j] == rest[j - 1];
      }
    }
  }

  /** Inserting a message whose id is new keeps the ids pairwise distinct. */
  lemma {:induction false} InsertByIdDistinct(m: MessageInfo, s: seq<MessageInfo>)
    requires SortedById(s) && DistinctIds(s)
    requires forall x :: x in s ==> x.msgId != m.msgId
    ensures DistinctIds(InsertById(m, s))
    decreases |s|
  {
    if s != [] && m.msgId > s[0].msgId {
      var rest := InsertById(m, s[1..]);
      InsertByIdDistinct(m, s[1..]);
      forall x | x in rest ensures x.msgId != s[0].msgId {
        assert x in multiset(rest);
        assert x == m || x in multiset(s[1..]);
      }
      assert InsertById(m, s) == [s[0]] + rest;
    }
  }

  /** Stable insertion sort by message id: a sorted permutation of its input. */
  function SortById(s: seq<MessageInfo>): (r: seq<MessageInfo>)
    ensures SortedById(r)
    ensures multiset(r) == multiset(s)
    decreases |s|
  {
    if s == [] then []
    else
      assert s == [s[0]] + s[1..];
      InsertById(s[0], SortById(s[1..]))
  }

  /** Sorting neither loses nor invents a message. */
  lemma SortByIdKeeps(s: seq<MessageInfo>)
    ensures |SortById(s)| == |s|
    ensures forall x :: x in SortById(s) <==> x in s
  {
    var r := SortById(s);
    assert |r| == |multiset(r)| == |multiset(s)| == |s|;
    forall x ensures x in r <==> x in s {
      assert x in r <==> x in multiset(r);
    }
  }

  /** Sorting neither loses nor invents a message, and keeps ids pairwise distinct. */
  lemma {:induction false} SortByIdDistinct(s: seq<MessageInfo>)
    requires DistinctIds(s)
    ensures |SortById(s)| == |s|
    ensures forall x :: x in SortById(s) <==> x in s
    ensures DistinctIds(SortById(s))
    decreases |s|
  {
    SortByIdKeeps(s);
    if s != [] {
      var t := SortById(s[1..]);
      SortByIdDistinct(s[1..]);
      TailIdsDiffer(s, t);
      InsertByIdDistinct(s[0], t);
    }
  }

  lemma TailIdsDiffer(s: seq<MessageInfo>, t: seq<MessageInfo>)
    requires s != [] && DistinctIds(s)
    requires forall x :: x in t <==> x in s[1..]
    ensures forall x :: x in t ==> x.msgId != s[0].msgId
  {
    forall x | x in t ensures x.msgId != s[0].msgId {
      var k :| 0 <= k < |s[1..]| && s[1..][k] == x;
      assert s[1 + k] == x;
    }
  }

  /** Sorted plus pairwise distinct ids is strictly increasing. */
  lemma SortedDistinctIncreasing(s: seq<MessageInfo>)
    requires SortedById(s) && DistinctIds(s)
    ensures StrictlyIncreasing(s)
  {
  }

  /** `s` back to front. */
  function Reverse<T>(s: seq<T>): (r: seq<T>)
    ensures |r| == |s|
    ensures forall i :: 0 <= i < |s| ==> r[i] == s[|s| - 1 - i]
    decreases |s|
  {
    if s == [] then [] else Reverse(s[1..]) + [s[0]]
  }

  function Min(a: nat, b: nat): nat {
    if a <= b then a else b
  }

  /** `LIMIT n`: the first `n` elements, or all of them. */
  function Take<T>(s: seq<T>, n: nat): (r: seq<T>)
    ensures |r| == Min(n, |s|)
  {
    s[..Min(n, |s|)]
  }

  /** The last `n` elements, or all of them. */
  function LastN<T>(s: seq<T>, n: nat): (r: seq<T>)
    ensures |r| == Min(n, |s|)
  {
    s[|s| - Min(n, |s|)..]
  }

  /** Reading the first `n` of the reversed sequence and reversing them back gives the
      last `n` of the original, in the original order. */
  lemma ReverseTakeReverse<T>(s: seq<T>, n: nat)
    ensures Reverse(Take(Reverse(s), n)) == LastN(s, n)
  {
    var k := Min(n, |s|);
    var r := Reverse(Take(Reverse(s), n));
    forall i | 0 <= i < k ensures r[i] == LastN(s, n)[i] {
      assert r[i] == Take(Reverse(s), n)[k - 1 - i];
      assert Reverse(s)[k - 1 - i] == s[|s| - 1 - (k - 1 - i)];
    }
  }

  /** In a sorted sequence the last `n` messages carry the highest ids: none of the
      messages before them has a larger id. */
  lemma LastNAreHighest(s: seq<MessageInfo>, n: nat)
    requires SortedById(s)
    ensures SortedById(LastN(s, n))
    ensures forall i, j :: 0 <= i < |s| - Min(n, |s|) && 0 <= j < Min(n, |s|) ==>
              s[i].msgId <= LastN(s, n)[j].msgId
  {
    var k := |s| - Min(n, |s|);
    forall i, j | 0 <= i < k && 0 <= j < Min(n, |s|)
      ensures s[i].msgId <= LastN(s, n)[j].msgId
    {
      assert LastN(s, n)[j] == s[k + j];
    }
  }
}
