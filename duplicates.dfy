/** The duplicate-category resolver `mark_duplicates`. The categories produced by this
    cycle's analyses and the categories already stored are grouped by their lower-cased
    text; then, in one transaction, every duplicate flag is cleared and set again for the
    chats of the groups that hold more than one chat. */
module Duplicates {
  import opened Common
  import opened Strings
  import opened Database

  /** One (lower-cased category, peer id) pair fed into the grouping. */
  datatype Entry = Entry(key: string, peer: string)

  /** The pairs of this cycle's analyses, `(category, peer_id)`, keys lower-cased. */
  function FreshEntries(categories: seq<(string, string)>): set<Entry> {
    set k | 0 <= k < |categories| :: Entry(Lower(categories[k].0), categories[k].1)
  }

  /** The pairs read back by `SELECT category, peer_id FROM chats WHERE category IS NOT
      NULL`, restricted to the peers in `peers`. */
  function StoredEntries(chats: map<string, ChatRow>, peers: set<string>): set<Entry> {
    set p | p in peers && p in chats && chats[p].category.Some? :: Entry(Lower(chats[p].category.value), p)
  }

  /** Everything the grouping sees. */
  function Entries(categories: seq<(string, string)>, chats: map<string, ChatRow>): set<Entry> {
    FreshEntries(categories) + StoredEntries(chats, chats.Keys)
  }

  /** The chats that share a lower-cased category with some other chat. */
  function Duplicated(entries: set<Entry>): set<string> {
    set a, b | a in entries && b in entries && a.key == b.key && a.peer != b.peer :: a.peer
  }

  /** Every chat row with its duplicate flag set exactly for the peers in `flagged`. */
  function WithFlags(chats: map<string, ChatRow>, flagged: set<string>): map<string, ChatRow> {
    map p | p in chats :: chats[p].(duplicate := p in flagged)
  }

  /** The chat table after a committed resolution, with groups made of distinct chats. */
  function Resolve(chats: map<string, ChatRow>, categories: seq<(string, string)>): map<string, ChatRow> {
    WithFlags(chats, Duplicated(Entries(categories, chats)))
  }

  // ---------------------------------------------------------------------------------
  // The grouping map, `HashMap<String, _>` from lower-cased category to its chats

  function Keys(entries: set<Entry>): set<string> {
    set e | e in entries :: e.key
  }

  function Peers(entries: set<Entry>, key: string): set<string> {
    set e | e in entries && e.key == key :: e.peer
  }

  /** The grouping that the entries determine. */
  function GroupsOf(entries: set<Entry>): map<string, set<string>> {
    map key | key in Keys(entries) :: Peers(entries, key)
  }

  /** `cat_map.entry(key).or_default().push(peer)`. */
  function Add(groups: map<string, set<string>>, key: string, peer: string): map<string, set<string>> {
    groups[key := (if key in groups then groups[key] else {}) + {peer}]
  }

  /** Adding one pair to the grouping is grouping one more entry. */
  lemma GroupsAdd(entries: set<Entry>, e: Entry)
    ensures GroupsOf(entries + {e}) == Add(GroupsOf(entries), e.key, e.peer)
  {
    var a := GroupsOf(entries + {e});
    var b := Add(GroupsOf(entries), e.key, e.peer);
    assert Keys(entries + {e}) == Keys(entries) + {e.key};
    forall key | key in a ensures key in b && a[key] == b[key] {
      if key == e.key {
        assert Peers(entries + {e}, key) == Peers(entries, key) + {e.peer};
      } else {
        assert Peers(entries + {e}, key) == Peers(entries, key);
      }
    }
  }

  /** The peers of the groups among `keys` that hold more than one chat. */
  function FlaggedAmong(groups: map<string, set<string>>, keys: set<string>): set<string> {
    set key, p | key in keys && key in groups && |groups[key]| > 1 && p in groups[key] :: p
  }

  lemma FlaggedAmongAdd(groups: map<string, set<string>>, keys: set<string>, key: string)
    requires key in groups
    ensures FlaggedAmong(groups, keys + {key})
            == FlaggedAmong(groups, keys) + (if |groups[key]| > 1 then groups[key] else {})
  {
  }

  /** A set holding two different elements has more than one element. */
  lemma TwoMembers(s: set<string>, p: string, q: string)
    requires p in s && q in s && p != q
    ensures |s| > 1
  {
    assert {p, q} <= s;
    assert s == {p, q} + (s - {p, q});
    assert |{p, q}| == 2;
  }

  /** A set with more than one element holds one other than any given member. */
  lemma OtherMember(s: set<string>, p: string) returns (q: string)
    requires p in s && |s| > 1
    ensures q in s && q != p
  {
    assert s == (s - {p}) + {p};
    assert |s - {p}| >= 1;
    q :| q in s - {p};
  }

  /** Flagging the groups of more than one chat flags exactly the chats that share a
      category with another chat. */
  lemma FlaggedIsDuplicated(entries: set<Entry>)
    ensures FlaggedAmong(GroupsOf(entries), GroupsOf(entries).Keys) == Duplicated(entries)
  {
    var groups := GroupsOf(entries);
    forall p | p in FlaggedAmong(groups, groups.Keys) ensures p in Duplicated(entries) {
      var key :| key in groups && |groups[key]| > 1 && p in groups[key];
      var q := OtherMember(groups[key], p);
      var a :| a in entries && a.key == key && a.peer == p;
      var b :| b in entries && b.key == key && b.peer == q;
    }
    forall p | p in Duplicated(entries) ensures p in FlaggedAmong(groups, groups.Keys) {
      var a, b :| a in entries && b in entries && a.key == b.key && a.peer != b.peer && a.peer == p;
      assert a.key in Keys(entries);
      TwoMembers(groups[a.key], a.peer, b.peer);
    }
  }

  /** Setting one more flag. */
  lemma WithFlagsAdd(chats: map<string, ChatRow>, flagged: set<string>, p: string)
    ensures SetDuplicate(WithFlags(chats, flagged), p, true) == WithFlags(chats, flagged + {p})
  {
  }

  // ---------------------------------------------------------------------------------
  // The resolver

  /** The first loop: this cycle's pairs, drained into the grouping. */
  method GroupFresh(categories: seq<(string, string)>) returns (groups: map<string, set<string>>)
    ensures groups == GroupsOf(FreshEntries(categories))
  {
    groups := map[];
    assert FreshEntries(categories[..0]) == {};
    for k := 0 to |categories|
      invariant groups == GroupsOf(FreshEntries(categories[..k]))
    {
      var e := Entry(Lower(categories[k].0), categories[k].1);
      assert FreshEntries(categories[..k + 1]) == FreshEntries(categories[..k]) + {e} by {
        assert categories[..k + 1] == categories[..k] + [categories[k]];
      }
      GroupsAdd(FreshEntries(categories[..k]), e);
      groups := Add(groups, e.key, e.peer);
    }
    assert categories[..|categories|] == categories;
  }

  /** The second loop: the stored categories, row by row, added to the grouping. */
  method GroupStored(current: set<Entry>, chats: map<string, ChatRow>, groups0: map<string, set<string>>)
      returns (groups: map<string, set<string>>)
    requires groups0 == GroupsOf(current)
    ensures groups == GroupsOf(current + StoredEntries(chats, chats.Keys))
  {
    groups := groups0;
    var pending := chats.Keys;
    ghost var seen: set<string> := {};
    assert StoredEntries(chats, seen) == {};
    assert current + {} == current;
    while pending != {}
      invariant seen + pending == chats.Keys && seen !! pending
      invariant groups == GroupsOf(current + StoredEntries(chats, seen))
      decreases pending
    {
      var p :| p in pending;
      StoredStep(chats, seen, p);
      if chats[p].category.Some? {
        var e := Entry(Lower(chats[p].category.value), p);
        GroupsAdd(current + StoredEntries(chats, seen), e);
        assert current + StoredEntries(chats, seen) + {e} == current + StoredEntries(chats, seen + {p});
        groups := Add(groups, e.key, e.peer);
      } else {
        assert StoredEntries(chats, seen + {p}) == StoredEntries(chats, seen);
      }
      pending := pending - {p};
      seen := seen + {p};
    }
    assert seen == chats.Keys;
  }

  /** One more stored row read. */
  lemma StoredStep(chats: map<string, ChatRow>, seen: set<string>, p: string)
    requires p in chats
    ensures StoredEntries(chats, seen + {p})
            == StoredEntries(chats, seen)
               + (if chats[p].category.Some? then {Entry(Lower(chats[p].category.value), p)} else {})
  {
  }

  /** The transaction: clear every flag, then set it for each chat of every group that
      holds more than one chat. */
  method FlagGroups(chats: map<string, ChatRow>, groups: map<string, set<string>>)
      returns (tx: map<string, ChatRow>)
    ensures tx == WithFlags(chats, FlaggedAmong(groups, groups.Keys))
  {
    tx := ResetDuplicates(chats);
    var keys := groups.Keys;
    ghost var flagged: set<string> := {};
    while keys != {}
      invariant keys <= groups.Keys
      invariant flagged == FlaggedAmong(groups, groups.Keys - keys)
      invariant tx == WithFlags(chats, flagged)
      decreases keys
    {
      var key :| key in keys;
      FlaggedAmongAdd(groups, groups.Keys - keys, key);
      assert groups.Keys - (keys - {key}) == (groups.Keys - keys) + {key};
      if |groups[key]| > 1 {
        tx := FlagPeers(chats, flagged, tx, groups[key]);
        flagged := flagged + groups[key];
      }
      keys := keys - {key};
    }
  }

  /** The inner loop: `UPDATE chats SET duplicate = 1 WHERE peer_id = ?` for each chat of
      one group. */
  method FlagPeers(chats: map<string, ChatRow>, ghost flagged: set<string>, tx0: map<string, ChatRow>,
                   group: set<string>) returns (tx: map<string, ChatRow>)
    requires tx0 == WithFlags(chats, flagged)
    ensures tx == WithFlags(chats, flagged + group)
  {
    tx := tx0;
    var peers := group;
    while peers != {}
      invariant peers <= group
      invariant tx == WithFlags(chats, flagged + (group - peers))
      decreases peers
    {
      var p :| p in peers;
      WithFlagsAdd(chats, flagged + (group - peers), p);
      tx := SetDuplicate(tx, p, true);
      assert flagged + (group - peers) + {p} == flagged + (group - (peers - {p}));
      peers := peers - {p};
    }
    assert group - peers == group;
  }

  /** `mark_duplicates`: an empty list of this cycle's categories changes nothing;
      otherwise the list is drained and the flags are recomputed in one transaction,
      committed whole or, on a database fault, not at all. */
  method MarkDuplicates(store: Store, categories: seq<(string, string)>, fault: bool)
      returns (r: Result<()>, drained: seq<(string, string)>)
    requires store.Valid()
    modifies store
    ensures store.Valid()
    ensures drained == []
    ensures r.Err? <==> fault && categories != []
    ensures store.chats == (if r.Err? || categories == [] then old(store.chats) else Resolve(old(store.chats), categories))
    ensures store.messages == old(store.messages) && store.users == old(store.users)
    ensures store.members == old(store.members)
  {
    if categories == [] {
      return Ok(()), categories;
    }
    var groups := GroupFresh(categories);
    drained := [];
    if fault {
      return Err(DbError), drained;
    }
    groups := GroupStored(FreshEntries(categories), store.chats, groups);
    var tx := FlagGroups(store.chats, groups);
    FlaggedIsDuplicated(Entries(categories, store.chats));
    store.chats := tx;
    r := Ok(());
  }

  // ---------------------------------------------------------------------------------
  // Properties of the resolution

  /** Only the duplicate flags change, and a chat is flagged exactly when a different
      chat carries the same category up to case, fresh or stored. */
  lemma ResolveMeaning(chats: map<string, ChatRow>, categories: seq<(string, string)>, p: string)
    requires p in chats
    ensures var r := Resolve(chats, categories);
            && r.Keys == chats.Keys
            && r[p] == chats[p].(duplicate := r[p].duplicate)
            && (r[p].duplicate <==>
                  exists a, b :: a in Entries(categories, chats) && b in Entries(categories, chats)
                                 && a.peer == p && b.key == a.key && b.peer != p)
  {
    var e := Entries(categories, chats);
    if p in Duplicated(e) {
      var a, b :| a in e && b in e && a.key == b.key && a.peer != b.peer && a.peer == p;
    }
  }

  /** Two different chats analysed this cycle whose categories differ only in case are
      both flagged. */
  lemma SameCategoryFlagged(chats: map<string, ChatRow>, categories: seq<(string, string)>, i: nat, j: nat)
    requires i < |categories| && j < |categories|
    requires categories[i].1 != categories[j].1
    requires Lower(categories[i].0) == Lower(categories[j].0)
    requires categories[i].1 in chats && categories[j].1 in chats
    ensures Resolve(chats, categories)[categories[i].1].duplicate
    ensures Resolve(chats, categories)[categories[j].1].duplicate
  {
    var a := Entry(Lower(categories[i].0), categories[i].1);
    var b := Entry(Lower(categories[j].0), categories[j].1);
    assert a in FreshEntries(categories) && b in FreshEntries(categories);
    assert a.peer in Duplicated(Entries(categories, chats));
    assert b.peer in Duplicated(Entries(categories, chats));
  }

  /** A chat whose every category is carried by no other chat is not flagged, however
      often it appears. */
  lemma LoneChatNotFlagged(chats: map<string, ChatRow>, categories: seq<(string, string)>, p: string)
    requires p in chats
    requires forall a, b :: (a in Entries(categories, chats) && b in Entries(categories, chats)
                             && a.peer == p && b.key == a.key) ==> b.peer == p
    ensures !Resolve(chats, categories)[p].duplicate
  {
    ResolveMeaning(chats, categories, p);
  }

  /** Categories are compared without regard to case: changing the case of a fresh
      category changes no flag. */
  lemma ResolveIgnoresCase(chats: map<string, ChatRow>, categories: seq<(string, string)>, k: nat, c: string)
    requires k < |categories| && Lower(c) == Lower(categories[k].0)
    ensures Resolve(chats, categories[k := (c, categories[k].1)]) == Resolve(chats, categories)
  {
    var other := categories[k := (c, categories[k].1)];
    assert FreshEntries(other) == FreshEntries(categories) by {
      forall e | e in FreshEntries(other) ensures e in FreshEntries(categories) {
        var i :| 0 <= i < |other| && e == Entry(Lower(other[i].0), other[i].1);
        assert e == Entry(Lower(categories[i].0), categories[i].1);
      }
      forall e | e in FreshEntries(categories) ensures e in FreshEntries(other) {
        var i :| 0 <= i < |categories| && e == Entry(Lower(categories[i].0), categories[i].1);
        assert e == Entry(Lower(other[i].0), other[i].1);
      }
    }
  }

  /** Resolving again with the same fresh list gives the same flags: every flag is
      recomputed from the categories, which resolution does not touch. */
  lemma ResolveIdempotent(chats: map<string, ChatRow>, categories: seq<(string, string)>)
    ensures Resolve(Resolve(chats, categories), categories) == Resolve(chats, categories)
  {
    var r := Resolve(chats, categories);
    forall e | e in StoredEntries(r, r.Keys) ensures e in StoredEntries(chats, chats.Keys) {
      var p :| p in r.Keys && p in r && r[p].category.Some? && e == Entry(Lower(r[p].category.value), p);
      assert r[p].category == chats[p].category;
    }
    forall e | e in StoredEntries(chats, chats.Keys) ensures e in StoredEntries(r, r.Keys) {
      var p :| p in chats.Keys && p in chats && chats[p].category.Some? && e == Entry(Lower(chats[p].category.value), p);
      assert r[p].category == chats[p].category;
    }
    assert Entries(categories, r) == Entries(categories, chats);
  }

  // ---------------------------------------------------------------------------------
  // The resolver as written: groups hold entries, not chats

  /** How many of this cycle's pairs carry the key. */
  function FreshCount(categories: seq<(string, string)>, key: string): nat
    decreases |categories|
  {
    if categories == [] then 0
    else FreshCount(categories[..|categories| - 1], key)
         + (if Lower(categories[|categories| - 1].0) == key then 1 else 0)
  }

  /** The stored chats whose category has the key. */
  function StoredPeers(chats: map<string, ChatRow>, key: string): set<string> {
    set p | p in chats && chats[p].category.Some? && Lower(chats[p].category.value) == key
  }

  /** The chats flagged when a group's size is its number of entries: every fresh pair
      and every stored row counts, so one chat can count twice. */
  function EntryCountDuplicated(categories: seq<(string, string)>, chats: map<string, ChatRow>): set<string> {
    set e | e in Entries(categories, chats)
              && FreshCount(categories, e.key) + |StoredPeers(chats, e.key)| > 1 :: e.peer
  }

  /** The chat table after the resolver as written commits. */
  function ResolveByEntryCount(chats: map<string, ChatRow>, categories: seq<(string, string)>): map<string, ChatRow> {
    WithFlags(chats, EntryCountDuplicated(categories, chats))
  }

  lemma {:induction false} FreshCountPositive(categories: seq<(string, string)>, k: nat)
    requires k < |categories|
    ensures FreshCount(categories, Lower(categories[k].0)) >= 1
    decreases |categories|
  {
    if k < |categories| - 1 {
      FreshCountPositive(categories[..|categories| - 1], k);
    }
  }

  /** As written, every chat analysed this cycle whose category was also saved counts
      twice in its group and is flagged, even when no other chat shares the category. */
  lemma AnalysedChatFlaggedByEntryCount(chats: map<string, ChatRow>, categories: seq<(string, string)>, k: nat)
    requires k < |categories|
    requires categories[k].1 in chats && chats[categories[k].1].category == Some(categories[k].0)
    ensures ResolveByEntryCount(chats, categories)[categories[k].1].duplicate
  {
    var p := categories[k].1;
    var e := Entry(Lower(categories[k].0), p);
    FreshCountPositive(categories, k);
    assert p in StoredPeers(chats, e.key);
    assert |StoredPeers(chats, e.key)| >= 1;
    assert e in FreshEntries(categories);
    assert p in EntryCountDuplicated(categories, chats);
  }

  /** A lone group chat analysed this cycle as "News": the resolver as written flags it,
      the resolution by distinct chats does not. */
  lemma LoneChatFlaggedByEntryCount()
    ensures var chats := map["group:1" := ChatRow(Group, 1, "Rust", 0, Some("News"), Some("Rust"), false)];
            var categories := [("News", "group:1")];
            && ResolveByEntryCount(chats, categories)["group:1"].duplicate
            && !Resolve(chats, categories)["group:1"].duplicate
  {
    var chats := map["group:1" := ChatRow(Group, 1, "Rust", 0, Some("News"), Some("Rust"), false)];
    var categories := [("News", "group:1")];
    AnalysedChatFlaggedByEntryCount(chats, categories, 0);
    var e := Entry(Lower("News"), "group:1");
    assert FreshEntries(categories) == {e};
    assert StoredEntries(chats, chats.Keys) == {e};
    LoneChatNotFlagged(chats, categories, "group:1");
  }
}
