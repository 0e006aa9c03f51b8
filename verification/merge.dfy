/**
 * What `update`, `d | o` and `d |= o` leave behind when o is a dict: every
 * entry of o can be read back under its own key, and a key equal to no key
 * of o reads what it read before. The proofs rest on one observation: what
 * `$getitem` returns for k depends only on the entries whose keys equal k.
 */
module Merge {
  import opened Objects
  import opened Store
  import opened StoreLaws
  import opened Entries
  import opened Bulk
  import opened Lookup
  import opened Properties

  /** d and r hold the same entries, at the same positions, among those whose key equals k. */
  ghost predicate SameEqualEntries(p: Protocol, d: DictState, r: DictState, k: PyObject) {
    && (forall q :: Holds(d, q) && p.eq(k, ItemAt(d, q).key) ==> Holds(r, q) && ItemAt(r, q) == ItemAt(d, q))
    && (forall q :: Holds(r, q) && p.eq(k, ItemAt(r, q).key) ==> Holds(d, q) && ItemAt(d, q) == ItemAt(r, q))
  }

  /** No object key of d is a str instance. */
  ghost predicate NoStrInstances(p: Protocol, d: DictState) {
    forall q :: Holds(d, q) && ItemAt(d, q).key.Other? ==> p.strValue(ItemAt(d, q).key).None?
  }

  /** No key of pairs is a str instance. */
  ghost predicate NoStrInstanceKeys(p: Protocol, pairs: seq<(PyObject, PyObject)>) {
    forall m :: 0 <= m < |pairs| && pairs[m].0.Other? ==> p.strValue(pairs[m].0).None?
  }

  /** The keys of pairs are pairwise unequal. */
  ghost predicate KeysDistinct(p: Protocol, pairs: seq<(PyObject, PyObject)>) {
    forall a, b :: 0 <= a < b < |pairs| ==> !p.eq(pairs[a].0, pairs[b].0)
  }

  /** No key of pairs equals k. */
  ghost predicate EqualsNoKey(p: Protocol, k: PyObject, pairs: seq<(PyObject, PyObject)>) {
    forall m :: 0 <= m < |pairs| ==> !p.eq(k, pairs[m].0)
  }

  /** The chain search finds the same index when the entries equal to k agree. */
  lemma RankSame(p: Protocol, d: DictState, r: DictState, h: int, k: PyObject)
    requires SameEqualEntries(p, d, r, k)
    ensures Rank(p, r, h, k) == Rank(p, d, h, k)
  {
    var a := Rank(p, r, h, k);
    var b := Rank(p, d, h, k);
    if b != -1 {
      assert Holds(d, ObjPos(h, b)) && p.eq(k, ItemAt(d, ObjPos(h, b)).key);
      assert p.eq(k, ChainAt(r, h)[b].key);
    }
    if a != -1 {
      assert Holds(r, ObjPos(h, a)) && p.eq(k, ItemAt(r, ObjPos(h, a)).key);
      assert p.eq(k, ChainAt(d, h)[a].key);
    }
  }

  /** The hashed part of `$getitem` gives the same answer when the entries
   *  equal to k agree and the fast path has missed in both. */
  lemma HashLookupSame(p: Protocol, d: DictState, r: DictState, k: PyObject)
    requires StrHashIndexes(p, d) && StrHashIndexes(p, r) && Lawful(p) && StrInstancesExact(p)
    requires k.Other? ==> p.strValue(k).None?
    requires k.Str? ==> k.s !in d.strs && k.s !in r.strs
    requires k.Int? ==> k.i !in d.ints && k.i !in r.ints
    requires SameEqualEntries(p, d, r, k)
    ensures HashLookup(p, r, k) == HashLookup(p, d, k)
  {
    var h := p.hash(k);
    assert !(h in d.strHash && p.eq(k, Str(d.strHash[h])));
    assert !(h in r.strHash && p.eq(k, Str(r.strHash[h])));
    if p.eq(k, Int(h)) {
      if h in d.ints {
        assert p.eq(k, ItemAt(d, IntPos(h)).key);
        assert Holds(r, IntPos(h)) && ItemAt(r, IntPos(h)) == ItemAt(d, IntPos(h));
      }
      if h in r.ints {
        assert p.eq(k, ItemAt(r, IntPos(h)).key);
        assert Holds(d, IntPos(h));
      }
    }
    assert !(StrInstanceValue(p, k).Some? && StrInstanceValue(p, k).value in d.strs);
    assert !(StrInstanceValue(p, k).Some? && StrInstanceValue(p, k).value in r.strs);
    RankSame(p, d, r, h, k);
    var ix := Rank(p, d, h, k);
    if ix > -1 {
      assert p.eq(k, ItemAt(d, ObjPos(h, ix)).key);
      assert ItemAt(r, ObjPos(h, ix)) == ItemAt(d, ObjPos(h, ix));
    }
  }

  /** `$getitem` gives the same answer when the entries equal to k agree. */
  lemma GetItemSame(p: Protocol, d: DictState, r: DictState, k: PyObject)
    requires StrHashIndexes(p, d) && StrHashIndexes(p, r) && Lawful(p) && StrInstancesExact(p)
    requires k.Other? ==> p.strValue(k).None?
    requires SameEqualEntries(p, d, r, k)
    ensures GetItem(p, r, k) == GetItem(p, d, k)
  {
    match k
    case Str(s) =>
      assert Holds(d, StrPos(s)) ==> p.eq(k, ItemAt(d, StrPos(s)).key);
      assert Holds(r, StrPos(s)) ==> p.eq(k, ItemAt(r, StrPos(s)).key);
      if s !in d.strs {
        HashLookupSame(p, d, r, k);
      }
    case Int(n) =>
      assert Holds(d, IntPos(n)) ==> p.eq(k, ItemAt(d, IntPos(n)).key);
      assert Holds(r, IntPos(n)) ==> p.eq(k, ItemAt(r, IntPos(n)).key);
      if n !in d.ints {
        HashLookupSame(p, d, r, k);
      }
    case Other(_) =>
      HashLookupSame(p, d, r, k);
  }

  /** `$setitem` of k2 touches no entry whose key equals a key k that k2 does not equal. */
  lemma PutSameEqual(p: Protocol, d: DictState, k2: PyObject, v: PyObject, k: PyObject)
    requires StrHashIndexes(p, d) && Lawful(p) && !p.eq(k, k2)
    ensures SameEqualEntries(p, d, Put(p, d, k2, v, None), k)
  {
    var t := Locate(p, d, k2, None);
    var r := Put(p, d, k2, v, None);
    PutFrame(p, d, k2, v, None);
    var key := ItemAt(r, t.pos).key;
    assert Holds(d, t.pos) ==> key == ItemAt(d, t.pos).key;
    assert p.eq(k2, key);
    assert !p.eq(k, key);
  }

  /** `d[k2] = v` leaves `d[k]` as it was for every k not equal to k2. */
  lemma PutKeepsLookup(p: Protocol, d: DictState, k2: PyObject, v: PyObject, k: PyObject)
    requires Valid(p, d) && Lawful(p) && StrInstancesExact(p) && !p.eq(k, k2)
    requires k.Other? ==> p.strValue(k).None?
    ensures GetItem(p, Put(p, d, k2, v, None), k) == GetItem(p, d, k)
  {
    PutKeepsValid(p, d, k2, v, None);
    PutSameEqual(p, d, k2, v, k);
    GetItemSame(p, d, Put(p, d, k2, v, None), k);
  }

  /** The `$copy_dict` loop leaves `d[k]` as it was for a key equal to none of the copied keys. */
  lemma {:induction false} CopyFrames(p: Protocol, d: DictState, pairs: seq<(PyObject, PyObject)>, k: PyObject)
    requires Valid(p, d) && Lawful(p) && StrInstancesExact(p)
    requires k.Other? ==> p.strValue(k).None?
    requires EqualsNoKey(p, k, pairs)
    ensures GetItem(p, CopyLoop(p, d, pairs, None).state, k) == GetItem(p, d, k)
    decreases |pairs|
  {
    if pairs != [] {
      var d' := Put(p, d, pairs[0].0, pairs[0].1, None);
      PutKeepsValid(p, d, pairs[0].0, pairs[0].1, None);
      PutKeepsLookup(p, d, pairs[0].0, pairs[0].1, k);
      assert CopyLoop(p, d, pairs, None) == CopyLoop(p, d', pairs[1..], None);
      forall j | 0 <= j < |pairs[1..]| ensures !p.eq(k, pairs[1..][j].0) {
        assert pairs[1..][j] == pairs[j + 1];
      }
      CopyFrames(p, d', pairs[1..], k);
    }
  }

  /** After the `$copy_dict` loop over pairs with pairwise unequal keys, each
   *  copied key reads back the value copied with it. */
  lemma {:induction false} CopyGets(p: Protocol, d: DictState, pairs: seq<(PyObject, PyObject)>, j: nat)
    requires Valid(p, d) && Lawful(p) && StrInstancesExact(p) && j < |pairs|
    requires NoStrInstanceKeys(p, pairs) && KeysDistinct(p, pairs)
    ensures GetItem(p, CopyLoop(p, d, pairs, None).state, pairs[j].0) == Ok(pairs[j].1)
    decreases |pairs|
  {
    var d' := Put(p, d, pairs[0].0, pairs[0].1, None);
    PutKeepsValid(p, d, pairs[0].0, pairs[0].1, None);
    assert CopyLoop(p, d, pairs, None) == CopyLoop(p, d', pairs[1..], None);
    if j == 0 {
      GetAfterPut(p, d, pairs[0].0, pairs[0].1, None);
      forall m | 0 <= m < |pairs[1..]| ensures !p.eq(pairs[0].0, pairs[1..][m].0) {
        assert pairs[1..][m] == pairs[m + 1];
      }
      CopyFrames(p, d', pairs[1..], pairs[0].0);
    } else {
      forall m | 0 <= m < |pairs[1..]| && pairs[1..][m].0.Other?
        ensures p.strValue(pairs[1..][m].0).None?
      {
        assert pairs[1..][m] == pairs[m + 1];
      }
      forall a, b | 0 <= a < b < |pairs[1..]| ensures !p.eq(pairs[1..][a].0, pairs[1..][b].0) {
        assert pairs[1..][a] == pairs[a + 1] && pairs[1..][b] == pairs[b + 1];
      }
      CopyGets(p, d', pairs[1..], j - 1);
    }
  }

  /** `update` with a dict that is not the target: its `$copy_dict`, then one `$version` step. */
  lemma UpdateIsCopy(p: Protocol, d: DictState, pairs: seq<(PyObject, PyObject)>, k: PyObject)
    requires Valid(p, d)
    ensures Update(p, d, Copied(pairs, false), []).error.None?
    ensures GetItem(p, Update(p, d, Copied(pairs, false), []).state, k) == GetItem(p, CopyLoop(p, d, pairs, None).state, k)
  {
    var first := CopyLoop(p, d, pairs, None);
    assert KeywordPairs([]) == [];
    assert Update(p, d, Copied(pairs, false), []).state == first.state.(version := first.state.version + 1);
  }

  /** A listed entry of o is stored in o. */
  lemma ListedStored(p: Protocol, o: DictState, m: nat)
    requires RanksDistinct(o) && m < |Listing(o)|
    ensures exists q :: Holds(o, q) && ItemAt(o, q) == Listing(o)[m]
  {
    ListingIsListing(o);
    assert Listing(o)[m] in Listing(o);
  }

  /** Where a stored entry of o stands in its listing. */
  lemma ListedIndex(o: DictState, q: Pos) returns (j: nat)
    requires RanksDistinct(o) && Holds(o, q)
    ensures j < |Listing(o)| && Listing(o)[j] == ItemAt(o, q)
  {
    ListingIsListing(o);
    assert Stored(o, ItemAt(o, q));
    j :| 0 <= j < |Listing(o)| && Listing(o)[j] == ItemAt(o, q);
  }

  /** The pairs `to_list` gives for o: no str-instance object keys when o has none. */
  lemma ListedNoStrInstances(p: Protocol, o: DictState)
    requires RanksDistinct(o) && NoStrInstances(p, o)
    ensures NoStrInstanceKeys(p, PairsOf(Listing(o)))
  {
    forall m | 0 <= m < |Listing(o)| && Listing(o)[m].key.Other? ensures p.strValue(Listing(o)[m].key).None? {
      ListedStored(p, o, m);
    }
  }

  /** The pairs `to_list` gives for o: pairwise unequal keys when o's keys are unique. */
  lemma ListedDistinct(p: Protocol, o: DictState)
    requires RanksDistinct(o) && EqSymmetric(p) && UniqueKeys(p, o)
    ensures KeysDistinct(p, PairsOf(Listing(o)))
  {
    ListingIsListing(o);
    forall a, b | 0 <= a < b < |Listing(o)| ensures !p.eq(Listing(o)[a].key, Listing(o)[b].key) {
      ListedKeysDistinct(p, o, Listing(o), b, a);
    }
  }

  /** The pairs `to_list` gives for o: a key equal to none of o's keys equals none of them. */
  lemma ListedAbsent(p: Protocol, o: DictState, k: PyObject)
    requires RanksDistinct(o) && !KeyStored(p, o, k)
    ensures EqualsNoKey(p, k, PairsOf(Listing(o)))
  {
    forall m | 0 <= m < |Listing(o)| ensures !p.eq(k, Listing(o)[m].key) {
      ListedStored(p, o, m);
    }
  }

  /** Copying the listing of o, whose keys are unique and include no str
   *  instance, makes every entry of o read back its own value. */
  lemma CopyListedGets(p: Protocol, d: DictState, o: DictState, q: Pos)
    requires Valid(p, d) && Valid(p, o) && Lawful(p) && StrInstancesExact(p)
    requires UniqueKeys(p, o) && NoStrInstances(p, o) && Holds(o, q)
    ensures GetItem(p, CopyLoop(p, d, PairsOf(Listing(o)), None).state, ItemAt(o, q).key) == Ok(ItemAt(o, q).value)
  {
    var j := ListedIndex(o, q);
    ListedNoStrInstances(p, o);
    ListedDistinct(p, o);
    CopyGets(p, d, PairsOf(Listing(o)), j);
  }

  /** After `d.update(o)` for a dict o other than d, whose keys are unique and
   *  include no str instance, every entry of o reads back its own value. */
  lemma UpdateGets(p: Protocol, d: DictState, o: DictState, q: Pos)
    requires Valid(p, d) && Valid(p, o) && Lawful(p) && StrInstancesExact(p)
    requires UniqueKeys(p, o) && NoStrInstances(p, o) && Holds(o, q)
    ensures GetItem(p, Update(p, d, Copied(PairsOf(Listing(o)), false), []).state, ItemAt(o, q).key)
      == Ok(ItemAt(o, q).value)
  {
    CopyListedGets(p, d, o, q);
    UpdateIsCopy(p, d, PairsOf(Listing(o)), ItemAt(o, q).key);
  }

  /** Copying the listing of o leaves `d[k]` as it was for a key equal to no key of o. */
  lemma CopyListedFrames(p: Protocol, d: DictState, o: DictState, k: PyObject)
    requires Valid(p, d) && Valid(p, o) && Lawful(p) && StrInstancesExact(p)
    requires k.Other? ==> p.strValue(k).None?
    requires !KeyStored(p, o, k)
    ensures GetItem(p, CopyLoop(p, d, PairsOf(Listing(o)), None).state, k) == GetItem(p, d, k)
  {
    ListedAbsent(p, o, k);
    CopyFrames(p, d, PairsOf(Listing(o)), k);
  }

  /** After `d.update(o)` for a dict o other than d, a key equal to no key
   *  of o reads what it read before. */
  lemma UpdateFrames(p: Protocol, d: DictState, o: DictState, k: PyObject)
    requires Valid(p, d) && Valid(p, o) && Lawful(p) && StrInstancesExact(p)
    requires k.Other? ==> p.strValue(k).None?
    requires !KeyStored(p, o, k)
    ensures GetItem(p, Update(p, d, Copied(PairsOf(Listing(o)), false), []).state, k) == GetItem(p, d, k)
  {
    CopyListedFrames(p, d, o, k);
    UpdateIsCopy(p, d, PairsOf(Listing(o)), k);
  }

  /** `d | o`: an entry of d whose key equals no key of o reads back its own
   *  value, when d's keys are unique and include no str instance. */
  lemma OrKeepsLeft(p: Protocol, d: DictState, o: DictState, q: Pos)
    requires Valid(p, d) && Valid(p, o) && Lawful(p) && StrInstancesExact(p)
    requires UniqueKeys(p, d) && NoStrInstances(p, d) && Holds(d, q) && !KeyStored(p, o, ItemAt(d, q).key)
    ensures var copied := CopyLoop(p, Empty, PairsOf(Listing(d)), None).state;
      var merged := Update(p, copied, Copied(PairsOf(Listing(o)), false), []).state;
      GetItem(p, merged, ItemAt(d, q).key) == Ok(ItemAt(d, q).value)
  {
    var copied := CopyLoop(p, Empty, PairsOf(Listing(d)), None).state;
    var k := ItemAt(d, q).key;
    assert Valid(p, Empty);
    CopyListedGets(p, Empty, d, q);
    assert GetItem(p, copied, k) == Ok(ItemAt(d, q).value);
    assert k.Other? ==> p.strValue(k).None?;
    UpdateFrames(p, copied, o, k);
  }
}
