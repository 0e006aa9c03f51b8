/**
 * Properties that relate several operations: reading back what `$setitem`
 * stored, `pop` and `popitem` on the listing, `setdefault`, and
 * `d.update(d)`.
 */
module Properties {
  import opened Objects
  import opened Store
  import opened StoreLaws
  import opened Entries
  import opened Bulk
  import opened Lookup

  /** No two stored entries have equal keys. `$setitem` as written does not
   *  keep this: an int key and an equal object key (`1` and `True`) can
   *  live in two tiers at once (`SetItemKeepsEqualKeys`). */
  ghost predicate UniqueKeys(p: Protocol, d: DictState) {
    forall q1, q2 :: Holds(d, q1) && Holds(d, q2) && p.eq(ItemAt(d, q1).key, ItemAt(d, q2).key) ==> q1 == q2
  }

  lemma Distinct(p: Protocol, d: DictState, q1: Pos, q2: Pos)
    requires UniqueKeys(p, d) && Holds(d, q1) && Holds(d, q2) && q1 != q2
    ensures !p.eq(ItemAt(d, q1).key, ItemAt(d, q2).key)
  {
  }

  // ---------------------------------------------------------------------
  // Chain search

  lemma RankFromSameKeys(p: Protocol, c1: seq<Pair>, c2: seq<Pair>, k: PyObject, i: nat)
    requires |c1| == |c2| && i <= |c1|
    requires forall j :: 0 <= j < |c1| ==> c1[j].key == c2[j].key
    ensures RankFrom(p, c1, k, i) == RankFrom(p, c2, k, i)
    decreases |c1| - i
  {
    if i < |c1| {
      RankFromSameKeys(p, c1, c2, k, i + 1);
    }
  }

  lemma RankFromAppend(p: Protocol, c: seq<Pair>, x: Pair, k: PyObject, i: nat)
    requires i <= |c| && RankFrom(p, c, k, i) == -1 && p.eq(k, x.key)
    ensures RankFrom(p, c + [x], k, i) == |c|
    decreases |c| - i
  {
    if i < |c| {
      assert (c + [x])[i] == c[i];
      RankFromAppend(p, c, x, k, i + 1);
    }
  }

  // ---------------------------------------------------------------------
  // `$setitem` then `$getitem`

  /** `d[k] = v` followed by `d[k]` gives v back. An object key that is a str
   *  instance is excluded: `$setitem` does not consult the string table by
   *  value, so when `$str_hash` no longer points at the equal string the new
   *  value goes to a chain while `$getitem` still finds the string. */
  lemma GetAfterPut(p: Protocol, d: DictState, k: PyObject, v: PyObject, hash: Option<int>)
    requires Valid(p, d) && Lawful(p) && HintSound(p, d, k, hash)
    requires k.Other? ==> p.strValue(k).None?
    ensures GetItem(p, Put(p, d, k, v, hash), k) == Ok(v)
  {
    if k.Other? {
      var r := Put(p, d, k, v, hash);
      var t := Locate(p, d, k, hash);
      var h := p.hash(k);
      if t.present && t.pos.IntPos? {
        if h in r.strHash && p.eq(k, Str(r.strHash[h])) {
          assert false;
        }
      } else if t.present && t.pos.ObjPos? {
        var c := d.objects[h];
        RankFromSameKeys(p, c, r.objects[h], k, 0);
      } else if !t.present {
        var c := ChainAt(d, h);
        assert Rank(p, d, h, k) == -1;
        if h in d.objects {
          RankFromAppend(p, c, Pair(k, Slot(v, d.order)), k, 0);
        } else {
          assert r.objects[h] == [Pair(k, Slot(v, d.order))];
        }
      }
    }
  }

  // ---------------------------------------------------------------------
  // Equal keys in two tiers

  /** A key that `$setitem` finds nowhere, and that is no str instance,
   *  equals no stored key, provided a str or int key also misses the chain
   *  under its hash. */
  lemma LocateAbsentNotStored(p: Protocol, d: DictState, k: PyObject, hash: Option<int>)
    requires Valid(p, d) && Lawful(p) && StrInstancesExact(p) && HintSound(p, d, k, hash)
    requires k.Other? ==> p.strValue(k).None?
    requires !Locate(p, d, k, hash).present
    requires !k.Other? ==> Rank(p, d, p.hash(k), k) == -1
    ensures !KeyStored(p, d, k)
  {
    forall q | Holds(d, q) ensures !p.eq(k, ItemAt(d, q).key) {
      match q
      case IntPos(m) =>
      case StrPos(s) =>
      case ObjPos(h, i) =>
    }
  }

  /** `{True: 'a'}` under the object model in which `True` equals 1. */
  lemma TrueOnly()
    ensures var d1 := Put(WithTrue, Empty, Other(1), Str("a"), None);
      && d1 == DictState(map[], map[], map[], map[1 := [Pair(Other(1), Slot(Str("a"), 0))]], 1, 1)
      && Valid(WithTrue, d1) && UniqueKeys(WithTrue, d1)
  {
    TrueEntry(Str("a"));
    var d1 := DictState(map[], map[], map[], map[1 := [Pair(Other(1), Slot(Str("a"), 0))]], 1, 1);
    forall q1, q2 | Holds(d1, q1) && Holds(d1, q2) ensures q1 == q2 {
      assert q1 == ObjPos(1, 0) && q2 == ObjPos(1, 0);
    }
  }

  /** `d[1] = 'b'` on `{True: 'a'}`, as written. */
  lemma TrueThenOne()
    ensures var d1 := Put(WithTrue, Empty, Other(1), Str("a"), None);
      var d := Put(WithTrue, d1, Int(1), Str("b"), None);
      && d == DictState(map[1 := Slot(Str("b"), 1)], map[], map[], map[1 := [Pair(Other(1), Slot(Str("a"), 0))]], 2, 2)
      && Valid(WithTrue, d)
  {
    TrueOnly();
    var d1 := Put(WithTrue, Empty, Other(1), Str("a"), None);
    PutKeepsValid(WithTrue, d1, Int(1), Str("b"), None);
  }

  /** `d[1] = 'b'` on `{True: 'a'}` stores a second entry beside the first as
   *  written: the number fast path never looks at the chains. Python gives
   *  `{True: 'b'}`. */
  lemma SetItemKeepsEqualKeys()
    ensures var p := WithTrue;
      var d1 := Put(p, Empty, Other(1), Str("a"), None);
      var d := Put(p, d1, Int(1), Str("b"), None);
      && Valid(p, d1) && UniqueKeys(p, d1)
      && Valid(p, d) && !UniqueKeys(p, d) && Size(d) == 2
  {
    var p := WithTrue;
    TrueOnly();
    TrueThenOne();
    var d := DictState(map[1 := Slot(Str("b"), 1)], map[], map[], map[1 := [Pair(Other(1), Slot(Str("a"), 0))]], 2, 2);
    assert !UniqueKeys(p, d) by {
      assert Holds(d, IntPos(1)) && Holds(d, ObjPos(1, 0)) && p.eq(ItemAt(d, IntPos(1)).key, ItemAt(d, ObjPos(1, 0)).key);
    }
    OneChainSlot(d.objects);
  }

  lemma OneChainSlot(objects: map<int, seq<Pair>>)
    requires objects == map[1 := [Pair(Other(1), Slot(Str("a"), 0))]]
    ensures |ChainSlots(objects)| == 1
  {
    assert ChainSlots(objects) == {(1, 0)} by {
      forall x | x in ChainSlots(objects) ensures x == (1, 0) {
        InChainSlots(objects, x);
      }
      InChainSlots(objects, (1, 0));
    }
  }

  /** The corrected `$setitem` on the same input replaces the value of `True`. */
  lemma SetItemEqualKeyCorrected()
    ensures var p := WithTrue;
      var d1 := Put(p, Empty, Other(1), Str("a"), None);
      var e := PutEqual(p, d1, Int(1), Str("b"), None);
      && e == d1.(objects := map[1 := [Pair(Other(1), Slot(Str("b"), 0))]])
      && UniqueKeys(p, e) && GetItem(p, e, Int(1)) == Ok(Str("b"))
  {
    var p := WithTrue;
    TrueOnly();
    WithTrueLawful();
    var d1 := Put(p, Empty, Other(1), Str("a"), None);
    TrueThenOneCorrected(d1);
    PutEqualKeepsUnique(p, d1, Int(1), Str("b"), None);
    GetAfterPutEqual(p, d1, Int(1), Str("b"), None);
  }

  lemma TrueThenOneCorrected(d1: DictState)
    requires d1 == DictState(map[], map[], map[], map[1 := [Pair(Other(1), Slot(Str("a"), 0))]], 1, 1)
    ensures PutEqual(WithTrue, d1, Int(1), Str("b"), None) == d1.(objects := map[1 := [Pair(Other(1), Slot(Str("b"), 0))]])
  {
    var p := WithTrue;
    assert p.hash(Int(1)) == 1 && Rank(p, d1, 1, Int(1)) == 0;
    assert !Locate(p, d1, Int(1), None).present;
    assert d1.objects[1][0 := Pair(Other(1), Slot(Str("b"), 0))] == [Pair(Other(1), Slot(Str("b"), 0))];
  }

  /** The corrected `$setitem` keeps the invariant. */
  lemma PutEqualKeepsValid(p: Protocol, d: DictState, k: PyObject, v: PyObject, hash: Option<int>)
    requires Valid(p, d) && HintSound(p, d, k, hash)
    ensures Valid(p, PutEqual(p, d, k, v, hash))
  {
    var h := p.hash(k);
    var ix := Rank(p, d, h, k);
    if !k.Other? && !Locate(p, d, k, hash).present && ix > -1 {
      var r := PutEqual(p, d, k, v, hash);
      var c := d.objects[h];
      WriteFrame(d, ObjPos(h, ix), k, Slot(v, c[ix].slot.rank));
      SameTables(r, Write(d, ObjPos(h, ix), k, Slot(v, c[ix].slot.rank)));
      forall q | Holds(r, q) ensures ItemAt(r, q).rank == ItemAt(d, q).rank {
      }
      assert r.objects[h] == c[ix := Pair(c[ix].key, Slot(v, c[ix].slot.rank))];
    } else {
      PutKeepsValid(p, d, k, v, hash);
    }
  }

  /** The corrected `$setitem` keeps the keys of a dict pairwise unequal,
   *  for any key that is no str instance. */
  lemma PutEqualKeepsUnique(p: Protocol, d: DictState, k: PyObject, v: PyObject, hash: Option<int>)
    requires Valid(p, d) && Lawful(p) && StrInstancesExact(p) && HintSound(p, d, k, hash)
    requires k.Other? ==> p.strValue(k).None?
    requires UniqueKeys(p, d)
    ensures UniqueKeys(p, PutEqual(p, d, k, v, hash))
  {
    var h := p.hash(k);
    var ix := Rank(p, d, h, k);
    var t := Locate(p, d, k, hash);
    var r := PutEqual(p, d, k, v, hash);
    if !k.Other? && !t.present && ix > -1 {
      var c := d.objects[h];
      WriteFrame(d, ObjPos(h, ix), k, Slot(v, c[ix].slot.rank));
      SameTables(r, Write(d, ObjPos(h, ix), k, Slot(v, c[ix].slot.rank)));
      assert forall q :: Holds(r, q) ==> Holds(d, q) && ItemAt(r, q).key == ItemAt(d, q).key;
    } else if t.present {
      PutFrame(p, d, k, v, hash);
      assert forall q :: Holds(r, q) ==> Holds(d, q) && ItemAt(r, q).key == ItemAt(d, q).key;
    } else {
      PutFrame(p, d, k, v, hash);
      LocateAbsentNotStored(p, d, k, hash);
      forall q1, q2 | Holds(r, q1) && Holds(r, q2) && p.eq(ItemAt(r, q1).key, ItemAt(r, q2).key)
        ensures q1 == q2
      {
        if q1 != t.pos && q2 != t.pos {
          assert ItemAt(r, q1) == ItemAt(d, q1) && ItemAt(r, q2) == ItemAt(d, q2);
        }
      }
    }
  }

  /** `d[k] = v` with the corrected `$setitem`, then `d[k]`, gives v back. */
  lemma GetAfterPutEqual(p: Protocol, d: DictState, k: PyObject, v: PyObject, hash: Option<int>)
    requires Valid(p, d) && Lawful(p) && HintSound(p, d, k, hash)
    requires k.Other? ==> p.strValue(k).None?
    ensures GetItem(p, PutEqual(p, d, k, v, hash), k) == Ok(v)
  {
    var h := p.hash(k);
    var ix := Rank(p, d, h, k);
    if !k.Other? && !Locate(p, d, k, hash).present && ix > -1 {
      var r := PutEqual(p, d, k, v, hash);
      var c := d.objects[h];
      RankFromSameKeys(p, c, r.objects[h], k, 0);
      assert Rank(p, r, h, k) == ix;
    } else {
      GetAfterPut(p, d, k, v, hash);
    }
  }

  // ---------------------------------------------------------------------
  // `pop`

  /** `pop` of a stored key returns its value and removes exactly its entry. */
  lemma PopPresent(p: Protocol, d: DictState, q: Pos, default: Option<PyObject>)
    requires Valid(p, d) && Lawful(p) && StrInstancesExact(p) && UniqueKeys(p, d) && Holds(d, q)
    ensures var k := ItemAt(d, q).key;
      && Remove(p, d, k).Ok?
      && Pop(p, d, k, default) == Popped(Ok(ItemAt(d, q).value), Remove(p, d, k).value)
      && IsListing(Pop(p, d, k, default).state, Without(Listing(d), ItemAt(d, q)))
      && Size(Pop(p, d, k, default).state) == Size(d) - 1
  {
    var k := ItemAt(d, q).key;
    DelTargetOfStored(p, d, q);
    assert KeyStored(p, d, k);
    GetItemComplete(p, d, k);
    GetItemSound(p, d, k);
    ListingIsListing(d);
    RemoveListing(p, d, k, Listing(d));
    RemoveSize(p, d, k);
  }

  /** `pop` of a key equal to no stored key changes nothing: the default
   *  comes back, or KeyError is raised. */
  lemma PopAbsent(p: Protocol, d: DictState, k: PyObject, default: Option<PyObject>)
    requires StrHashIndexes(p, d) && EqReflexive(p) && StrInstancesExact(p) && !KeyStored(p, d, k)
    ensures Pop(p, d, k, default) ==
      if default.Some? then Popped(Ok(default.value), d) else Popped(Err(KeyError(k)), d)
  {
    assert GetItem(p, d, k).Err? by {
      if GetItem(p, d, k).Ok? {
        GetItemSound(p, d, k);
        assert false;
      }
    }
  }

  /** Without `StrInstancesExact`, `pop` of a key equal to no stored key can
   *  raise the `KeyError(str(key))` of `__delitem__`: `$getitem` reads a str
   *  instance by its string value, and `__delitem__` then searches its chain. */
  lemma PopStrInstanceMisses()
    ensures var d := Put(TaggedStr, Empty, Str("a"), Int(1), None);
      && !KeyStored(TaggedStr, d, Other(7))
      && Pop(TaggedStr, d, Other(7), None) == Popped(Err(KeyErrorOfStr(Other(7))), d)
  {
    GetItemStrInstanceUnsound();
    var d := Put(TaggedStr, Empty, Str("a"), Int(1), None);
    assert d.objects == map[];
    assert Rank(TaggedStr, d, TaggedStr.hash(Other(7)), Other(7)) == -1;
  }

  /** `pop` with the corrected `__delitem__`, of any key equal to a stored
   *  one: the value `d[key]` gives comes back and exactly that entry goes. */
  lemma PopEqualPresent(p: Protocol, d: DictState, q: Pos, k: PyObject, default: Option<PyObject>)
    requires Valid(p, d) && Lawful(p) && StrInstancesExact(p) && UniqueKeys(p, d)
    requires Holds(d, q) && p.eq(k, ItemAt(d, q).key)
    ensures DelTargetEqual(p, d, k) == Some(q)
    ensures PopEqual(p, d, k, default) == Popped(Ok(ItemAt(d, q).value), Delete(p, d, q))
    ensures IsListing(PopEqual(p, d, k, default).state, Without(Listing(d), ItemAt(d, q)))
    ensures Size(PopEqual(p, d, k, default).state) == Size(d) - 1
  {
    assert KeyStored(p, d, k);
    RemoveEqualExact(p, d, k);
    var q' := DelTargetEqual(p, d, k).value;
    assert p.eq(ItemAt(d, q').key, ItemAt(d, q).key);
    GetItemComplete(p, d, k);
    GetItemSound(p, d, k);
    var q'' :| Holds(d, q'') && p.eq(k, ItemAt(d, q'').key) && ItemAt(d, q'').value == GetItem(p, d, k).value;
    assert p.eq(ItemAt(d, q'').key, ItemAt(d, q).key);
    ListingIsListing(d);
    DeleteListing(p, d, q, Listing(d));
    DeleteSize(p, d, q);
  }

  /** On `{1: 'a'}`, `d[True]` is 'a' while `del d[True]` and `d.pop(True)`
   *  raise KeyError: the hashed path of `__delitem__` searches only the chain.
   *  The corrected `__delitem__` removes the int entry. */
  lemma DelMissesEqualKey()
    ensures var p := WithTrue;
      var d := Put(p, Empty, Int(1), Str("a"), None);
      && Valid(p, d)
      && GetItem(p, d, Other(1)) == Ok(Str("a"))
      && Remove(p, d, Other(1)) == Err(KeyErrorOfStr(Other(1)))
      && Pop(p, d, Other(1), None) == Popped(Err(KeyErrorOfStr(Other(1))), d)
      && PopEqual(p, d, Other(1), None) == Popped(Ok(Str("a")), Delete(p, d, IntPos(1)))
  {
    var p := WithTrue;
    var d := Put(p, Empty, Int(1), Str("a"), None);
    PutKeepsValid(p, Empty, Int(1), Str("a"), None);
    assert d.ints == map[1 := Slot(Str("a"), 0)];
    assert d.strs == map[] && d.strHash == map[] && d.objects == map[];
    assert p.hash(Other(1)) == 1;
    assert Rank(p, d, 1, Other(1)) == -1;
  }

  // ---------------------------------------------------------------------
  // `popitem`

  lemma {:induction false} WithoutAbsent(l: seq<Item>, x: Item)
    requires x !in l
    ensures Without(l, x) == l
  {
    if l != [] {
      WithoutAbsent(l[1..], x);
      assert l == [l[0]] + l[1..];
    }
  }

  lemma WithoutHead(l: seq<Item>)
    requires StrictlyRanked(l) && l != []
    ensures Without(l, l[0]) == l[1..]
  {
    assert l[0] !in l[1..] by {
      forall j | 0 <= j < |l[1..]| ensures l[1..][j] != l[0] {
        assert l[1..][j] == l[j + 1];
      }
    }
    WithoutAbsent(l[1..], l[0]);
  }

  /** `popitem` returns and removes the entry of lowest rank, the oldest one;
   *  what is left is listed in the same order. */
  lemma PopItemOldest(p: Protocol, d: DictState)
    requires Valid(p, d) && EqReflexive(p) && Listing(d) != []
    ensures var l := Listing(d);
      && Remove(p, d, l[0].key).Ok?
      && PopItem(p, d) == Popped(Ok(Some((l[0].key, l[0].value))), Remove(p, d, l[0].key).value)
      && IsListing(PopItem(p, d).state, l[1..])
      && Size(PopItem(p, d).state) == Size(d) - 1
  {
    var l := Listing(d);
    ListingIsListing(d);
    assert l[0] in l;
    var q :| Holds(d, q) && ItemAt(d, q) == l[0];
    DelTargetOfStored(p, d, q);
    RemoveListing(p, d, l[0].key, l);
    WithoutHead(l);
    RemoveSize(p, d, l[0].key);
  }

  // ---------------------------------------------------------------------
  // `setdefault`

  /** After `setdefault(k, default)`, `d[k]` is what it returned; a new key
   *  is appended to the listing. */
  lemma SetDefaultStores(p: Protocol, d: DictState, k: PyObject, default: PyObject)
    requires Valid(p, d) && Lawful(p)
    requires k.Other? ==> p.strValue(k).None?
    ensures GetItem(p, SetDefault(p, d, k, default).1, k) == Ok(SetDefault(p, d, k, default).0)
    ensures GetItem(p, d, k).Err? ==>
      && IsListing(SetDefault(p, d, k, default).1, Listing(d) + [Item(k, default, d.order)])
      && Size(SetDefault(p, d, k, default).1) == Size(d) + 1
  {
    if GetItem(p, d, k).Err? {
      GetAfterPut(p, d, k, default, None);
      var t := Locate(p, d, k, None);
      assert !t.present;
      ListingIsListing(d);
      PutListing(p, d, k, default, None, Listing(d));
      PutSize(p, d, k, default, None);
    }
  }

  // ---------------------------------------------------------------------
  // `d.update(d)`

  /** Storing a stored entry again changes nothing, not even `$version`. */
  lemma PutStoredIdentity(p: Protocol, d: DictState, q: Pos)
    requires Valid(p, d) && EqReflexive(p) && UniqueKeys(p, d) && Holds(d, q)
    ensures Put(p, d, ItemAt(d, q).key, ItemAt(d, q).value, None) == d
  {
    match q
    case IntPos(n) =>
      assert d.ints[n := d.ints[n]] == d.ints;
    case StrPos(s) =>
      assert d.strs[s := d.strs[s]] == d.strs;
    case ObjPos(h, i) =>
      var c := d.objects[h];
      var k := c[i].key;
      assert !(h in d.ints && p.eq(k, Int(h))) by {
        if h in d.ints {
          Distinct(p, d, q, IntPos(h));
        }
      }
      assert !(h in d.strHash && p.eq(k, Str(d.strHash[h]))) by {
        if h in d.strHash {
          Distinct(p, d, q, StrPos(d.strHash[h]));
        }
      }
      assert p.eq(k, c[i].key);
      assert Rank(p, d, h, k) == i;
      assert c[i := Pair(c[i].key, c[i].slot)] == c;
      assert d.objects[h := c] == d.objects;
  }

  lemma {:induction false} CopyStoredIdentity(p: Protocol, d: DictState, l: seq<Item>, w: nat)
    requires Valid(p, d) && EqReflexive(p) && UniqueKeys(p, d) && w == d.version
    requires forall x :: x in l ==> Stored(d, x)
    ensures CopyLoop(p, d, PairsOf(l), Some(w)) == Outcome(d, None)
    decreases |l|
  {
    if l != [] {
      assert Stored(d, l[0]);
      var q :| Holds(d, q) && ItemAt(d, q) == l[0];
      PutStoredIdentity(p, d, q);
      assert PairsOf(l)[1..] == PairsOf(l[1..]);
      CopyStoredIdentity(p, d, l[1..], w);
    }
  }

  /** `d.update(d)` (and `d |= d`) keeps every entry and its rank, raises no
   *  RuntimeError, and only moves `$version` by the final step. */
  lemma UpdateSelf(p: Protocol, d: DictState)
    requires Valid(p, d) && EqReflexive(p) && UniqueKeys(p, d)
    ensures Update(p, d, Copied(PairsOf(Listing(d)), true), []) == Outcome(d.(version := d.version + 1), None)
  {
    ListingIsListing(d);
    CopyStoredIdentity(p, d, Listing(d), d.version);
    assert KeywordPairs([]) == [];
  }

  // ---------------------------------------------------------------------
  // `copy()` and `{} | d`

  /** In a listing of a dict whose keys are unique, a later key equals no earlier one. */
  lemma ListedKeysDistinct(p: Protocol, d: DictState, l: seq<Item>, i: nat, j: nat)
    requires UniqueKeys(p, d) && IsListing(d, l) && j < i < |l|
    ensures !p.eq(l[i].key, l[j].key)
  {
    assert l[i] in l && l[j] in l;
    var qi :| Holds(d, qi) && ItemAt(d, qi) == l[i];
    var qj :| Holds(d, qj) && ItemAt(d, qj) == l[j];
    assert l[j].rank < l[i].rank;
    Distinct(p, d, qi, qj);
  }

  /** While copying the listing l in order, the next key is not yet in the copy. */
  lemma CopyNextIsNew(p: Protocol, d: DictState, l: seq<Item>, e: DictState, m: seq<Item>, i: nat)
    requires EqReflexive(p) && UniqueKeys(p, d) && IsListing(d, l)
    requires StrHashIndexes(p, e) && IsListing(e, m) && i < |l| && PairsOf(m) == PairsOf(l[..i])
    ensures !Locate(p, e, l[i].key, None).present
  {
    var k := l[i].key;
    var t := Locate(p, e, k, None);
    if t.present {
      var x := ItemAt(e, t.pos);
      assert Stored(e, x);
      var j :| 0 <= j < |m| && m[j] == x;
      assert PairsOf(m)[j] == PairsOf(l[..i])[j];
      assert p.eq(k, x.key);
      ListedKeysDistinct(p, d, l, i, j);
      assert false;
    }
  }

  /** Copying the rest of l, from index i on, into a copy that already lists
   *  the first i pairs of l, lists exactly the pairs of l. */
  lemma {:induction false} CopyRest(p: Protocol, d: DictState, l: seq<Item>, e: DictState, m: seq<Item>, i: nat)
    requires EqReflexive(p) && UniqueKeys(p, d) && IsListing(d, l)
    requires Valid(p, e) && IsListing(e, m) && i <= |l| && PairsOf(m) == PairsOf(l[..i])
    ensures PairsOf(Listing(CopyLoop(p, e, PairsOf(l[i..]), None).state)) == PairsOf(l)
    decreases |l| - i
  {
    if i == |l| {
      assert PairsOf(l[i..]) == [];
      ListingIsUnique(e, m);
      assert l[..i] == l;
    } else {
      var k, v := l[i].key, l[i].value;
      assert PairsOf(l[i..])[1..] == PairsOf(l[i + 1..]);
      CopyNextIsNew(p, d, l, e, m, i);
      PutKeepsValid(p, e, k, v, None);
      PutListing(p, e, k, v, None, m);
      var m' := m + [Item(k, v, e.order)];
      assert PairsOf(m') == PairsOf(l[..i + 1]);
      CopyRest(p, d, l, Put(p, e, k, v, None), m', i + 1);
    }
  }

  /** `copy()` reproduces every key and value of a dict whose keys are
   *  unique, in the same order. */
  lemma CopyKeepsEntries(p: Protocol, d: DictState)
    requires Valid(p, d) && EqReflexive(p) && UniqueKeys(p, d)
    ensures PairsOf(Listing(CopyLoop(p, Empty, PairsOf(Listing(d)), None).state)) == PairsOf(Listing(d))
  {
    ListingIsListing(d);
    assert IsListing(Empty, []);
    CopyRest(p, d, Listing(d), Empty, [], 0);
    assert Listing(d)[0..] == Listing(d);
  }
}
