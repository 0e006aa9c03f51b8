/**
 * `dict.__eq__`: same length, then every numeric, string and chained entry of
 * the left dict must be matched in the right one. The loops run over the
 * property names of the tables, so a numeric key or a hash reaches the
 * comparisons as its decimal string.
 */
module Equality {
  import opened Objects
  import opened Store
  import opened Lookup

  /** Two-element lists `[value, rank]` compared element by element. */
  predicate SlotsEqual(p: Protocol, a: Slot, b: Slot) {
    p.eq(a.value, b.value) && p.eq(Int(a.rank), Int(b.rank))
  }

  /** The numeric entry n of d is matched in o: by o's numeric entry n, or
   *  else by a pair of o's chain under hash n whose key equals the string
   *  `Decimal(n)` and whose `[value, rank]` equals d's. */
  predicate IntEntryMatches(p: Protocol, d: DictState, o: DictState, n: int)
    requires n in d.ints
  {
    if n in o.ints then p.eq(o.ints[n].value, d.ints[n].value)
    else if n in o.objects then
      exists i :: 0 <= i < |o.objects[n]| &&
        p.eq(Str(Decimal(n)), o.objects[n][i].key) && SlotsEqual(p, d.ints[n], o.objects[n][i].slot)
    else false
  }

  predicate StrEntryMatches(p: Protocol, d: DictState, o: DictState, s: string)
    requires s in d.strs
  {
    s in o.strs && p.eq(o.strs[s].value, d.strs[s].value)
  }

  /** `other_pairs`: o's numeric entry at hash h, keyed by the string of h,
   *  followed by o's chain under h. */
  function OtherPairs(o: DictState, h: int): (r: seq<Pair>)
    ensures |r| == (if h in o.ints then 1 else 0) + |ChainAt(o, h)|
  {
    (if h in o.ints then [Pair(Str(Decimal(h)), o.ints[h])] else []) + ChainAt(o, h)
  }

  /** Some pair of `pairs` has a key equal to k and a value equal to v. */
  predicate PairFound(p: Protocol, k: PyObject, v: PyObject, pairs: seq<Pair>) {
    exists j :: 0 <= j < |pairs| && p.eq(k, pairs[j].key) && p.eq(v, pairs[j].slot.value)
  }

  /** Every pair of d's chain under h is matched among o's `other_pairs`. */
  predicate ChainMatches(p: Protocol, d: DictState, o: DictState, h: int)
    requires h in d.objects
  {
    forall i :: 0 <= i < |d.objects[h]| ==>
      PairFound(p, d.objects[h][i].key, d.objects[h][i].slot.value, OtherPairs(o, h))
  }

  predicate IntsMatch(p: Protocol, d: DictState, o: DictState) {
    forall n :: n in d.ints ==> IntEntryMatches(p, d, o, n)
  }

  predicate StrsMatch(p: Protocol, d: DictState, o: DictState) {
    forall s :: s in d.strs ==> StrEntryMatches(p, d, o, s)
  }

  predicate ChainsMatch(p: Protocol, d: DictState, o: DictState) {
    forall h :: h in d.objects ==> ChainMatches(p, d, o, h)
  }

  /** The test `self.$string_dict.length != other.$string_dict.length` passes:
   *  a table without the str key "length" gives undefined, one with it gives
   *  that entry's `[value, rank]` array, and two arrays are the same only
   *  when both sides are the same dict (`same`). */
  predicate LengthTestPasses(d: DictState, o: DictState, same: bool) {
    same || ("length" !in d.strs && "length" !in o.strs)
  }

  /** `dict.__eq__(d, o)` as written; `same` says that d and o are one dict.
   *  A str key "length" on either side answers false unless they are; a hash
   *  of d's object table for which o has no pair at all answers false, even
   *  when d's chain there is empty. */
  predicate EqualsAsWritten(p: Protocol, d: DictState, o: DictState, same: bool)
    requires same ==> d == o
    // the written comparison is stricter than the corrected one
    ensures EqualsAsWritten(p, d, o, same) ==> Equals(p, d, o)
  {
    && Size(d) == Size(o)
    && LengthTestPasses(d, o, same)
    && IntsMatch(p, d, o)
    && StrsMatch(p, d, o)
    && (forall h :: h in d.objects ==> OtherPairs(o, h) != [])
    && ChainsMatch(p, d, o)
  }

  /** `dict.__eq__(d, o)` without the "length" test and the `other_pairs`
   *  emptiness test: the first compares array identities, and the second can
   *  only decide anything for an empty chain, which has nothing to match. */
  predicate Equals(p: Protocol, d: DictState, o: DictState) {
    Size(d) == Size(o) && IntsMatch(p, d, o) && StrsMatch(p, d, o) && ChainsMatch(p, d, o)
  }

  /** The written comparison differs from the corrected one only through the
   *  "length" test and on a hash of d whose chain is empty and for which o has nothing. */
  lemma EqualsAsWrittenDiffers(p: Protocol, d: DictState, o: DictState, same: bool)
    requires same ==> d == o
    ensures EqualsAsWritten(p, d, o, same) <==>
      && Equals(p, d, o)
      && LengthTestPasses(d, o, same)
      && forall h :: h in d.objects ==> OtherPairs(o, h) != []
    ensures (forall h :: h in d.objects ==> d.objects[h] != []) && LengthTestPasses(d, o, same) ==>
      (EqualsAsWritten(p, d, o, same) <==> Equals(p, d, o))
  {
    if (forall h :: h in d.objects ==> d.objects[h] != []) && Equals(p, d, o) {
      forall h | h in d.objects ensures OtherPairs(o, h) != [] {
        assert ChainMatches(p, d, o, h);
        assert PairFound(p, d.objects[h][0].key, d.objects[h][0].slot.value, OtherPairs(o, h));
      }
    }
  }

  /** A dict equals itself under the corrected comparison. */
  lemma {:induction false} EqualsReflexive(p: Protocol, d: DictState)
    requires EqReflexive(p)
    ensures Equals(p, d, d)
  {
    forall n | n in d.ints ensures IntEntryMatches(p, d, d, n) {
      assert p.eq(d.ints[n].value, d.ints[n].value);
    }
    forall s | s in d.strs ensures StrEntryMatches(p, d, d, s) {
      assert p.eq(d.strs[s].value, d.strs[s].value);
    }
    forall h | h in d.objects ensures ChainMatches(p, d, d, h) {
      var c := d.objects[h];
      var off := if h in d.ints then 1 else 0;
      forall i | 0 <= i < |c| ensures PairFound(p, c[i].key, c[i].slot.value, OtherPairs(d, h)) {
        assert OtherPairs(d, h)[i + off] == c[i];
        assert p.eq(c[i].key, c[i].key) && p.eq(c[i].slot.value, c[i].slot.value);
      }
    }
  }

  /** After `d[k] = None; del d[k]` for an object key k, d's chain under the
   *  hash of k is empty, so `d == d` is false as written. */
  lemma EqualsAsWrittenNotReflexive()
    ensures var p := WithTrue;
      var d := Put(p, Empty, Other(5), PyNone, None);
      && Remove(p, d, Other(5)).Ok?
      && Lawful(p)
      && Valid(p, Remove(p, d, Other(5)).value)
      && !EqualsAsWritten(p, Remove(p, d, Other(5)).value, Remove(p, d, Other(5)).value, true)
      && Equals(p, Remove(p, d, Other(5)).value, Remove(p, d, Other(5)).value)
  {
    var p := WithTrue;
    WithTrueLawful();
    var d := Put(p, Empty, Other(5), PyNone, None);
    assert p.hash(Other(5)) == 5;
    assert Locate(p, Empty, Other(5), None) == Target(ObjPos(5, 0), false);
    assert ChainAt(Empty, 5) + [Pair(Other(5), Slot(PyNone, 0))] == [Pair(Other(5), Slot(PyNone, 0))];
    assert d.objects == map[5 := [Pair(Other(5), Slot(PyNone, 0))]];
    assert d.ints == map[];
    assert Rank(p, d, 5, Other(5)) == 0;
    var e := Remove(p, d, Other(5)).value;
    assert [Pair(Other(5), Slot(PyNone, 0))][..0] + [Pair(Other(5), Slot(PyNone, 0))][1..] == [];
    assert e.objects == map[5 := []] && e.ints == map[];
    StoreLaws.PutKeepsValid(p, Empty, Other(5), PyNone, None);
    StoreLaws.RemoveKeepsValid(p, d, Other(5));
    assert OtherPairs(e, 5) == [];
    EqualsReflexive(p, e);
  }

  /** `{"length": 1} == {"length": 1}` is false as written: the "length" test
   *  compares the two distinct `[value, rank]` arrays by identity. The same
   *  dict compared with itself passes it. */
  lemma EqualsAsWrittenLength()
    ensures var p := WithTrue;
      var d := Put(p, Empty, Str("length"), Int(1), None);
      && Valid(p, d)
      && !EqualsAsWritten(p, d, d, false)
      && EqualsAsWritten(p, d, d, true)
      && Equals(p, d, d)
  {
    var p := WithTrue;
    WithTrueLawful();
    var d := Put(p, Empty, Str("length"), Int(1), None);
    StoreLaws.PutKeepsValid(p, Empty, Str("length"), Int(1), None);
    assert d.strs == map["length" := Slot(Int(1), 0)];
    assert d.objects == map[];
    EqualsReflexive(p, d);
  }
}
