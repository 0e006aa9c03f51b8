/**
 * What `$getitem` and `__contains__` find: an entry whose key equals the one
 * looked up. `$getitem` finds one exactly when one is stored;
 * `__contains__` can miss one that `$getitem` finds.
 */
module Lookup {
  import opened Objects
  import opened Store
  import opened StoreLaws

  /** Some stored entry has a key equal to k. */
  ghost predicate KeyStored(p: Protocol, d: DictState, k: PyObject) {
    exists q :: Holds(d, q) && p.eq(k, ItemAt(d, q).key)
  }

  /** Whatever `$getitem` returns is the value of a stored entry whose key equals k. */
  lemma GetItemSound(p: Protocol, d: DictState, k: PyObject)
    requires StrHashIndexes(p, d) && EqReflexive(p) && StrInstancesExact(p)
    requires GetItem(p, d, k).Ok?
    ensures exists q :: Holds(d, q) && p.eq(k, ItemAt(d, q).key) && ItemAt(d, q).value == GetItem(p, d, k).value
  {
    var v := GetItem(p, d, k).value;
    var h := p.hash(k);
    if k.Str? && k.s in d.strs {
      assert p.eq(k, ItemAt(d, StrPos(k.s)).key);
    } else if k.Int? && k.i in d.ints {
      assert p.eq(k, ItemAt(d, IntPos(k.i)).key);
    } else if h in d.strHash && p.eq(k, Str(d.strHash[h])) {
      assert Holds(d, StrPos(d.strHash[h]));
    } else if h in d.ints && p.eq(k, Int(h)) {
      assert Holds(d, IntPos(h));
    } else if StrInstanceValue(p, k).Some? && StrInstanceValue(p, k).value in d.strs {
      var s := StrInstanceValue(p, k).value;
      assert Holds(d, StrPos(s)) && ItemAt(d, StrPos(s)).key == Str(s);
    } else {
      var ix := Rank(p, d, h, k);
      assert Holds(d, ObjPos(h, ix));
    }
  }

  /** A stored entry whose key equals k is always found by `$getitem`, provided
   *  the object model keeps equality an equivalence that respects hashes. */
  lemma GetItemComplete(p: Protocol, d: DictState, k: PyObject)
    requires Valid(p, d) && Lawful(p) && StrInstancesExact(p)
    requires KeyStored(p, d, k)
    ensures GetItem(p, d, k).Ok?
  {
    var q :| Holds(d, q) && p.eq(k, ItemAt(d, q).key);
    var key := ItemAt(d, q).key;
    match q
    case IntPos(n) =>
      assert p.hash(k) == n;
    case StrPos(s) =>
      if k.Other? {
        assert p.strValue(k) == Some(s);
      }
    case ObjPos(h, i) =>
      assert p.hash(k) == h;
      var c := ChainAt(d, h);
      assert c[i] == d.objects[h][i];
  }

  /** `dict.__contains__` as written never claims a key that is not there. */
  lemma ContainsSound(p: Protocol, d: DictState, k: PyObject)
    requires StrHashIndexes(p, d) && EqReflexive(p) && Contains(p, d, k)
    ensures KeyStored(p, d, k)
  {
    var h := p.hash(k);
    match k
    case Str(s) => assert p.eq(k, ItemAt(d, StrPos(s)).key);
    case Int(n) => assert p.eq(k, ItemAt(d, IntPos(n)).key);
    case Other(_) =>
      if h in d.strHash && p.eq(k, Str(d.strHash[h])) {
        assert Holds(d, StrPos(d.strHash[h]));
      } else if h in d.ints && p.eq(k, Int(h)) {
        assert Holds(d, IntPos(h));
      } else {
        assert Holds(d, ObjPos(h, Rank(p, d, h, k)));
      }
  }

  /** `key in d` decided as `$getitem` decides it: the fast paths for str and
   *  int keys fall through to the hashed lookup when they miss. */
  function ContainsKey(p: Protocol, d: DictState, k: PyObject): (b: bool)
    requires StrHashIndexes(p, d)
    ensures b <==> GetItem(p, d, k).Ok?
    // the corrected test reports every key the written one reports
    ensures Contains(p, d, k) ==> b
  {
    match k
    case Str(s) => s in d.strs || HashLookup(p, d, k).Ok?
    case Int(n) => n in d.ints || HashLookup(p, d, k).Ok?
    case Other(_) => HashLookup(p, d, k).Ok?
  }

  /** `key in d` holds exactly when an entry with an equal key is stored,
   *  which is when `d[key]` does not raise KeyError. */
  lemma ContainsKeyExact(p: Protocol, d: DictState, k: PyObject)
    requires Valid(p, d) && Lawful(p) && StrInstancesExact(p)
    ensures ContainsKey(p, d, k) <==> KeyStored(p, d, k)
    ensures ContainsKey(p, d, k) <==> GetItem(p, d, k).Ok?
  {
    assert ContainsKey(p, d, k) <==> GetItem(p, d, k).Ok?;
    if GetItem(p, d, k).Ok? {
      GetItemSound(p, d, k);
    }
    if KeyStored(p, d, k) {
      GetItemComplete(p, d, k);
    }
  }

  /** The entry `HashTarget` picks has a key equal to k. */
  lemma HashTargetEqual(p: Protocol, d: DictState, k: PyObject)
    requires StrHashIndexes(p, d) && EqReflexive(p) && StrInstancesExact(p) && HashTarget(p, d, k).Some?
    ensures p.eq(k, ItemAt(d, HashTarget(p, d, k).value).key)
  {
    var h := p.hash(k);
    if h in d.strHash && p.eq(k, Str(d.strHash[h])) {
    } else if h in d.ints && p.eq(k, Int(h)) {
    } else if StrInstanceValue(p, k).Some? && StrInstanceValue(p, k).value in d.strs {
      assert p.eq(k, Str(StrInstanceValue(p, k).value));
    }
  }

  /** `__delitem__` with the fallback of `DelTargetEqual` removes an entry
   *  exactly when `d[key]` finds one, and the entry it removes has a key equal to k. */
  lemma RemoveEqualExact(p: Protocol, d: DictState, k: PyObject)
    requires Valid(p, d) && Lawful(p) && StrInstancesExact(p)
    ensures RemoveEqual(p, d, k).Ok? <==> KeyStored(p, d, k)
    ensures RemoveEqual(p, d, k).Ok? ==> p.eq(k, ItemAt(d, DelTargetEqual(p, d, k).value).key)
  {
    ContainsKeyExact(p, d, k);
    if DelTarget(p, d, k).Some? {
      assert k.Other? || p.eq(k, k);
    } else if HashTarget(p, d, k).Some? {
      HashTargetEqual(p, d, k);
    }
  }

  // ---------------------------------------------------------------------
  // A str instance whose equality disagrees with its string value

  /** Every object is equal only to itself; ints hash to themselves and
   *  everything else to 0; Other(7) is a str instance holding "a". */
  const TaggedStr: Protocol :=
    Protocol((x: PyObject) => if x.Int? then x.i else 0,
             (a: PyObject, b: PyObject) => a == b,
             (x: PyObject) => if x == Other(7) then Some("a") else None)

  /** Without `StrInstancesExact`, `$getitem` is not sound: a str instance is
   *  looked up by its string value and its `__eq__` is never asked, so
   *  `{"a": 1}[x]` returns 1 for an x equal to no stored key. */
  lemma GetItemStrInstanceUnsound()
    ensures var d := Put(TaggedStr, Empty, Str("a"), Int(1), None);
      && Lawful(TaggedStr) && !StrInstancesExact(TaggedStr)
      && Valid(TaggedStr, d)
      && GetItem(TaggedStr, d, Other(7)) == Ok(Int(1))
      && !KeyStored(TaggedStr, d, Other(7))
  {
    var p := TaggedStr;
    var d := Put(p, Empty, Str("a"), Int(1), None);
    assert p.strValue(Other(7)) == Some("a") && !p.eq(Other(7), Str("a"));
    PutKeepsValid(p, Empty, Str("a"), Int(1), None);
    assert d.strs == map["a" := Slot(Int(1), 0)] && d.strHash == map[0 := "a"];
    assert d.ints == map[] && d.objects == map[];
    assert StrInstanceValue(p, Other(7)) == Some("a");
  }

  // ---------------------------------------------------------------------
  // A concrete object model in which `True` is the object Other(1)

  /** The value an object stands for: Other(1) is `True`, equal to the int 1. */
  function Canon(x: PyObject): PyObject {
    if x == Other(1) then Int(1) else x
  }

  function BoolHash(x: PyObject): int {
    match Canon(x)
    case Int(n) => n
    case Str(s) => |s|
    case Other(r) => r
  }

  const WithTrue: Protocol :=
    Protocol(BoolHash, (a: PyObject, b: PyObject) => Canon(a) == Canon(b), (x: PyObject) => None)

  lemma WithTrueLawful()
    ensures Lawful(WithTrue) && StrInstancesExact(WithTrue)
  {
  }

  /** `{True: v}`: one chain entry under hash 1. */
  lemma TrueEntry(v: PyObject)
    ensures var d := Put(WithTrue, Empty, Other(1), v, None);
      && d == DictState(map[], map[], map[], map[1 := [Pair(Other(1), Slot(v, 0))]], 1, 1)
      && Valid(WithTrue, d)
  {
    var p := WithTrue;
    assert p.hash(Other(1)) == 1;
    assert Locate(p, Empty, Other(1), None) == Target(ObjPos(1, 0), false);
    assert ChainAt(Empty, 1) + [Pair(Other(1), Slot(v, 0))] == [Pair(Other(1), Slot(v, 0))];
    PutKeepsValid(p, Empty, Other(1), v, None);
  }

  /** `1 in {True: 'x'}` is false while `{True: 'x'}[1]` is 'x': the int fast
   *  path of `__contains__` answers without looking at the chains. */
  lemma ContainsMissesEqualKey()
    ensures var d := Put(WithTrue, Empty, Other(1), Str("x"), None);
      && Valid(WithTrue, d)
      && KeyStored(WithTrue, d, Int(1))
      && GetItem(WithTrue, d, Int(1)) == Ok(Str("x"))
      && !Contains(WithTrue, d, Int(1))
      && ContainsKey(WithTrue, d, Int(1))
  {
    var p := WithTrue;
    TrueEntry(Str("x"));
    var d := DictState(map[], map[], map[], map[1 := [Pair(Other(1), Slot(Str("x"), 0))]], 1, 1);
    assert Holds(d, ObjPos(1, 0)) && p.eq(Int(1), ItemAt(d, ObjPos(1, 0)).key);
    assert Rank(p, d, 1, Int(1)) == 0;
  }
}
