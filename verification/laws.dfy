/**
 * What insertion and deletion do to the dictionary as a whole: they keep its
 * invariant, change its size by one or not at all, and change the rank-sorted
 * listing of its entries by appending, replacing in place, or removing one
 * entry.
 */
module StoreLaws {
  import opened Objects
  import opened Store

  // ---------------------------------------------------------------------
  // Sequences ordered by rank

  /** Two rank-sorted sequences with the same elements are the same sequence:
   *  `to_list` is determined by the set of stored entries. */
  lemma {:induction false} ListingUnique(a: seq<Item>, b: seq<Item>)
    requires StrictlyRanked(a) && StrictlyRanked(b)
    requires forall x :: x in a <==> x in b
    ensures a == b
    decreases |a|
  {
    if a == [] {
      if b != [] {
        HeadIn(b);
        assert false;
      }
    } else {
      assert a[0] in b;
      assert b[0] in a;
      var i :| 0 <= i < |a| && a[i] == b[0];
      var j :| 0 <= j < |b| && b[j] == a[0];
      assert i == 0 && j == 0 by {
        assert a[0].rank <= a[i].rank == b[0].rank <= b[j].rank == a[0].rank;
      }
      forall x ensures x in a[1..] <==> x in b[1..] {
        if x in a[1..] {
          var m :| 1 <= m < |a| && a[m] == x;
          assert a[0].rank < a[m].rank;
          assert x in b;
        }
        if x in b[1..] {
          var m :| 1 <= m < |b| && b[m] == x;
          assert b[0].rank < b[m].rank;
          assert x in a;
        }
      }
      ListingUnique(a[1..], b[1..]);
      assert a == [a[0]] + a[1..];
      assert b == [b[0]] + b[1..];
    }
  }

  lemma HeadIn<T>(s: seq<T>)
    requires s != []
    ensures s[0] in s
  {
  }

  /** The listing with the entry of rank e.rank replaced by e. */
  function Replace(l: seq<Item>, e: Item): (r: seq<Item>)
    ensures |r| == |l|
    ensures forall i :: 0 <= i < |l| ==> r[i] == if l[i].rank == e.rank then e else l[i]
  {
    if l == [] then [] else [if l[0].rank == e.rank then e else l[0]] + Replace(l[1..], e)
  }

  /** The listing without the entry x. */
  function Without(l: seq<Item>, x: Item): (r: seq<Item>)
    ensures forall y :: y in r <==> y in l && y != x
    ensures StrictlyRanked(l) ==> StrictlyRanked(r)
  {
    if l == [] then []
    else if l[0] == x then Without(l[1..], x)
    else
      var rest := Without(l[1..], x);
      assert StrictlyRanked(l) ==> forall y :: y in rest ==> l[0].rank < y.rank by {
        if StrictlyRanked(l) {
          forall y | y in rest ensures l[0].rank < y.rank {
            var m :| 0 <= m < |l[1..]| && l[1..][m] == y;
            assert l[m + 1] == y;
          }
        }
      }
      [l[0]] + rest
  }

  // ---------------------------------------------------------------------
  // Writing one slot

  lemma WriteFrame(d: DictState, q: Pos, k: PyObject, slot: Slot)
    requires q.ObjPos? ==> q.i <= |ChainAt(d, q.h)|
    requires q.ObjPos? && !Holds(d, q) ==> q.i == |ChainAt(d, q.h)|
    requires q.IntPos? && !Holds(d, q) ==> k == Int(q.n)
    requires q.StrPos? && !Holds(d, q) ==> k == Str(q.s)
    ensures var r := Write(d, q, k, slot);
      && Holds(r, q)
      && ItemAt(r, q) == Item(if Holds(d, q) then ItemAt(d, q).key else k, slot.value, slot.rank)
      && (forall q' :: Holds(r, q') <==> Holds(d, q') || q' == q)
      && (forall q' :: Holds(d, q') && q' != q ==> ItemAt(r, q') == ItemAt(d, q'))
  {
    var r := Write(d, q, k, slot);
    match q
    case IntPos(n) =>
    case StrPos(s) =>
    case ObjPos(h, i) =>
      var c := ChainAt(d, h);
      assert r.objects[h] == if i < |c| then c[i := Pair(c[i].key, slot)] else c + [Pair(k, slot)];
      forall q' ensures Holds(r, q') <==> Holds(d, q') || q' == q {
      }
      forall q' | Holds(d, q') && q' != q ensures ItemAt(r, q') == ItemAt(d, q') {
      }
  }

  /** The entry `$setitem` leaves at its target: the old key and rank for a
   *  present entry, key k and rank `$order` for a new one. */
  function Entered(p: Protocol, d: DictState, k: PyObject, v: PyObject, hash: Option<int>): Item
    requires StrHashIndexes(p, d)
  {
    var t := Locate(p, d, k, hash);
    if t.present then Item(ItemAt(d, t.pos).key, v, ItemAt(d, t.pos).rank) else Item(k, v, d.order)
  }

  lemma PutFrame(p: Protocol, d: DictState, k: PyObject, v: PyObject, hash: Option<int>)
    requires StrHashIndexes(p, d)
    ensures var t := Locate(p, d, k, hash);
      var r := Put(p, d, k, v, hash);
      && Holds(r, t.pos)
      && ItemAt(r, t.pos) == Entered(p, d, k, v, hash)
      && (forall q :: Holds(r, q) <==> Holds(d, q) || q == t.pos)
      && (forall q :: Holds(d, q) && q != t.pos ==> ItemAt(r, q) == ItemAt(d, q))
  {
    var t := Locate(p, d, k, hash);
    var rank := if t.present then ItemAt(d, t.pos).rank else d.order;
    WriteFrame(d, t.pos, k, Slot(v, rank));
    PutWrites(p, d, k, v, hash);
    SameTables(Put(p, d, k, v, hash), Write(d, t.pos, k, Slot(v, rank)));
  }

  /** `$setitem` writes its target slot and changes no other table. */
  lemma PutWrites(p: Protocol, d: DictState, k: PyObject, v: PyObject, hash: Option<int>)
    requires StrHashIndexes(p, d)
    ensures var t := Locate(p, d, k, hash);
      var w := Write(d, t.pos, k, Slot(v, if t.present then ItemAt(d, t.pos).rank else d.order));
      var r := Put(p, d, k, v, hash);
      r.ints == w.ints && r.strs == w.strs && r.objects == w.objects
  {
  }

  /** Holds and ItemAt look only at the three tables. */
  lemma SameTables(a: DictState, b: DictState)
    requires a.ints == b.ints && a.strs == b.strs && a.objects == b.objects
    ensures forall q :: Holds(a, q) <==> Holds(b, q)
    ensures forall q :: Holds(a, q) ==> ItemAt(a, q) == ItemAt(b, q)
  {
  }

  /** The `$hash` argument of `setdefault` is the key's own hash, and the key is
   *  known to be absent from its chain. */
  ghost predicate HintSound(p: Protocol, d: DictState, k: PyObject, hash: Option<int>) {
    hash.Some? ==> hash.value == p.hash(k) && Rank(p, d, p.hash(k), k) == -1
  }

  /** `$setitem` keeps the invariant. */
  lemma PutKeepsValid(p: Protocol, d: DictState, k: PyObject, v: PyObject, hash: Option<int>)
    requires Valid(p, d) && HintSound(p, d, k, hash)
    ensures Valid(p, Put(p, d, k, v, hash))
  {
    PutKeepsRanks(p, d, k, v, hash);
    PutKeepsChains(p, d, k, v, hash);
    var r := Put(p, d, k, v, hash);
    assert StrHashIndexes(p, r);
  }

  lemma PutKeepsRanks(p: Protocol, d: DictState, k: PyObject, v: PyObject, hash: Option<int>)
    requires Valid(p, d)
    ensures RanksBelowOrder(Put(p, d, k, v, hash)) && RanksDistinct(Put(p, d, k, v, hash))
  {
    var t := Locate(p, d, k, hash);
    var r := Put(p, d, k, v, hash);
    PutFrame(p, d, k, v, hash);
    assert Entered(p, d, k, v, hash).rank < r.order;
    forall q | Holds(r, q) ensures ItemAt(r, q).rank < r.order {
      if q != t.pos { assert Holds(d, q); }
    }
    forall q1, q2 | Holds(r, q1) && Holds(r, q2) && ItemAt(r, q1).rank == ItemAt(r, q2).rank
      ensures q1 == q2
    {
      if q1 != t.pos && q2 != t.pos {
        assert ItemAt(d, q1).rank == ItemAt(d, q2).rank;
      }
    }
  }

  lemma PutKeepsChains(p: Protocol, d: DictState, k: PyObject, v: PyObject, hash: Option<int>)
    requires Valid(p, d) && HintSound(p, d, k, hash)
    ensures ChainsHashed(p, Put(p, d, k, v, hash)) && ChainsDistinct(p, Put(p, d, k, v, hash))
  {
    var t := Locate(p, d, k, hash);
    var r := Put(p, d, k, v, hash);
    if t.pos.ObjPos? {
      var h := t.pos.h;
      var c := ChainAt(d, h);
      var c' := r.objects[h];
      assert r.objects == d.objects[h := c'];
      if t.present {
        assert c' == c[t.pos.i := Pair(c[t.pos.i].key, Slot(v, c[t.pos.i].slot.rank))];
      } else {
        assert c' == c + [Pair(k, Slot(v, d.order))];
        assert k.Other? && h == p.hash(k);
        assert Rank(p, d, h, k) == -1;
      }
    } else {
      assert r.objects == d.objects;
    }
  }

  /** After `$setitem`, the listing of entries is the old one with a present
   *  entry's value replaced where it stood, or with the new entry at the end. */
  lemma PutListing(p: Protocol, d: DictState, k: PyObject, v: PyObject, hash: Option<int>, l: seq<Item>)
    requires Valid(p, d) && IsListing(d, l)
    ensures IsListing(Put(p, d, k, v, hash),
      if Locate(p, d, k, hash).present then Replace(l, Entered(p, d, k, v, hash))
      else l + [Entered(p, d, k, v, hash)])
  {
    PutFrame(p, d, k, v, hash);
    if Locate(p, d, k, hash).present {
      PutListingPresent(p, d, k, v, hash, l);
    } else {
      PutListingAbsent(p, d, k, v, hash, l);
    }
  }

  lemma PutListingPresent(p: Protocol, d: DictState, k: PyObject, v: PyObject, hash: Option<int>, l: seq<Item>)
    requires Valid(p, d) && IsListing(d, l) && Locate(p, d, k, hash).present
    ensures IsListing(Put(p, d, k, v, hash), Replace(l, Entered(p, d, k, v, hash)))
  {
    var t := Locate(p, d, k, hash);
    var r := Put(p, d, k, v, hash);
    var e := Entered(p, d, k, v, hash);
    PutFrame(p, d, k, v, hash);
    var o := ItemAt(d, t.pos);
    assert Stored(d, o);
    var l' := Replace(l, e);
    forall i, j | 0 <= i < j < |l'| ensures l'[i].rank < l'[j].rank {
      assert l[i].rank < l[j].rank;
    }
    forall x | x in l' ensures Stored(r, x) {
      var i :| 0 <= i < |l'| && l'[i] == x;
      if l[i].rank != e.rank {
        assert l[i] in l;
        var q :| Holds(d, q) && ItemAt(d, q) == l[i];
        assert Holds(r, q) && ItemAt(r, q) == x;
      } else {
        assert Holds(r, t.pos) && ItemAt(r, t.pos) == x;
      }
    }
    forall x | Stored(r, x) ensures x in l' {
      var q :| Holds(r, q) && ItemAt(r, q) == x;
      if q == t.pos {
        assert o in l;
        var i :| 0 <= i < |l| && l[i] == o;
        assert l'[i] == e;
      } else {
        assert Holds(d, q) && ItemAt(d, q) == x;
        assert x in l;
        var i :| 0 <= i < |l| && l[i] == x;
        assert l'[i] == x;
      }
    }
  }

  lemma PutListingAbsent(p: Protocol, d: DictState, k: PyObject, v: PyObject, hash: Option<int>, l: seq<Item>)
    requires Valid(p, d) && IsListing(d, l) && !Locate(p, d, k, hash).present
    ensures IsListing(Put(p, d, k, v, hash), l + [Entered(p, d, k, v, hash)])
  {
    var t := Locate(p, d, k, hash);
    var r := Put(p, d, k, v, hash);
    var e := Entered(p, d, k, v, hash);
    PutFrame(p, d, k, v, hash);
    var l' := l + [e];
    forall x | x in l ensures x.rank < e.rank {
      var q :| Holds(d, q) && ItemAt(d, q) == x;
    }
    forall i, j | 0 <= i < j < |l'| ensures l'[i].rank < l'[j].rank {
      if j < |l| { assert l[i].rank < l[j].rank; } else { assert l'[i] in l; }
    }
    forall x | x in l' ensures Stored(r, x) {
      if x in l {
        var q :| Holds(d, q) && ItemAt(d, q) == x;
        assert Holds(r, q) && ItemAt(r, q) == x;
      } else {
        assert Holds(r, t.pos) && ItemAt(r, t.pos) == x;
      }
    }
    forall x | Stored(r, x) ensures x in l' {
      var q :| Holds(r, q) && ItemAt(r, q) == x;
      if q != t.pos {
        assert Holds(d, q) && ItemAt(d, q) == x;
      }
    }
  }

  /** `__len__` after `$setitem`: one more for a new key, unchanged otherwise. */
  lemma PutSize(p: Protocol, d: DictState, k: PyObject, v: PyObject, hash: Option<int>)
    requires Valid(p, d)
    ensures Size(Put(p, d, k, v, hash)) == Size(d) + if Locate(p, d, k, hash).present then 0 else 1
  {
    var t := Locate(p, d, k, hash);
    var rank := if t.present then ItemAt(d, t.pos).rank else d.order;
    var w := Write(d, t.pos, k, Slot(v, rank));
    assert Size(Put(p, d, k, v, hash)) == Size(w);
    WriteSize(d, t.pos, k, Slot(v, rank));
  }

  lemma WriteSize(d: DictState, q: Pos, k: PyObject, slot: Slot)
    requires q.ObjPos? ==> q.i <= |ChainAt(d, q.h)|
    requires q.ObjPos? && !Holds(d, q) ==> q.i == |ChainAt(d, q.h)|
    ensures Size(Write(d, q, k, slot)) == Size(d) + if Holds(d, q) then 0 else 1
  {
    var w := Write(d, q, k, slot);
    if q.ObjPos? {
      ChainSlotsResize(d.objects, q.h, w.objects[q.h]);
    }
  }

  lemma InChainSlots(objects: map<int, seq<Pair>>, x: (int, int))
    ensures x in ChainSlots(objects) <==> x.0 in objects && 0 <= x.1 < |objects[x.0]|
  {
    var (h, i) := x;
    if h in objects && 0 <= i < |objects[h]| {
      assert (h, i) in ChainSlots(objects);
    }
  }

  /** Replacing chain h by c' of the same length, one more or one less entry. */
  lemma ChainSlotsResize(objects: map<int, seq<Pair>>, h: int, c': seq<Pair>)
    ensures var n := if h in objects then |objects[h]| else 0;
      var m := objects[h := c'];
      && (|c'| == n ==> ChainSlots(m) == ChainSlots(objects))
      && (|c'| == n + 1 ==> ChainSlots(m) == ChainSlots(objects) + {(h, n)} && (h, n) !in ChainSlots(objects))
      && (|c'| + 1 == n ==> ChainSlots(m) == ChainSlots(objects) - {(h, |c'|)} && (h, |c'|) in ChainSlots(objects))
  {
    var m := objects[h := c'];
    forall x ensures x in ChainSlots(m) <==> x.0 in m && 0 <= x.1 < |m[x.0]| {
      InChainSlots(m, x);
    }
    forall x ensures x in ChainSlots(objects) <==> x.0 in objects && 0 <= x.1 < |objects[x.0]| {
      InChainSlots(objects, x);
    }
  }

  // ---------------------------------------------------------------------
  // Removing one slot

  /** Where an entry that stays put by `Erase(d, gone)` stood before. */
  function Before(q: Pos, gone: Pos): Pos {
    if q.ObjPos? && gone.ObjPos? && q.h == gone.h && q.i >= gone.i then ObjPos(q.h, q.i + 1) else q
  }

  /** Where an entry of d other than `gone` stands after `Erase(d, gone)`. */
  function After(q: Pos, gone: Pos): Pos {
    if q.ObjPos? && gone.ObjPos? && q.h == gone.h && q.i > gone.i then ObjPos(q.h, q.i - 1) else q
  }

  lemma EraseFrame(p: Protocol, d: DictState, gone: Pos)
    requires Holds(d, gone)
    ensures var r := Erase(p, d, gone);
      && (forall q :: Holds(r, q) ==>
            Holds(d, Before(q, gone)) && Before(q, gone) != gone && ItemAt(r, q) == ItemAt(d, Before(q, gone)))
      && (forall q :: Holds(d, q) && q != gone ==>
            Holds(r, After(q, gone)) && ItemAt(r, After(q, gone)) == ItemAt(d, q))
  {
    var r := Erase(p, d, gone);
    if gone.ObjPos? {
      var h, i := gone.h, gone.i;
      var c := d.objects[h];
      var c' := c[..i] + c[i + 1..];
      assert r.objects[h] == c';
      assert forall j :: 0 <= j < i ==> c'[j] == c[j];
      assert forall j :: i <= j < |c'| ==> c'[j] == c[j + 1];
    }
  }

  lemma DeleteFrame(p: Protocol, d: DictState, gone: Pos)
    requires Holds(d, gone)
    ensures var r := Delete(p, d, gone);
      && (forall q :: Holds(r, q) ==>
            Holds(d, Before(q, gone)) && Before(q, gone) != gone && ItemAt(r, q) == ItemAt(d, Before(q, gone)))
      && (forall q :: Holds(d, q) && q != gone ==>
            Holds(r, After(q, gone)) && ItemAt(r, After(q, gone)) == ItemAt(d, q))
  {
    EraseFrame(p, d, gone);
    SameTables(Delete(p, d, gone), Erase(p, d, gone));
  }

  /** Deleting any stored entry keeps the invariant. */
  lemma DeleteKeepsValid(p: Protocol, d: DictState, gone: Pos)
    requires Valid(p, d) && Holds(d, gone)
    ensures Valid(p, Delete(p, d, gone))
  {
    DeleteKeepsRanks(p, d, gone);
    DeleteKeepsStrHash(p, d, gone);
    DeleteKeepsChains(p, d, gone);
  }

  lemma DeleteKeepsRanks(p: Protocol, d: DictState, gone: Pos)
    requires Valid(p, d) && Holds(d, gone)
    ensures RanksBelowOrder(Delete(p, d, gone)) && RanksDistinct(Delete(p, d, gone))
  {
    var r := Delete(p, d, gone);
    DeleteFrame(p, d, gone);
    forall q | Holds(r, q) ensures ItemAt(r, q).rank < r.order {
      assert Holds(d, Before(q, gone));
    }
    forall q1, q2 | Holds(r, q1) && Holds(r, q2) && ItemAt(r, q1).rank == ItemAt(r, q2).rank
      ensures q1 == q2
    {
      assert ItemAt(d, Before(q1, gone)).rank == ItemAt(d, Before(q2, gone)).rank;
    }
  }

  lemma DeleteKeepsStrHash(p: Protocol, d: DictState, gone: Pos)
    requires Valid(p, d) && Holds(d, gone)
    ensures StrHashIndexes(p, Delete(p, d, gone))
  {
    var r := Delete(p, d, gone);
    if gone.StrPos? {
      forall h | h in r.strHash ensures r.strHash[h] in r.strs && p.hash(Str(r.strHash[h])) == h {
        assert h != p.hash(Str(gone.s));
        assert d.strHash[h] != gone.s;
      }
    }
  }

  lemma DeleteKeepsChains(p: Protocol, d: DictState, gone: Pos)
    requires Valid(p, d) && Holds(d, gone)
    ensures ChainsHashed(p, Delete(p, d, gone)) && ChainsDistinct(p, Delete(p, d, gone))
  {
    var r := Delete(p, d, gone);
    if gone.ObjPos? {
      var h, i := gone.h, gone.i;
      var c := d.objects[h];
      var c' := c[..i] + c[i + 1..];
      assert r.objects == d.objects[h := c'];
      assert forall j :: 0 <= j < |c'| ==> c'[j] == if j < i then c[j] else c[j + 1];
      forall h', a, b | h' in r.objects && 0 <= a < b < |r.objects[h']|
        ensures !p.eq(r.objects[h'][b].key, r.objects[h'][a].key)
      {
        if h' == h {
          var a' := if a < i then a else a + 1;
          var b' := if b < i then b else b + 1;
          assert c'[a] == c[a'] && c'[b] == c[b'] && a' < b';
        }
      }
    }
  }

  /** After a deletion, the listing is the old one without the removed entry. */
  lemma DeleteListing(p: Protocol, d: DictState, gone: Pos, l: seq<Item>)
    requires Valid(p, d) && IsListing(d, l) && Holds(d, gone)
    ensures IsListing(Delete(p, d, gone), Without(l, ItemAt(d, gone)))
  {
    var x := ItemAt(d, gone);
    var r := Delete(p, d, gone);
    DeleteFrame(p, d, gone);
    var l' := Without(l, x);
    forall y | y in l' ensures Stored(r, y) {
      var q :| Holds(d, q) && ItemAt(d, q) == y;
      assert Holds(r, After(q, gone));
    }
    forall y | Stored(r, y) ensures y in l' {
      var q :| Holds(r, q) && ItemAt(r, q) == y;
      var q' := Before(q, gone);
      assert Holds(d, q') && ItemAt(d, q') == y;
      assert Stored(d, y);
      assert q' != gone;
      assert y != x;
    }
  }

  /** `__len__` after a deletion is one less. */
  lemma DeleteSize(p: Protocol, d: DictState, gone: Pos)
    requires Holds(d, gone)
    ensures Size(Delete(p, d, gone)) == Size(d) - 1
  {
    var r := Erase(p, d, gone);
    assert Size(Delete(p, d, gone)) == Size(r);
    match gone
    case IntPos(n) =>
      assert r.ints.Keys == d.ints.Keys - {n};
    case StrPos(s) =>
      assert r.strs.Keys == d.strs.Keys - {s};
    case ObjPos(h, i) =>
      var c := d.objects[h];
      assert |r.objects[h]| == |c| - 1;
      ChainSlotsResize(d.objects, h, r.objects[h]);
  }

  /** `__delitem__` keeps the invariant. */
  lemma RemoveKeepsValid(p: Protocol, d: DictState, k: PyObject)
    requires Valid(p, d) && Remove(p, d, k).Ok?
    ensures Valid(p, Remove(p, d, k).value)
  {
    DeleteKeepsValid(p, d, DelTarget(p, d, k).value);
  }

  /** After `__delitem__`, the listing is the old one without the removed entry. */
  lemma RemoveListing(p: Protocol, d: DictState, k: PyObject, l: seq<Item>)
    requires Valid(p, d) && IsListing(d, l) && Remove(p, d, k).Ok?
    ensures IsListing(Remove(p, d, k).value, Without(l, ItemAt(d, DelTarget(p, d, k).value)))
  {
    DeleteListing(p, d, DelTarget(p, d, k).value, l);
  }

  /** `__len__` after a successful `__delitem__` is one less. */
  lemma RemoveSize(p: Protocol, d: DictState, k: PyObject)
    requires Remove(p, d, k).Ok?
    ensures Size(Remove(p, d, k).value) == Size(d) - 1
  {
    DeleteSize(p, d, DelTarget(p, d, k).value);
  }

  /** A stored entry is found again by `__delitem__` under its own key: the
   *  chain search stops at it because no earlier entry of its chain equals it. */
  lemma DelTargetOfStored(p: Protocol, d: DictState, q: Pos)
    requires Valid(p, d) && EqReflexive(p) && Holds(d, q)
    ensures DelTarget(p, d, ItemAt(d, q).key) == Some(q)
  {
    if q.ObjPos? {
      var h, i := q.h, q.i;
      var k := d.objects[h][i].key;
      assert p.eq(k, k);
      var ix := Rank(p, d, h, k);
      assert ix != -1;
    }
  }
}
