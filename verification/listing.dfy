/**
 * `to_list`: every stored entry, sorted by rank. `Listing(d)` is the one
 * sequence with that property; its length is what `__len__` counts.
 */
module Entries {
  import opened Objects
  import opened Store
  import opened StoreLaws

  // ---------------------------------------------------------------------
  // Sorting by rank (the comparator `a[1][1] - b[1][1]` of `to_list`)

  /** No two elements of l share a rank. */
  ghost predicate DistinctRanks(l: seq<Item>) {
    forall i, j :: 0 <= i < j < |l| ==> l[i].rank != l[j].rank
  }

  function InsertByRank(x: Item, l: seq<Item>): (r: seq<Item>)
    ensures multiset(r) == multiset(l) + multiset{x}
    ensures |r| == |l| + 1 && (r[0] == x || (l != [] && r[0] == l[0]))
  {
    if l == [] then [x]
    else if x.rank <= l[0].rank then [x] + l
    else
      assert l == [l[0]] + l[1..];
      [l[0]] + InsertByRank(x, l[1..])
  }

  lemma {:induction false} InsertByRankSorted(x: Item, l: seq<Item>)
    requires StrictlyRanked(l)
    requires forall i :: 0 <= i < |l| ==> l[i].rank != x.rank
    ensures StrictlyRanked(InsertByRank(x, l))
  {
    if l != [] {
      assert l == [l[0]] + l[1..];
      if x.rank > l[0].rank {
        var rest := InsertByRank(x, l[1..]);
        InsertByRankSorted(x, l[1..]);
        assert l[0].rank < rest[0].rank by {
          if rest[0] != x {
            assert rest[0] == l[1];
          }
        }
        forall i | 0 < i < |rest| ensures rest[0].rank < rest[i].rank {
        }
      }
    }
  }

  /** Insertion sort on ranks; the source leaves this to `Array.prototype.sort`. */
  function SortByRank(l: seq<Item>): (r: seq<Item>)
    ensures multiset(r) == multiset(l)
  {
    if l == [] then []
    else
      assert l == [l[0]] + l[1..];
      InsertByRank(l[0], SortByRank(l[1..]))
  }

  lemma {:induction false} SortByRankSorted(l: seq<Item>)
    requires DistinctRanks(l)
    ensures StrictlyRanked(SortByRank(l))
  {
    if l != [] {
      assert l == [l[0]] + l[1..];
      var rest := SortByRank(l[1..]);
      assert DistinctRanks(l[1..]) by {
        forall i, j | 0 <= i < j < |l[1..]| ensures l[1..][i].rank != l[1..][j].rank {
          assert l[1..][i] == l[i + 1] && l[1..][j] == l[j + 1];
        }
      }
      SortByRankSorted(l[1..]);
      forall i | 0 <= i < |rest| ensures rest[i].rank != l[0].rank {
        assert rest[i] in multiset(l[1..]);
        var m :| 0 <= m < |l[1..]| && l[1..][m] == rest[i];
        assert l[m + 1] == rest[i];
      }
      InsertByRankSorted(l[0], rest);
    }
  }

  // ---------------------------------------------------------------------
  // The stored entries as a set

  ghost function IntItems(d: DictState): set<Item> {
    set n | n in d.ints :: Item(Int(n), d.ints[n].value, d.ints[n].rank)
  }

  ghost function StrItems(d: DictState): set<Item> {
    set s | s in d.strs :: Item(Str(s), d.strs[s].value, d.strs[s].rank)
  }

  ghost function ChainItems(d: DictState): set<Item> {
    set h, i | h in d.objects && 0 <= i < |d.objects[h]| :: ItemAt(d, ObjPos(h, i))
  }

  ghost function StoredItems(d: DictState): set<Item> {
    IntItems(d) + StrItems(d) + ChainItems(d)
  }

  lemma StoredItemsAreStored(d: DictState)
    ensures forall x :: x in StoredItems(d) <==> Stored(d, x)
  {
    forall x ensures x in StoredItems(d) <==> Stored(d, x) {
      if x in StoredItems(d) {
        if x.key.Int? && x.key.i in d.ints && x == ItemAt(d, IntPos(x.key.i)) {
        } else if x.key.Str? && x.key.s in d.strs && x == ItemAt(d, StrPos(x.key.s)) {
        } else {
          var h, i :| h in d.objects && 0 <= i < |d.objects[h]| && x == ItemAt(d, ObjPos(h, i));
          assert Holds(d, ObjPos(h, i));
        }
      }
      if Stored(d, x) {
        var q :| Holds(d, q) && ItemAt(d, q) == x;
        match q
        case IntPos(n) =>
        case StrPos(s) =>
        case ObjPos(h, i) =>
          assert x in ChainItems(d);
      }
    }
  }

  /** A sequence holding each element of s once. */
  ghost function SetToSeq(s: set<Item>): (r: seq<Item>)
    ensures |r| == |s|
    ensures forall x :: x in r <==> x in s
    ensures forall i, j :: 0 <= i < j < |r| ==> r[i] != r[j]
  {
    if s == {} then []
    else
      var x :| x in s;
      var rest := SetToSeq(s - {x});
      assert forall i :: 0 <= i < |rest| ==> rest[i] != x by {
        forall i | 0 <= i < |rest| ensures rest[i] != x {
          assert rest[i] in rest;
        }
      }
      [x] + rest
  }

  // ---------------------------------------------------------------------
  // The listing

  /** What `to_list(d)` sorts into, with ranks. */
  ghost function Listing(d: DictState): seq<Item> {
    SortByRank(SetToSeq(StoredItems(d)))
  }

  /** `Listing(d)` holds every stored entry once, in increasing rank. */
  lemma ListingIsListing(d: DictState)
    requires RanksDistinct(d)
    ensures IsListing(d, Listing(d))
  {
    var S := SetToSeq(StoredItems(d));
    StoredItemsAreStored(d);
    StoredRanksDistinct(d, S);
    SortByRankSorted(S);
    var l := Listing(d);
    forall x ensures x in l <==> Stored(d, x) {
      assert x in l <==> x in multiset(l);
      assert x in S <==> x in multiset(S);
    }
  }

  /** Different stored entries have different ranks. */
  lemma StoredRanksDistinct(d: DictState, S: seq<Item>)
    requires RanksDistinct(d)
    requires forall x :: x in S ==> Stored(d, x)
    requires forall i, j :: 0 <= i < j < |S| ==> S[i] != S[j]
    ensures DistinctRanks(S)
  {
    forall i, j | 0 <= i < j < |S| ensures S[i].rank != S[j].rank {
      assert Stored(d, S[i]) && Stored(d, S[j]);
      var q1 :| Holds(d, q1) && ItemAt(d, q1) == S[i];
      var q2 :| Holds(d, q2) && ItemAt(d, q2) == S[j];
      assert S[i].rank == S[j].rank ==> q1 == q2;
    }
  }

  /** Any rank-sorted sequence of exactly the stored entries is `Listing(d)`. */
  lemma ListingIsUnique(d: DictState, l: seq<Item>)
    requires RanksDistinct(d) && IsListing(d, l)
    ensures l == Listing(d)
  {
    ListingIsListing(d);
    ListingUnique(l, Listing(d));
  }

  ghost function Image<T, U>(s: set<T>, f: T -> U): set<U> {
    set x | x in s :: f(x)
  }

  lemma InjectiveImageCard<T, U>(s: set<T>, f: T -> U)
    requires forall x, y :: x in s && y in s && f(x) == f(y) ==> x == y
    ensures |Image(s, f)| == |s|
  {
    if s != {} {
      var x :| x in s;
      InjectiveImageCard(s - {x}, f);
      assert Image(s, f) == Image(s - {x}, f) + {f(x)};
    }
  }

  /** `__len__` is the length of `to_list`: the three tiers hold disjoint
   *  entries, and distinct positions hold distinct entries. */
  lemma ListingSize(p: Protocol, d: DictState)
    requires Valid(p, d)
    ensures |Listing(d)| == Size(d)
  {
    var S := SetToSeq(StoredItems(d));
    assert |Listing(d)| == |multiset(Listing(d))| == |multiset(S)| == |S|;
    assert IntItems(d) * StrItems(d) == {};
    assert (IntItems(d) + StrItems(d)) * ChainItems(d) == {} by {
      forall x | x in ChainItems(d) ensures x.key.Other? {
        var h, i :| h in d.objects && 0 <= i < |d.objects[h]| && x == ItemAt(d, ObjPos(h, i));
      }
    }
    IntItemsCard(d);
    StrItemsCard(d);
    ChainItemsCard(p, d);
  }

  lemma IntItemsCard(d: DictState)
    ensures |IntItems(d)| == |d.ints|
  {
    var f := (n: int) => if n in d.ints then Item(Int(n), d.ints[n].value, d.ints[n].rank) else Item(PyNone, PyNone, 0);
    InjectiveImageCard(d.ints.Keys, f);
    assert IntItems(d) == Image(d.ints.Keys, f);
  }

  lemma StrItemsCard(d: DictState)
    ensures |StrItems(d)| == |d.strs|
  {
    var f := (s: string) => if s in d.strs then Item(Str(s), d.strs[s].value, d.strs[s].rank) else Item(PyNone, PyNone, 0);
    InjectiveImageCard(d.strs.Keys, f);
    assert StrItems(d) == Image(d.strs.Keys, f);
  }

  lemma ChainItemsCard(p: Protocol, d: DictState)
    requires RanksDistinct(d)
    ensures |ChainItems(d)| == |ChainSlots(d.objects)|
  {
    var f := (x: (int, int)) =>
      if x.0 in d.objects && 0 <= x.1 < |d.objects[x.0]| then ItemAt(d, ObjPos(x.0, x.1)) else Item(PyNone, PyNone, 0);
    forall x, y | x in ChainSlots(d.objects) && y in ChainSlots(d.objects) && f(x) == f(y) ensures x == y {
      InChainSlots(d.objects, x);
      InChainSlots(d.objects, y);
      assert ItemAt(d, ObjPos(x.0, x.1)).rank == ItemAt(d, ObjPos(y.0, y.1)).rank;
    }
    InjectiveImageCard(ChainSlots(d.objects), f);
    forall z ensures z in ChainItems(d) <==> z in Image(ChainSlots(d.objects), f) {
      if z in ChainItems(d) {
        var h, i :| h in d.objects && 0 <= i < |d.objects[h]| && z == ItemAt(d, ObjPos(h, i));
        InChainSlots(d.objects, (h, i));
        assert f((h, i)) == z;
      }
      if z in Image(ChainSlots(d.objects), f) {
        var x :| x in ChainSlots(d.objects) && f(x) == z;
        InChainSlots(d.objects, x);
      }
    }
    assert ChainItems(d) == Image(ChainSlots(d.objects), f);
  }
}
