/**
 * A dictionary object: the four tables, `$version` and `$order` as fields
 * updated in place. Every method is proved to leave the state that the
 * corresponding function of `Store` or `Bulk` describes, and to keep the
 * invariant `Store.Valid`.
 */
module PyDict {
  import opened Objects
  import opened Store
  import opened StoreLaws
  import opened Entries
  import opened Bulk
  import opened Lookup
  import opened Equality
  import opened Properties
  import opened Merge

  /** The positional argument of `update`. */
  datatype UpdateArg = NoArg | DictArg(other: Dict) | Iterable(elements: seq<Element>)

  /** The right operand of `|`. */
  datatype Operand = DictOperand(operand: Dict) | NotADict

  datatype OrResult = NotImplemented | Merged(result: Dict)

  /** The prefix of `l` collected so far by `to_list`, with the positions it came from. */
  ghost predicate Collected(d: DictState, all: seq<Item>, ps: seq<Pos>) {
    && |all| == |ps|
    && (forall i :: 0 <= i < |ps| ==> Holds(d, ps[i]) && all[i] == ItemAt(d, ps[i]))
    && (forall i, j :: 0 <= i < j < |ps| ==> ps[i] != ps[j])
  }

  /** A sequence collected from every position is the listing once sorted. */
  lemma CollectedAll(d: DictState, all: seq<Item>, ps: seq<Pos>)
    requires RanksDistinct(d) && Collected(d, all, ps)
    requires forall q :: Holds(d, q) ==> q in ps
    ensures SortByRank(all) == Listing(d)
  {
    forall i, j | 0 <= i < j < |all| ensures all[i].rank != all[j].rank {
      assert ps[i] != ps[j];
    }
    SortByRankSorted(all);
    var l := SortByRank(all);
    forall x ensures x in l <==> Stored(d, x) {
      assert x in l <==> x in multiset(l);
      assert x in all <==> x in multiset(all);
      if Stored(d, x) {
        var q :| Holds(d, q) && ItemAt(d, q) == x;
        var i :| 0 <= i < |ps| && ps[i] == q;
        assert all[i] == x;
      }
    }
    ListingIsUnique(d, l);
  }

  lemma CollectedPush(d: DictState, all: seq<Item>, ps: seq<Pos>, q: Pos)
    requires Collected(d, all, ps) && Holds(d, q) && q !in ps
    ensures Collected(d, all + [ItemAt(d, q)], ps + [q])
  {
  }

  /** Adding a chain under a new hash adds its length to the number of chain slots. */
  lemma ChainSlotsAdd(m: map<int, seq<Pair>>, h: int, c: seq<Pair>)
    requires h !in m
    ensures |ChainSlots(m[h := c])| == |ChainSlots(m)| + |c|
    decreases |c|
  {
    if c == [] {
      ChainSlotsResize(m, h, c);
    } else {
      var c0 := c[..|c| - 1];
      ChainSlotsAdd(m, h, c0);
      ChainSlotsResize(m[h := c0], h, c);
      assert m[h := c0][h := c] == m[h := c];
    }
  }

  /** One step of the `$copy_dict` loop. */
  lemma CopyLoopStep(p: Protocol, d: DictState, l: seq<(PyObject, PyObject)>, i: nat, watch: Option<nat>)
    requires Valid(p, d) && i < |l|
    ensures Valid(p, Put(p, d, l[i].0, l[i].1, None))
    ensures var d' := Put(p, d, l[i].0, l[i].1, None);
      CopyLoop(p, d, l[i..], watch) ==
        if watch.Some? && d'.version != watch.value then Outcome(d', Some(MutatedDuringUpdate))
        else CopyLoop(p, d', l[i + 1..], watch)
  {
    PutKeepsValid(p, d, l[i].0, l[i].1, None);
    assert l[i..][1..] == l[i + 1..];
  }

  lemma SameMap<K, V>(a: map<K, V>, b: map<K, V>)
    requires a.Keys == b.Keys && forall k :: k in a ==> a[k] == b[k]
    ensures a == b
  {
  }

  /** A `for (k in table) count++` loop. */
  method CountKeys<K>(keys: set<K>) returns (count: nat)
    ensures count == |keys|
  {
    count := 0;
    var rest := keys;
    while rest != {}
      invariant rest <= keys
      invariant count == |keys| - |rest|
      decreases |rest|
    {
      var k := Pick(rest);
      count := count + 1;
      rest := rest - {k};
    }
  }

  /** Any element of a non-empty set: the order of a `for (k in table)` loop. */
  method Pick<T>(s: set<T>) returns (x: T)
    requires s != {}
    ensures x in s
  {
    x :| x in s;
  }

  /** Taking one hash out of the table takes its chain's slots with it. */
  lemma ChainSlotsRemove(m: map<int, seq<Pair>>, h: int)
    requires h in m
    ensures |ChainSlots(m)| == |ChainSlots(m - {h})| + |m[h]|
  {
    ChainSlotsAdd(m - {h}, h, m[h]);
    assert (m - {h})[h := m[h]] == m;
  }

  method CountSlots(m: map<int, seq<Pair>>) returns (count: nat)
    ensures count == |ChainSlots(m)|
  {
    count := 0;
    var rest := m;
    while rest.Keys != {}
      invariant count + |ChainSlots(rest)| == |ChainSlots(m)|
      decreases |rest|
    {
      var h := Pick(rest.Keys);
      ChainSlotsRemove(rest, h);
      count := count + |rest[h]|;
      rest := rest - {h};
    }
    assert ChainSlots(rest) == {};
  }

  class Dict {
    const proto: Protocol
    var ints: map<int, Slot>        // $numeric_dict
    var strs: map<string, Slot>     // $string_dict
    var strHash: map<int, string>   // $str_hash
    var objects: map<int, seq<Pair>> // $object_dict
    var version: nat                // $version
    var order: nat                  // $order

    function State(): DictState
      reads this
    {
      DictState(ints, strs, strHash, objects, version, order)
    }

    ghost predicate Valid()
      reads this
    {
      Store.Valid(proto, State())
    }

    /** `dict.__new__(dict)` / `$B.empty_dict()`. */
    constructor (p: Protocol)
      ensures proto == p && State() == Empty && Valid()
    {
      proto := p;
      ints, strs, strHash, objects := map[], map[], map[], map[];
      version, order := 0, 0;
    }

    /** `rank(self, hash, key)`. */
    method FindRank(h: int, k: PyObject) returns (ix: int)
      ensures ix == Rank(proto, State(), h, k)
    {
      if h !in objects {
        return -1;
      }
      var pairs := objects[h];
      var i := 0;
      while i < |pairs|
        invariant 0 <= i <= |pairs|
        invariant RankFrom(proto, pairs, k, i) == RankFrom(proto, pairs, k, 0)
      {
        if proto.eq(k, pairs[i].key) {
          return i;
        }
        i := i + 1;
      }
      return -1;
    }

    /** `dict.$getitem(self, key)` for a dict without `__missing__`. */
    method GetItem(k: PyObject) returns (r: Result<PyObject>)
      requires Valid()
      ensures r == Store.GetItem(proto, State(), k)
    {
      match k {
        case Str(s) =>
          if s in strs {
            return Ok(strs[s].value);
          }
        case Int(n) =>
          if n in ints {
            return Ok(ints[n].value);
          }
        case Other(_) =>
      }
      var q := FindHashed(k);
      if q.Some? {
        return Ok(ItemAt(State(), q.value).value);
      }
      return Err(KeyError(k));
    }

    /** The hashed part of `$getitem`: by `$str_hash`, by `$numeric_dict[hash]`,
     *  by the string value of a str instance, by the chain. */
    method FindHashed(k: PyObject) returns (q: Option<Pos>)
      requires Valid()
      ensures q == HashTarget(proto, State(), k)
    {
      var h := proto.hash(k);
      if h in strHash && proto.eq(k, Str(strHash[h])) {
        return Some(StrPos(strHash[h]));
      }
      if h in ints && proto.eq(k, Int(h)) {
        return Some(IntPos(h));
      }
      var sv := StrInstanceValue(proto, k);
      if sv.Some? && sv.value in strs {
        return Some(StrPos(sv.value));
      }
      var ix := FindRank(h, k);
      if ix > -1 {
        return Some(ObjPos(h, ix));
      }
      return None;
    }

    /** `dict.$setitem(self, key, value, $hash)`. */
    method SetItem(k: PyObject, v: PyObject, hash: Option<int>)
      requires Valid() && HintSound(proto, State(), k, hash)
      modifies this
      ensures State() == Put(proto, old(State()), k, v, hash)
      ensures Valid()
    {
      ghost var d := State();
      match k {
        case Str(s) =>
          if s in strs {
            strs := strs[s := Slot(v, strs[s].rank)];
          } else {
            strs := strs[s := Slot(v, order)];
            order := order + 1;
            strHash := strHash[proto.hash(k) := s];
            version := version + 1;
          }
        case Int(n) =>
          if n in ints {
            ints := ints[n := Slot(v, ints[n].rank)];
          } else {
            ints := ints[n := Slot(v, order)];
            order := order + 1;
            version := version + 1;
          }
        case Other(_) =>
          SetObject(k, v, hash);
      }
      PutKeepsValid(proto, d, k, v, hash);
    }

    /** The part of `$setitem` for keys that are neither str nor int. */
    method SetObject(k: PyObject, v: PyObject, hash: Option<int>)
      requires k.Other? && StrHashIndexes(proto, State())
      modifies this
      ensures State() == Put(proto, old(State()), k, v, hash)
    {
      ghost var d := State();
      var h := if hash.Some? then hash.value else proto.hash(k);
      if h in ints && proto.eq(k, Int(h)) {
        assert Locate(proto, d, k, hash) == Target(IntPos(h), true);
        ints := ints[h := Slot(v, ints[h].rank)];
        version := version + 1;
        return;
      }
      if h in strHash && proto.eq(k, Str(strHash[h])) {
        var sk := strHash[h];
        assert Locate(proto, d, k, hash) == Target(StrPos(sk), true);
        strs := strs[sk := Slot(v, strs[sk].rank)];
        version := version + 1;
        return;
      }
      if hash.Some? && hash.value != 0 {
        AppendHinted(k, v, hash, h);
        return;
      }
      SetChained(k, v, hash, h);
    }

    /** The `$hash` shortcut of `$setitem`: the pair is appended to the chain
     *  under the given hash without a search. */
    method AppendHinted(k: PyObject, v: PyObject, hash: Option<int>, h: int)
      requires k.Other? && StrHashIndexes(proto, State())
      requires hash.Some? && hash.value != 0 && h == hash.value
      requires !(h in ints && proto.eq(k, Int(h)))
      requires !(h in strHash && proto.eq(k, Str(strHash[h])))
      modifies this
      ensures State() == Put(proto, old(State()), k, v, hash)
    {
      ghost var d := State();
      var chain := if h in objects then objects[h] else [];
      assert Locate(proto, d, k, hash) == Target(ObjPos(h, |chain|), false);
      objects := objects[h := chain + [Pair(k, Slot(v, order))]];
      order := order + 1;
      version := version + 1;
    }

    /** The chain search of `$setitem`: the value of an equal key is replaced
     *  in place, otherwise the pair is appended with a fresh rank. */
    method SetChained(k: PyObject, v: PyObject, hash: Option<int>, h: int)
      requires k.Other? && StrHashIndexes(proto, State())
      requires h == if hash.Some? then hash.value else proto.hash(k)
      requires !(h in ints && proto.eq(k, Int(h)))
      requires !(h in strHash && proto.eq(k, Str(strHash[h])))
      requires !(hash.Some? && hash.value != 0)
      modifies this
      ensures State() == Put(proto, old(State()), k, v, hash)
    {
      ghost var d := State();
      var ix := FindRank(h, k);
      if ix > -1 {
        var chain := objects[h];
        assert Locate(proto, d, k, hash) == Target(ObjPos(h, ix), true);
        objects := objects[h := chain[ix := Pair(chain[ix].key, Slot(v, chain[ix].slot.rank))]];
        return;
      } else if h in objects {
        assert Locate(proto, d, k, hash) == Target(ObjPos(h, |objects[h]|), false);
        objects := objects[h := objects[h] + [Pair(k, Slot(v, order))]];
      } else {
        assert Locate(proto, d, k, hash) == Target(ObjPos(h, 0), false);
        assert ChainAt(d, h) + [Pair(k, Slot(v, order))] == [Pair(k, Slot(v, order))];
        objects := objects[h := [Pair(k, Slot(v, order))]];
      }
      order := order + 1;
      version := version + 1;
    }

    /** `dict.__delitem__(self, key)`, falling back to the entry `$getitem`
     *  reads when the fast path or the chain search misses (see RemoveEqual);
     *  the result is the exception raised, if any. */
    method DelItem(k: PyObject) returns (err: Option<Exception>)
      requires Valid()
      modifies this
      ensures RemoveEqual(proto, old(State()), k).Ok? ==>
        err.None? && State() == RemoveEqual(proto, old(State()), k).value
      ensures RemoveEqual(proto, old(State()), k).Err? ==>
        err == Some(KeyErrorOfStr(k)) && State() == old(State())
      ensures Valid()
    {
      var q := FindDelTarget(k);
      if q.None? {
        return Some(KeyErrorOfStr(k));
      }
      DeleteKeepsValid(proto, State(), q.value);
      DeleteAt(q.value);
      return None;
    }

    /** The entry `__delitem__` removes: the fast paths and the chain search,
     *  then the hashed lookup of `$getitem`. */
    method FindDelTarget(k: PyObject) returns (q: Option<Pos>)
      requires Valid()
      ensures q == DelTargetEqual(proto, State(), k)
    {
      match k {
        case Str(s) =>
          if s in strs {
            return Some(StrPos(s));
          }
        case Int(n) =>
          if n in ints {
            return Some(IntPos(n));
          }
        case Other(_) =>
          var h := proto.hash(k);
          var ix := FindRank(h, k);
          if ix > -1 {
            return Some(ObjPos(h, ix));
          }
      }
      q := FindHashed(k);
    }

    /** Remove the entry at q: `delete` from a table, `splice` from a chain. */
    method DeleteAt(q: Pos)
      requires Holds(State(), q)
      modifies this
      ensures State() == Delete(proto, old(State()), q)
    {
      match q {
        case IntPos(n) =>
          ints := ints - {n};
        case StrPos(s) =>
          strs := strs - {s};
          strHash := strHash - {proto.hash(Str(s))};
        case ObjPos(h, i) =>
          objects := objects[h := objects[h][..i] + objects[h][i + 1..]];
      }
      version := version + 1;
    }

    /** `dict.__len__(self)`: one per numeric key, one per string key, and the chain lengths. */
    method Len() returns (count: nat)
      ensures count == Size(State())
    {
      var ni := CountKeys(ints.Keys);
      var ns := CountKeys(strs.Keys);
      var nc := CountChained();
      count := ni + ns + nc;
    }

    /** The sum of the chain lengths, hash by hash. */
    method CountChained() returns (count: nat)
      ensures count == |ChainSlots(objects)|
    {
      count := CountSlots(objects);
    }

    /** `to_list(self)` before the ranks are dropped: the entries of the
     *  numeric table, the string table and every chain, sorted by rank. */
    method Entries() returns (items: seq<Item>)
      requires Valid()
      ensures items == Listing(State())
      ensures |items| == Size(State())
    {
      ghost var d := State();
      var all: seq<Item>;
      ghost var ps: seq<Pos>;
      all, ps := CollectInts(d);
      all, ps := CollectStrs(d, all, ps);
      all, ps := CollectChains(d, all, ps);
      CollectedAll(d, all, ps);
      items := SortByRank(all);
      ListingSize(proto, d);
    }

    method CollectInts(ghost d: DictState) returns (all: seq<Item>, ghost ps: seq<Pos>)
      requires d == State()
      ensures Collected(d, all, ps)
      ensures forall q :: Holds(d, q) ==> (q in ps <==> q.IntPos?)
    {
      all, ps := [], [];
      var keys := ints.Keys;
      while keys != {}
        invariant keys <= ints.Keys
        invariant Collected(d, all, ps)
        invariant forall q :: Holds(d, q) ==> (q in ps <==> q.IntPos? && q.n !in keys)
        decreases |keys|
      {
        var n := Pick(keys);
        CollectedPush(d, all, ps, IntPos(n));
        all := all + [Item(Int(n), ints[n].value, ints[n].rank)];
        ps := ps + [IntPos(n)];
        keys := keys - {n};
      }
    }

    method CollectStrs(ghost d: DictState, all0: seq<Item>, ghost ps0: seq<Pos>) returns (all: seq<Item>, ghost ps: seq<Pos>)
      requires d == State() && Collected(d, all0, ps0)
      requires forall q :: Holds(d, q) ==> (q in ps0 <==> q.IntPos?)
      ensures Collected(d, all, ps)
      ensures forall q :: Holds(d, q) ==> (q in ps <==> !q.ObjPos?)
    {
      all, ps := all0, ps0;
      var keys := strs.Keys;
      while keys != {}
        invariant keys <= strs.Keys
        invariant Collected(d, all, ps)
        invariant forall q :: Holds(d, q) ==> (q in ps <==> q.IntPos? || (q.StrPos? && q.s !in keys))
        decreases |keys|
      {
        var s := Pick(keys);
        CollectedPush(d, all, ps, StrPos(s));
        all := all + [Item(Str(s), strs[s].value, strs[s].rank)];
        ps := ps + [StrPos(s)];
        keys := keys - {s};
      }
    }

    method CollectChains(ghost d: DictState, all0: seq<Item>, ghost ps0: seq<Pos>) returns (all: seq<Item>, ghost ps: seq<Pos>)
      requires d == State() && Collected(d, all0, ps0)
      requires forall q :: Holds(d, q) ==> (q in ps0 <==> !q.ObjPos?)
      ensures Collected(d, all, ps)
      ensures forall q :: Holds(d, q) ==> q in ps
    {
      all, ps := all0, ps0;
      var hashes := objects.Keys;
      while hashes != {}
        invariant hashes <= objects.Keys
        invariant Collected(d, all, ps)
        invariant forall q :: Holds(d, q) ==> (q in ps <==> !q.ObjPos? || q.h !in hashes)
        decreases |hashes|
      {
        var h := Pick(hashes);
        all, ps := CollectChain(d, h, hashes, all, ps);
        hashes := hashes - {h};
      }
    }

    /** One chain, in order. */
    method CollectChain(ghost d: DictState, h: int, ghost hashes: set<int>, all0: seq<Item>, ghost ps0: seq<Pos>)
      returns (all: seq<Item>, ghost ps: seq<Pos>)
      requires d == State() && h in objects && h in hashes && Collected(d, all0, ps0)
      requires forall q :: Holds(d, q) ==> (q in ps0 <==> !q.ObjPos? || q.h !in hashes)
      ensures Collected(d, all, ps)
      ensures forall q :: Holds(d, q) ==> (q in ps <==> !q.ObjPos? || q.h !in hashes - {h})
    {
      all, ps := all0, ps0;
      var pairs := objects[h];
      var j := 0;
      while j < |pairs|
        invariant 0 <= j <= |pairs|
        invariant Collected(d, all, ps)
        invariant forall q :: Holds(d, q) ==>
          (q in ps <==> !q.ObjPos? || q.h !in hashes || (q.h == h && q.i < j))
      {
        CollectedPush(d, all, ps, ObjPos(h, j));
        all := all + [Item(pairs[j].key, pairs[j].slot.value, pairs[j].slot.rank)];
        ps := ps + [ObjPos(h, j)];
        j := j + 1;
      }
    }

    /** `to_list(self)`: the (key, value) pairs in insertion order. */
    method ToList() returns (l: seq<(PyObject, PyObject)>)
      requires Valid()
      ensures l == PairsOf(Listing(State()))
    {
      var items := Entries();
      l := PairsOf(items);
    }

    /** `dict.clear(self)`. */
    method Clear()
      requires Valid()
      modifies this
      ensures State() == DictState(map[], map[], map[], map[], old(version) + 1, 0)
      ensures Valid()
    {
      ints, strs, strHash, objects := map[], map[], map[], map[];
      version := version + 1;
      order := 0;
    }

    /** `dict.pop(self, key[, default])`, with the `__delitem__` of DelItem. */
    method Pop(k: PyObject, default: Option<PyObject>) returns (r: Result<PyObject>)
      requires Valid()
      modifies this
      ensures Popped(r, State()) == PopEqual(proto, old(State()), k, default)
      ensures Valid()
    {
      var g := GetItem(k);
      if g.Err? {
        return if default.Some? then Ok(default.value) else Err(g.error);
      }
      // `__delitem__` cannot fail where `$getitem` has found the key
      var e := DelItem(k);
      assert e.None?;
      return Ok(g.value);
    }

    /** `dict.popitem(self)`: Ok(None) when the `__delitem__` it calls fails,
     *  which `popitem` swallows. */
    method PopItem() returns (r: Result<Option<(PyObject, PyObject)>>)
      requires Valid()
      modifies this
      ensures Popped(r, State()) == Bulk.PopItem(proto, old(State()))
      ensures Valid()
    {
      var items := Entries();
      if items == [] {
        return Err(EmptyDictKeyError);
      }
      var e := DelItem(items[0].key);
      if e.Some? {
        return Ok(None);
      }
      return Ok(Some((items[0].key, items[0].value)));
    }

    /** `dict.setdefault(self, key, default)`. */
    method SetDefault(k: PyObject, default: PyObject) returns (r: PyObject)
      requires Valid()
      modifies this
      ensures (r, State()) == Bulk.SetDefault(proto, old(State()), k, default)
      ensures Valid()
    {
      var g := GetItem(k);
      if g.Ok? {
        return g.value;
      }
      SetDefaultHintSound(proto, State(), k);
      PutHintAgrees(proto, State(), k, default);
      SetItem(k, default, CachedHash(proto, k));
      return default;
    }

    /** One element of `init_from_list`. */
    method InitItem(k: PyObject, v: PyObject)
      requires Valid()
      modifies this
      ensures State() == InitStep(proto, old(State()), k, v)
      ensures Valid()
    {
      InitStepKeepsValid(proto, State(), k, v);
      match k {
        case Str(s) =>
          strs := strs[s := Slot(v, order)];
          order := order + 1;
          strHash := strHash[proto.hash(k) := s];
          version := version + 1;
        case Int(n) =>
          ints := ints[n := Slot(v, order)];
          order := order + 1;
          version := version + 1;
        case Other(_) =>
          SetItem(k, v, None);
      }
    }

    /** `init_from_list(self, args)`: `item[0]` and `item[1]` of each element. */
    method InitFromList(es: seq<Element>) returns (err: Option<Exception>)
      requires Valid()
      modifies this
      ensures Outcome(State(), err) == InitLoop(proto, old(State()), es, 0)
      ensures Valid()
    {
      var i := 0;
      while i < |es|
        invariant 0 <= i <= |es|
        invariant Valid()
        invariant InitLoop(proto, State(), es, i) == InitLoop(proto, old(State()), es, 0)
      {
        var e := es[i];
        if !(e.Sequence? && |e.items| >= 2) {
          return Some(ShortElement(i));
        }
        InitItem(e.items[0], e.items[1]);
        i := i + 1;
      }
      return None;
    }

    /** `$copy_dict(self, right)`: `$setitem` of every pair of `to_list(right)`,
     *  raising RuntimeError as soon as `right.$version` moves. */
    method CopyFrom(right: Dict) returns (err: Option<Exception>)
      requires Valid() && right.Valid() && right.proto == proto
      modifies this
      ensures Outcome(State(), err) ==
        CopyLoop(proto, old(State()), PairsOf(Listing(old(right.State()))), if right == this then Some(old(version)) else None)
      ensures Valid()
    {
      var l := right.ToList();
      err := CopyPairs(l, right, if right == this then Some(version) else None);
    }

    /** The loop of `$copy_dict` over the pairs already listed from `right`. */
    method CopyPairs(l: seq<(PyObject, PyObject)>, right: Dict?, ghost watch: Option<nat>) returns (err: Option<Exception>)
      requires Valid()
      requires watch.Some? <==> right == this
      requires watch.Some? ==> watch.value == version
      modifies this
      ensures Outcome(State(), err) == CopyLoop(proto, old(State()), l, watch)
      ensures Valid()
    {
      var rightVersion := if right != null then right.version else 0;
      var i := 0;
      while i < |l|
        invariant 0 <= i <= |l|
        invariant Valid()
        invariant right != null && right != this ==> right.version == rightVersion
        invariant right == this ==> rightVersion == watch.value
        invariant CopyLoop(proto, State(), l[i..], watch) == CopyLoop(proto, old(State()), l, watch)
      {
        ghost var d := State();
        CopyLoopStep(proto, d, l, i, watch);
        SetItem(l[i].0, l[i].1, None);
        if right != null && right.version != rightVersion {
          assert watch.Some? && version != watch.value;
          return Some(MutatedDuringUpdate);
        }
        assert CopyLoop(proto, State(), l[i + 1..], watch) == CopyLoop(proto, d, l[i..], watch);
        i := i + 1;
      }
      assert l[i..] == [];
      return None;
    }

    /** `dict.update(self, arg, **kw)`, without the generic mapping path. */
    method Update(arg: UpdateArg, kw: seq<(string, PyObject)>) returns (err: Option<Exception>)
      requires Valid()
      requires arg.DictArg? ==> arg.other.Valid() && arg.other.proto == proto
      modifies this
      ensures var src := match arg
        case NoArg => NoSource
        case DictArg(o) => Copied(PairsOf(Listing(old(o.State()))), o == this)
        case Iterable(es) => Elements(es);
        Outcome(State(), err) == Bulk.Update(proto, old(State()), src, kw)
      ensures Valid()
    {
      ghost var d := State();
      ghost var src := match arg
        case NoArg => NoSource
        case DictArg(o) => Copied(PairsOf(Listing(o.State())), o == this)
        case Iterable(es) => Elements(es);
      match arg {
        case NoArg =>
          err := None;
        case DictArg(o) =>
          err := CopyFrom(o);
        case Iterable(es) =>
          err := SetElements(es);
      }
      UpdateFirst(proto, d, src, kw, Outcome(State(), err));
      if err.Some? {
        return;
      }
      err := CopyPairs(KeywordPairs(kw), null, None);
      VersionFree(proto, State(), version + 1);
      version := version + 1;
    }

    /** The loop of `update` over an iterable: each element must be a sequence of length 2. */
    method SetElements(es: seq<Element>) returns (err: Option<Exception>)
      requires Valid()
      modifies this
      ensures Outcome(State(), err) == PairsLoop(proto, old(State()), es, 0)
      ensures Valid()
    {
      var i := 0;
      while i < |es|
        invariant 0 <= i <= |es|
        invariant Valid()
        invariant PairsLoop(proto, State(), es, i) == PairsLoop(proto, old(State()), es, 0)
      {
        var e := es[i];
        if e.NotSequence? {
          return Some(NotASequence(i));
        }
        if |e.items| != 2 {
          return Some(BadLength(i, |e.items|));
        }
        SetItem(e.items[0], e.items[1], None);
        i := i + 1;
      }
      return None;
    }

    /** `dict.__contains__(self, key)`, with the str and int fast paths falling
     *  through to the hashed lookup as `$getitem` does (see ContainsKey). */
    method Contains(k: PyObject) returns (b: bool)
      requires Valid()
      ensures b == ContainsKey(proto, State(), k)
    {
      match k {
        case Str(s) =>
          if s in strs {
            return true;
          }
        case Int(n) =>
          if n in ints {
            return true;
          }
        case Other(_) =>
      }
      var q := FindHashed(k);
      return q.Some?;
    }

    /** `dict.copy(self)`: a new dict filled by `$copy_dict`. */
    method Copy() returns (res: Dict)
      requires Valid()
      ensures fresh(res) && res.proto == proto && res.Valid()
      ensures res.State() == CopyLoop(proto, Empty, PairsOf(Listing(State())), None).state
    {
      res := new Dict(proto);
      var e := res.CopyFrom(this);
    }

    /** `dict.__or__(self, other)`: a copy of self updated with other. */
    method Or(other: Operand) returns (r: OrResult)
      requires Valid()
      requires other.DictOperand? ==> other.operand.Valid() && other.operand.proto == proto
      ensures other.NotADict? ==> r == NotImplemented
      ensures other.DictOperand? ==> r.Merged? && fresh(r.result) && r.result.Valid()
      ensures other.DictOperand? ==>
        var copied := CopyLoop(proto, Empty, PairsOf(Listing(State())), None).state;
        r.result.State() == Bulk.Update(proto, copied, Copied(PairsOf(Listing(other.operand.State())), false), []).state
      // the merge: see Merge.UpdateGets and Merge.OrKeepsLeft
      ensures other.DictOperand? && Lawful(proto) && StrInstancesExact(proto) ==>
        var o := other.operand.State();
        UniqueKeys(proto, o) && NoStrInstances(proto, o) ==>
          forall q :: Holds(o, q) ==> Store.GetItem(proto, r.result.State(), ItemAt(o, q).key) == Ok(ItemAt(o, q).value)
      ensures other.DictOperand? && Lawful(proto) && StrInstancesExact(proto) ==>
        UniqueKeys(proto, State()) && NoStrInstances(proto, State()) ==>
          forall q :: Holds(State(), q) && !KeyStored(proto, other.operand.State(), ItemAt(State(), q).key) ==>
            Store.GetItem(proto, r.result.State(), ItemAt(State(), q).key) == Ok(ItemAt(State(), q).value)
    {
      if other.NotADict? {
        return NotImplemented;
      }
      var res := Copy();
      ghost var copied := res.State();
      var e := res.Update(DictArg(other.operand), []);
      if Lawful(proto) && StrInstancesExact(proto) {
        var d, o := State(), other.operand.State();
        if UniqueKeys(proto, o) && NoStrInstances(proto, o) {
          forall q | Holds(o, q) ensures Store.GetItem(proto, res.State(), ItemAt(o, q).key) == Ok(ItemAt(o, q).value) {
            UpdateGets(proto, copied, o, q);
          }
        }
        if UniqueKeys(proto, d) && NoStrInstances(proto, d) {
          forall q | Holds(d, q) && !KeyStored(proto, o, ItemAt(d, q).key)
            ensures Store.GetItem(proto, res.State(), ItemAt(d, q).key) == Ok(ItemAt(d, q).value)
          {
            OrKeepsLeft(proto, d, o, q);
          }
        }
      }
      return Merged(res);
    }

    /** `dict.__ior__(self, other)`: `update(other)` in place; other may be
     *  any argument `update` accepts. */
    method Ior(arg: UpdateArg) returns (err: Option<Exception>)
      requires Valid() && !arg.NoArg?
      requires arg.DictArg? ==> arg.other.Valid() && arg.other.proto == proto
      modifies this
      ensures var src := match arg
        case NoArg => NoSource
        case DictArg(o) => Copied(PairsOf(Listing(old(o.State()))), o == this)
        case Iterable(es) => Elements(es);
        Outcome(State(), err) == Bulk.Update(proto, old(State()), src, [])
      ensures Valid()
      // the merge, for a dict other than self: see Merge.UpdateGets and Merge.UpdateFrames
      ensures arg.DictArg? && arg.other != this && Lawful(proto) && StrInstancesExact(proto) ==>
        var o := old(arg.other.State());
        UniqueKeys(proto, o) && NoStrInstances(proto, o) ==>
          forall q :: Holds(o, q) ==> Store.GetItem(proto, State(), ItemAt(o, q).key) == Ok(ItemAt(o, q).value)
      ensures arg.DictArg? && arg.other != this && Lawful(proto) && StrInstancesExact(proto) ==>
        forall k: PyObject :: (k.Other? ==> proto.strValue(k).None?) && !KeyStored(proto, old(arg.other.State()), k) ==>
          Store.GetItem(proto, State(), k) == Store.GetItem(proto, old(State()), k)
    {
      ghost var d := State();
      err := Update(arg, []);
      if arg.DictArg? && arg.other != this && Lawful(proto) && StrInstancesExact(proto) {
        var o := arg.other.State();
        if UniqueKeys(proto, o) && NoStrInstances(proto, o) {
          forall q | Holds(o, q) ensures Store.GetItem(proto, State(), ItemAt(o, q).key) == Ok(ItemAt(o, q).value) {
            UpdateGets(proto, d, o, q);
          }
        }
        forall k: PyObject | (k.Other? ==> proto.strValue(k).None?) && !KeyStored(proto, o, k)
          ensures Store.GetItem(proto, State(), k) == Store.GetItem(proto, d, k)
        {
          UpdateFrames(proto, d, o, k);
        }
      }
    }

    /** `dict.__eq__(self, other)`, without the early return for a hash with
     *  no pair in other (see Equals). */
    method Equals(other: Operand) returns (b: bool)
      ensures other.NotADict? ==> !b
      ensures other.DictOperand? ==> b == Equality.Equals(proto, State(), other.operand.State())
    {
      if other.NotADict? {
        return false;
      }
      var o := other.operand;
      var n := Len();
      var m := o.Len();
      if n != m {
        return false;
      }
      b := MatchInts(o);
      if !b {
        return;
      }
      b := MatchStrs(o);
      if !b {
        return;
      }
      b := MatchChains(o);
    }

    /** `dict.__ne__(self, other)`. */
    method NotEquals(other: Operand) returns (b: bool)
      ensures other.NotADict? ==> b
      ensures other.DictOperand? ==> b == !Equality.Equals(proto, State(), other.operand.State())
    {
      b := Equals(other);
      b := !b;
    }

    /** The loop of `__eq__` over the numeric table. */
    method MatchInts(o: Dict) returns (b: bool)
      ensures b == IntsMatch(proto, State(), o.State())
    {
      var keys := ints.Keys;
      while keys != {}
        invariant keys <= ints.Keys
        invariant forall n :: n in ints && n !in keys ==> IntEntryMatches(proto, State(), o.State(), n)
        decreases |keys|
      {
        var n := Pick(keys);
        var ok := MatchInt(o, n);
        if !ok {
          return false;
        }
        keys := keys - {n};
      }
      return true;
    }

    method MatchInt(o: Dict, n: int) returns (b: bool)
      requires n in ints
      ensures b == IntEntryMatches(proto, State(), o.State(), n)
    {
      if n in o.ints {
        return proto.eq(o.ints[n].value, ints[n].value);
      }
      if n !in o.objects {
        return false;
      }
      var pairs := o.objects[n];
      var key := Str(Decimal(n));
      var i := 0;
      while i < |pairs|
        invariant 0 <= i <= |pairs|
        invariant forall j :: 0 <= j < i ==> !(proto.eq(key, pairs[j].key) && SlotsEqual(proto, ints[n], pairs[j].slot))
      {
        if proto.eq(key, pairs[i].key) && proto.eq(ints[n].value, pairs[i].slot.value)
          && proto.eq(Int(ints[n].rank), Int(pairs[i].slot.rank)) {
          return true;
        }
        i := i + 1;
      }
      return false;
    }

    /** The loop of `__eq__` over the string table. */
    method MatchStrs(o: Dict) returns (b: bool)
      ensures b == StrsMatch(proto, State(), o.State())
    {
      var keys := strs.Keys;
      while keys != {}
        invariant keys <= strs.Keys
        invariant forall s :: s in strs && s !in keys ==> StrEntryMatches(proto, State(), o.State(), s)
        decreases |keys|
      {
        var s := Pick(keys);
        if s !in o.strs || !proto.eq(o.strs[s].value, strs[s].value) {
          return false;
        }
        keys := keys - {s};
      }
      return true;
    }

    /** The loop of `__eq__` over the object table. */
    method MatchChains(o: Dict) returns (b: bool)
      ensures b == ChainsMatch(proto, State(), o.State())
    {
      var hashes := objects.Keys;
      while hashes != {}
        invariant hashes <= objects.Keys
        invariant forall h :: h in objects && h !in hashes ==> ChainMatches(proto, State(), o.State(), h)
        decreases |hashes|
      {
        var h := Pick(hashes);
        var otherPairs := if h in o.ints then [Pair(Str(Decimal(h)), o.ints[h])] else [];
        if h in o.objects {
          otherPairs := otherPairs + o.objects[h];
        }
        assert otherPairs == OtherPairs(o.State(), h);
        var pairs := objects[h];
        var i := 0;
        while i < |pairs|
          invariant 0 <= i <= |pairs|
          invariant forall j :: 0 <= j < i ==> PairFound(proto, pairs[j].key, pairs[j].slot.value, otherPairs)
        {
          var found := FindPair(pairs[i].key, pairs[i].slot.value, otherPairs);
          if !found {
            return false;
          }
          i := i + 1;
        }
        hashes := hashes - {h};
      }
      return true;
    }

    /** The innermost loop of `__eq__`: a pair with an equal key and an equal value. */
    method FindPair(k: PyObject, v: PyObject, pairs: seq<Pair>) returns (found: bool)
      ensures found == PairFound(proto, k, v, pairs)
    {
      var j := 0;
      while j < |pairs|
        invariant 0 <= j <= |pairs|
        invariant forall m :: 0 <= m < j ==> !(proto.eq(k, pairs[m].key) && proto.eq(v, pairs[m].slot.value))
      {
        if proto.eq(k, pairs[j].key) && proto.eq(v, pairs[j].slot.value) {
          return true;
        }
        j := j + 1;
      }
      return false;
    }
  }
}
