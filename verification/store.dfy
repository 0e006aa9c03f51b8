/**
 * The partitioned table layout of a dictionary, as a value, and the
 * operations of the dictionary on it: lookups, the chain search, insertion
 * and deletion. The `Dict` class (dict.dfy) performs the same operations in
 * place and is proved to agree with the functions here.
 */
module Store {
  import opened Objects

  /** The `[value, rank]` pair stored for every key. */
  datatype Slot = Slot(value: PyObject, rank: nat)

  /** One entry `[key, [value, rank]]` of a collision chain. */
  datatype Pair = Pair(key: PyObject, slot: Slot)

  /** The state of a dictionary:
   *  `$numeric_dict`, `$string_dict`, `$str_hash`, `$object_dict`,
   *  `$version` and `$order`. */
  datatype DictState = DictState(
    ints: map<int, Slot>,
    strs: map<string, Slot>,
    strHash: map<int, string>,
    objects: map<int, seq<Pair>>,
    version: nat,
    order: nat)

  /** A fresh dictionary (`$B.empty_dict`, `dict.__new__`). */
  const Empty: DictState := DictState(map[], map[], map[], map[], 0, 0)

  /** An entry as `to_list` sees it before dropping the rank. */
  datatype Item = Item(key: PyObject, value: PyObject, rank: nat)

  /** Where an entry lives: a numeric key, a string key, or index i of the chain under hash h. */
  datatype Pos = IntPos(n: int) | StrPos(s: string) | ObjPos(h: int, i: nat)

  function ChainAt(d: DictState, h: int): seq<Pair> {
    if h in d.objects then d.objects[h] else []
  }

  predicate Holds(d: DictState, q: Pos) {
    match q
    case IntPos(n) => n in d.ints
    case StrPos(s) => s in d.strs
    case ObjPos(h, i) => h in d.objects && i < |d.objects[h]|
  }

  function ItemAt(d: DictState, q: Pos): Item
    requires Holds(d, q)
  {
    match q
    case IntPos(n) => Item(Int(n), d.ints[n].value, d.ints[n].rank)
    case StrPos(s) => Item(Str(s), d.strs[s].value, d.strs[s].rank)
    case ObjPos(h, i) => Item(d.objects[h][i].key, d.objects[h][i].slot.value, d.objects[h][i].slot.rank)
  }

  // ---------------------------------------------------------------------
  // The invariant every reachable state keeps

  /** Every rank was handed out by `$order`. */
  ghost predicate RanksBelowOrder(d: DictState) {
    forall q :: Holds(d, q) ==> ItemAt(d, q).rank < d.order
  }

  /** No two entries share a rank. */
  ghost predicate RanksDistinct(d: DictState) {
    forall q1, q2 :: Holds(d, q1) && Holds(d, q2) && ItemAt(d, q1).rank == ItemAt(d, q2).rank ==> q1 == q2
  }

  /** `$str_hash[h]` is a stored string whose hash is h. */
  ghost predicate StrHashIndexes(p: Protocol, d: DictState) {
    forall h :: h in d.strHash ==> d.strHash[h] in d.strs && p.hash(Str(d.strHash[h])) == h
  }

  /** Chains hold only non-fast-path keys, each under its own hash. */
  ghost predicate ChainsHashed(p: Protocol, d: DictState) {
    forall h, i :: h in d.objects && 0 <= i < |d.objects[h]| ==>
      d.objects[h][i].key.Other? && p.hash(d.objects[h][i].key) == h
  }

  /** No chain entry equals an earlier entry of its chain. */
  ghost predicate ChainsDistinct(p: Protocol, d: DictState) {
    forall h, i, j :: h in d.objects && 0 <= i < j < |d.objects[h]| ==>
      !p.eq(d.objects[h][j].key, d.objects[h][i].key)
  }

  ghost predicate Valid(p: Protocol, d: DictState) {
    && RanksBelowOrder(d)
    && RanksDistinct(d)
    && StrHashIndexes(p, d)
    && ChainsHashed(p, d)
    && ChainsDistinct(p, d)
  }

  // ---------------------------------------------------------------------
  // Size

  /** The (hash, index) slots of all chains: as many as the chain lengths add up to. */
  function ChainSlots(objects: map<int, seq<Pair>>): set<(int, int)> {
    set h, i | h in objects && 0 <= i < |objects[h]| :: (h, i)
  }

  /** What `dict.__len__` counts. */
  function Size(d: DictState): nat {
    |d.ints| + |d.strs| + |ChainSlots(d.objects)|
  }

  // ---------------------------------------------------------------------
  // Chain search

  /** The loop of `rank` from index i on. */
  function RankFrom(p: Protocol, chain: seq<Pair>, k: PyObject, i: nat): (r: int)
    requires i <= |chain|
    ensures r == -1 || i <= r < |chain|
    ensures r == -1 ==> forall j :: i <= j < |chain| ==> !p.eq(k, chain[j].key)
    ensures r != -1 ==> p.eq(k, chain[r].key) && forall j :: i <= j < r ==> !p.eq(k, chain[j].key)
    decreases |chain| - i
  {
    if i == |chain| then -1
    else if p.eq(k, chain[i].key) then i
    else RankFrom(p, chain, k, i + 1)
  }

  /** `rank(self, hash, key)`: the index of the first entry of chain h equal to k, or -1. */
  function Rank(p: Protocol, d: DictState, h: int, k: PyObject): (r: int)
    ensures h !in d.objects ==> r == -1
    ensures r == -1 <==> forall j :: 0 <= j < |ChainAt(d, h)| ==> !p.eq(k, ChainAt(d, h)[j].key)
    ensures r != -1 ==>
      && 0 <= r < |ChainAt(d, h)| && p.eq(k, ChainAt(d, h)[r].key)
      && forall j :: 0 <= j < r ==> !p.eq(k, ChainAt(d, h)[j].key)
  {
    if h in d.objects then
      var r := RankFrom(p, d.objects[h], k, 0);
      assert r != -1 ==> p.eq(k, ChainAt(d, h)[r].key);
      r
    else -1
  }

  // ---------------------------------------------------------------------
  // Lookups

  /** The hashed part of `$getitem` (lines after the fast paths): by `$str_hash`,
   *  by `$numeric_dict[hash]`, by the string value of a str instance, by the chain. */
  function HashLookup(p: Protocol, d: DictState, k: PyObject): (r: Result<PyObject>)
    requires StrHashIndexes(p, d)
    // a miss raises KeyError(k), and only when the chain under k's hash has no equal key
    ensures r.Err? ==> r.error == KeyError(k) && Rank(p, d, p.hash(k), k) == -1
  {
    var h := p.hash(k);
    if h in d.strHash && p.eq(k, Str(d.strHash[h])) then Ok(d.strs[d.strHash[h]].value)
    else if h in d.ints && p.eq(k, Int(h)) then Ok(d.ints[h].value)
    else if StrInstanceValue(p, k).Some? && StrInstanceValue(p, k).value in d.strs then
      Ok(d.strs[StrInstanceValue(p, k).value].value)
    else
      var ix := Rank(p, d, h, k);
      if ix > -1 then Ok(d.objects[h][ix].slot.value) else Err(KeyError(k))
  }

  /** `dict.$getitem` on a dict whose class is `dict` (no `__missing__`). */
  function GetItem(p: Protocol, d: DictState, k: PyObject): (r: Result<PyObject>)
    requires StrHashIndexes(p, d)
    ensures r.Err? ==> r.error == KeyError(k)
    // a str or int key stored under its own table is always found
    ensures k.Str? && k.s in d.strs ==> r == Ok(d.strs[k.s].value)
    ensures k.Int? && k.i in d.ints ==> r == Ok(d.ints[k.i].value)
  {
    match k
    case Str(s) => if s in d.strs then Ok(d.strs[s].value) else HashLookup(p, d, k)
    case Int(n) => if n in d.ints then Ok(d.ints[n].value) else HashLookup(p, d, k)
    case Other(_) => HashLookup(p, d, k)
  }

  /** `dict.__contains__`: the fast paths answer alone for ints and strings. */
  function Contains(p: Protocol, d: DictState, k: PyObject): (b: bool)
    // what `in` reports, `d[key]` finds
    ensures b && StrHashIndexes(p, d) ==> GetItem(p, d, k).Ok?
  {
    match k
    case Str(s) => s in d.strs
    case Int(n) => n in d.ints
    case Other(_) =>
      var h := p.hash(k);
      || (h in d.strHash && p.eq(k, Str(d.strHash[h])))
      || (h in d.ints && p.eq(k, Int(h)))
      || Rank(p, d, h, k) > -1
  }

  // ---------------------------------------------------------------------
  // Insertion

  /** Where `$setitem` writes key k, and whether an entry is already there. */
  datatype Target = Target(pos: Pos, present: bool)

  /** The slot `$setitem` chooses. `hash` is the `$hash` argument that only
   *  `setdefault` passes; a non-zero one skips the chain search. */
  function Locate(p: Protocol, d: DictState, k: PyObject, hash: Option<int>): (t: Target)
    requires StrHashIndexes(p, d)
    ensures t.present <==> Holds(d, t.pos)
    ensures k.Str? ==> t.pos == StrPos(k.s)
    ensures k.Int? ==> t.pos == IntPos(k.i)
    ensures k.Other? && t.present ==> p.eq(k, ItemAt(d, t.pos).key)
    ensures k.Other? && !t.present ==>
      var h := if hash.Some? then hash.value else p.hash(k);
      t.pos == ObjPos(h, |ChainAt(d, h)|)
    // without a non-zero `$hash`, a new object key equals nothing in its chain
    ensures k.Other? && !t.present && !(hash.Some? && hash.value != 0) ==>
      Rank(p, d, if hash.Some? then hash.value else p.hash(k), k) == -1
  {
    match k
    case Str(s) => Target(StrPos(s), s in d.strs)
    case Int(n) => Target(IntPos(n), n in d.ints)
    case Other(_) =>
      var h := if hash.Some? then hash.value else p.hash(k);
      if h in d.ints && p.eq(k, Int(h)) then Target(IntPos(h), true)
      else if h in d.strHash && p.eq(k, Str(d.strHash[h])) then Target(StrPos(d.strHash[h]), true)
      else if hash.Some? && hash.value != 0 then Target(ObjPos(h, |ChainAt(d, h)|), false)
      else
        var ix := Rank(p, d, h, k);
        if ix > -1 then Target(ObjPos(h, ix), true) else Target(ObjPos(h, |ChainAt(d, h)|), false)
  }

  /** Store `slot` at position q; a chain position just past the end appends `[k, slot]`. */
  function Write(d: DictState, q: Pos, k: PyObject, slot: Slot): DictState
    requires q.ObjPos? ==> q.i <= |ChainAt(d, q.h)|
  {
    match q
    case IntPos(n) => d.(ints := d.ints[n := slot])
    case StrPos(s) => d.(strs := d.strs[s := slot])
    case ObjPos(h, i) =>
      var c := ChainAt(d, h);
      d.(objects := d.objects[h := if i < |c| then c[i := Pair(c[i].key, slot)] else c + [Pair(k, slot)]])
  }

  /** `dict.$setitem(self, key, value, $hash)`: a present entry keeps its rank,
   *  a new one takes `$order`. */
  function Put(p: Protocol, d: DictState, k: PyObject, v: PyObject, hash: Option<int>): (r: DictState)
    requires StrHashIndexes(p, d)
    ensures StrHashIndexes(p, r)
    // an absent str or int key
    ensures k.Str? && k.s !in d.strs ==>
      && r.strs == d.strs[k.s := Slot(v, d.order)]
      && r.strHash == d.strHash[p.hash(k) := k.s]
      && r.ints == d.ints && r.objects == d.objects
      && r.order == d.order + 1 && r.version == d.version + 1
    ensures k.Int? && k.i !in d.ints ==>
      && r.ints == d.ints[k.i := Slot(v, d.order)]
      && r.strs == d.strs && r.strHash == d.strHash && r.objects == d.objects
      && r.order == d.order + 1 && r.version == d.version + 1
    // a present str or int key
    ensures k.Str? && k.s in d.strs ==>
      r == d.(strs := d.strs[k.s := Slot(v, d.strs[k.s].rank)])
    ensures k.Int? && k.i in d.ints ==>
      r == d.(ints := d.ints[k.i := Slot(v, d.ints[k.i].rank)])
    // an object key equal to a stored int or str: value replaced, `$version` bumped
    ensures k.Other? && Locate(p, d, k, hash).present && Locate(p, d, k, hash).pos.IntPos? ==>
      var n := Locate(p, d, k, hash).pos.n;
      r == d.(ints := d.ints[n := Slot(v, d.ints[n].rank)], version := d.version + 1)
    ensures k.Other? && Locate(p, d, k, hash).present && Locate(p, d, k, hash).pos.StrPos? ==>
      var s := Locate(p, d, k, hash).pos.s;
      r == d.(strs := d.strs[s := Slot(v, d.strs[s].rank)], version := d.version + 1)
    // an object key found in its chain: value replaced in place
    ensures k.Other? && Locate(p, d, k, hash).present && Locate(p, d, k, hash).pos.ObjPos? ==>
      var h := Locate(p, d, k, hash).pos.h;
      var ix := Locate(p, d, k, hash).pos.i;
      && ix < |d.objects[h]|
      && r == d.(objects := d.objects[h := d.objects[h][ix := Pair(d.objects[h][ix].key, Slot(v, d.objects[h][ix].slot.rank))]])
    // an object key found nowhere: appended to the end of its chain with a fresh rank
    ensures k.Other? && !Locate(p, d, k, hash).present ==>
      var h := if hash.Some? then hash.value else p.hash(k);
      && r.objects == d.objects[h := ChainAt(d, h) + [Pair(k, Slot(v, d.order))]]
      && r.ints == d.ints && r.strs == d.strs && r.strHash == d.strHash
      && r.order == d.order + 1 && r.version == d.version + 1
  {
    var t := Locate(p, d, k, hash);
    var rank := if t.present then ItemAt(d, t.pos).rank else d.order;
    var w := Write(d, t.pos, k, Slot(v, rank));
    w.(strHash := if k.Str? && !t.present then d.strHash[p.hash(k) := k.s] else d.strHash,
       order := if t.present then d.order else d.order + 1,
       version := if !t.present || (k.Other? && !t.pos.ObjPos?) then d.version + 1 else d.version)
  }

  /** `$setitem` as it is evidently meant: a str or int key missing from its
   *  own table replaces the value of an equal key in the chain under its
   *  hash, instead of being stored beside it. */
  function PutEqual(p: Protocol, d: DictState, k: PyObject, v: PyObject, hash: Option<int>): (r: DictState)
    requires StrHashIndexes(p, d)
    ensures StrHashIndexes(p, r)
    // it is `$setitem` as written unless a str/int key misses its table and meets an equal chain key
    ensures k.Other? || Locate(p, d, k, hash).present || Rank(p, d, p.hash(k), k) == -1 ==>
      r == Put(p, d, k, v, hash)
    // otherwise only the value of that chain entry changes
    ensures !k.Other? && !Locate(p, d, k, hash).present && Rank(p, d, p.hash(k), k) != -1 ==>
      var h := p.hash(k);
      var ix := Rank(p, d, h, k);
      && ix < |d.objects[h]|
      && r == d.(objects := d.objects[h := d.objects[h][ix := Pair(d.objects[h][ix].key, Slot(v, d.objects[h][ix].slot.rank))]])
  {
    var h := p.hash(k);
    var ix := Rank(p, d, h, k);
    if !k.Other? && !Locate(p, d, k, hash).present && ix > -1 then
      d.(objects := d.objects[h := d.objects[h][ix := Pair(d.objects[h][ix].key, Slot(v, d.objects[h][ix].slot.rank))]])
    else Put(p, d, k, v, hash)
  }

  // ---------------------------------------------------------------------
  // Deletion

  /** The entry `__delitem__` removes: fast paths for ints and strings, the chain otherwise. */
  function DelTarget(p: Protocol, d: DictState, k: PyObject): (q: Option<Pos>)
    ensures q.Some? ==> Holds(d, q.value)
    ensures q.Some? && k.Other? ==> q.value.ObjPos? && q.value.h == p.hash(k) && p.eq(k, ItemAt(d, q.value).key)
    ensures q.Some? && !k.Other? ==> ItemAt(d, q.value).key == k
    ensures q.None? <==> match k
      case Str(s) => s !in d.strs
      case Int(n) => n !in d.ints
      case Other(_) => forall j :: 0 <= j < |ChainAt(d, p.hash(k))| ==> !p.eq(k, ChainAt(d, p.hash(k))[j].key)
  {
    match k
    case Str(s) => if s in d.strs then Some(StrPos(s)) else None
    case Int(n) => if n in d.ints then Some(IntPos(n)) else None
    case Other(_) =>
      var ix := Rank(p, d, p.hash(k), k);
      if ix > -1 then Some(ObjPos(p.hash(k), ix)) else None
  }

  /** Remove the entry at q; a string also loses the `$str_hash` slot of its hash. */
  function Erase(p: Protocol, d: DictState, q: Pos): DictState
    requires Holds(d, q)
  {
    match q
    case IntPos(n) => d.(ints := d.ints - {n})
    case StrPos(s) => d.(strs := d.strs - {s}, strHash := d.strHash - {p.hash(Str(s))})
    case ObjPos(h, i) => d.(objects := d.objects[h := d.objects[h][..i] + d.objects[h][i + 1..]])
  }

  /** Remove the entry at q and take one `$version` step. */
  function Delete(p: Protocol, d: DictState, q: Pos): (r: DictState)
    requires Holds(d, q)
    ensures !Holds(r, q) || q.ObjPos?
    ensures r.version == d.version + 1 && r.order == d.order
  {
    Erase(p, d, q).(version := d.version + 1)
  }

  /** `dict.__delitem__`: KeyError(str(key)) when the fast path or the chain search misses. */
  function Remove(p: Protocol, d: DictState, k: PyObject): (r: Result<DictState>)
    ensures r.Err? <==> DelTarget(p, d, k).None?
    ensures r.Err? ==> r.error == KeyErrorOfStr(k)
    ensures r.Ok? ==> r.value.version == d.version + 1 && r.value.order == d.order
    ensures r.Ok? && k.Str? ==>
      && r.value.strs == d.strs - {k.s} && r.value.strHash == d.strHash - {p.hash(k)}
      && r.value.ints == d.ints && r.value.objects == d.objects
    ensures r.Ok? && k.Int? ==>
      && r.value.ints == d.ints - {k.i}
      && r.value.strs == d.strs && r.value.strHash == d.strHash && r.value.objects == d.objects
    ensures r.Ok? && k.Other? ==>
      var h := p.hash(k);
      var ix := Rank(p, d, h, k);
      && 0 <= ix < |d.objects[h]|
      && r.value.objects == d.objects[h := d.objects[h][..ix] + d.objects[h][ix + 1..]]
      && r.value.ints == d.ints && r.value.strs == d.strs && r.value.strHash == d.strHash
  {
    var q := DelTarget(p, d, k);
    if q.None? then Err(KeyErrorOfStr(k))
    else Ok(Delete(p, d, q.value))
  }

  /** The entry the hashed part of `$getitem` reads, if any. */
  function HashTarget(p: Protocol, d: DictState, k: PyObject): (q: Option<Pos>)
    requires StrHashIndexes(p, d)
    ensures q.Some? ==> Holds(d, q.value)
    ensures HashLookup(p, d, k) == if q.Some? then Ok(ItemAt(d, q.value).value) else Err(KeyError(k))
  {
    var h := p.hash(k);
    if h in d.strHash && p.eq(k, Str(d.strHash[h])) then Some(StrPos(d.strHash[h]))
    else if h in d.ints && p.eq(k, Int(h)) then Some(IntPos(h))
    else if StrInstanceValue(p, k).Some? && StrInstanceValue(p, k).value in d.strs then
      Some(StrPos(StrInstanceValue(p, k).value))
    else
      var ix := Rank(p, d, h, k);
      if ix > -1 then Some(ObjPos(h, ix)) else None
  }

  /** The entry `__delitem__` evidently means to remove: where the fast path
   *  or the chain search of `DelTarget` misses, the entry `$getitem` reads. */
  function DelTargetEqual(p: Protocol, d: DictState, k: PyObject): (q: Option<Pos>)
    requires StrHashIndexes(p, d)
    ensures q.Some? ==> Holds(d, q.value)
    ensures DelTarget(p, d, k).Some? ==> q == DelTarget(p, d, k)
    ensures q.None? <==> DelTarget(p, d, k).None? && HashLookup(p, d, k).Err?
  {
    if DelTarget(p, d, k).Some? then DelTarget(p, d, k) else HashTarget(p, d, k)
  }

  /** `__delitem__` with the fallback of `DelTargetEqual`: it removes an entry
   *  exactly when `$getitem` finds one. */
  function RemoveEqual(p: Protocol, d: DictState, k: PyObject): (r: Result<DictState>)
    requires StrHashIndexes(p, d)
    ensures r.Err? <==> DelTargetEqual(p, d, k).None?
    ensures r.Ok? <==> GetItem(p, d, k).Ok?
    ensures r.Err? ==> r.error == KeyErrorOfStr(k)
    ensures r.Ok? ==> r.value == Delete(p, d, DelTargetEqual(p, d, k).value)
    ensures Remove(p, d, k).Ok? ==> r == Remove(p, d, k)
  {
    match DelTargetEqual(p, d, k)
    case None => Err(KeyErrorOfStr(k))
    case Some(q) => Ok(Delete(p, d, q))
  }

  // ---------------------------------------------------------------------
  // Listing (`to_list`)

  /** The entry x is stored somewhere in d. */
  ghost predicate Stored(d: DictState, x: Item) {
    exists q :: Holds(d, q) && ItemAt(d, q) == x
  }

  ghost predicate StrictlyRanked(l: seq<Item>) {
    forall i, j :: 0 <= i < j < |l| ==> l[i].rank < l[j].rank
  }

  /** l is the sequence `to_list` sorts: every stored entry, in increasing rank. */
  ghost predicate IsListing(d: DictState, l: seq<Item>) {
    StrictlyRanked(l) && forall x :: x in l <==> Stored(d, x)
  }

  function KeysOf(l: seq<Item>): (r: seq<PyObject>)
    ensures |r| == |l| && forall i :: 0 <= i < |l| ==> r[i] == l[i].key
  {
    if l == [] then [] else [l[0].key] + KeysOf(l[1..])
  }

  function ValuesOf(l: seq<Item>): (r: seq<PyObject>)
    ensures |r| == |l| && forall i :: 0 <= i < |l| ==> r[i] == l[i].value
  {
    if l == [] then [] else [l[0].value] + ValuesOf(l[1..])
  }

  function PairsOf(l: seq<Item>): (r: seq<(PyObject, PyObject)>)
    ensures |r| == |l| && forall i :: 0 <= i < |l| ==> r[i] == (l[i].key, l[i].value)
  {
    if l == [] then [] else [(l[0].key, l[0].value)] + PairsOf(l[1..])
  }
}
