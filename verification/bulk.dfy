/**
 * The operations built from `$setitem`, `__delitem__` and `$getitem`, as
 * functions of the dictionary state: `$copy_dict`, `init_from_list`,
 * `update`, `pop`, `popitem` and `setdefault`.
 */
module Bulk {
  import opened Objects
  import opened Store
  import opened StoreLaws
  import opened Entries

  /** The state an operation leaves and the exception it raises, if any.
   *  An exception raised half-way leaves the insertions made so far in place. */
  datatype Outcome = Outcome(state: DictState, error: Option<Exception>)

  // ---------------------------------------------------------------------
  // `$copy_dict(left, right)`

  /** The loop of `$copy_dict`: `$setitem` of each pair of `to_list(right)`.
   *  `watch` is `right.$version` when `right` is the dictionary being written
   *  (`d.update(d)`); a step that changes it raises RuntimeError. */
  function CopyLoop(p: Protocol, d: DictState, pairs: seq<(PyObject, PyObject)>, watch: Option<nat>): (o: Outcome)
    requires Valid(p, d)
    ensures Valid(p, o.state)
    ensures watch.None? ==> o.error.None?
    ensures o.error.Some? ==> o.error.value == MutatedDuringUpdate
    ensures o.state.order >= d.order && o.state.version >= d.version
    decreases |pairs|
  {
    if pairs == [] then Outcome(d, None)
    else
      PutKeepsValid(p, d, pairs[0].0, pairs[0].1, None);
      var d' := Put(p, d, pairs[0].0, pairs[0].1, None);
      if watch.Some? && d'.version != watch.value then Outcome(d', Some(MutatedDuringUpdate))
      else CopyLoop(p, d', pairs[1..], watch)
  }

  /** The invariant does not mention `$version`. */
  lemma VersionFree(p: Protocol, d: DictState, n: nat)
    requires Valid(p, d)
    ensures Valid(p, d.(version := n))
  {
    SameTables(d, d.(version := n));
  }

  // ---------------------------------------------------------------------
  // `init_from_list`

  /** One element of `init_from_list`: a str or int key is stored with a
   *  fresh rank whether or not it is present; any other key goes through `$setitem`. */
  function InitStep(p: Protocol, d: DictState, k: PyObject, v: PyObject): (r: DictState)
    requires StrHashIndexes(p, d)
    ensures r.order == if k.Other? then Put(p, d, k, v, None).order else d.order + 1
    ensures k.Str? ==> r.strs == d.strs[k.s := Slot(v, d.order)] && r.ints == d.ints && r.objects == d.objects
    ensures k.Int? ==> r.ints == d.ints[k.i := Slot(v, d.order)] && r.strs == d.strs && r.objects == d.objects
    ensures !k.Other? ==> r.version == d.version + 1
  {
    match k
    case Str(s) =>
      d.(strs := d.strs[s := Slot(v, d.order)], strHash := d.strHash[p.hash(k) := s],
         order := d.order + 1, version := d.version + 1)
    case Int(n) =>
      d.(ints := d.ints[n := Slot(v, d.order)], order := d.order + 1, version := d.version + 1)
    case Other(_) => Put(p, d, k, v, None)
  }

  /** An element of `init_from_list` from which `item[0]` and `item[1]` can be read. */
  predicate HasPair(e: Element) {
    e.Sequence? && |e.items| >= 2
  }

  /** The loop of `init_from_list` from element i on: items past the second are ignored. */
  function InitLoop(p: Protocol, d: DictState, es: seq<Element>, i: nat): (o: Outcome)
    requires Valid(p, d) && i <= |es|
    ensures Valid(p, o.state)
    ensures o.error.None? <==> forall j :: i <= j < |es| ==> HasPair(es[j])
    ensures o.error.Some? ==>
      exists j :: (&& i <= j < |es| && !HasPair(es[j])
                   && (forall m :: i <= m < j ==> HasPair(es[m]))
                   && o.error.value == ShortElement(j))
    decreases |es| - i
  {
    if i == |es| then Outcome(d, None)
    else if !HasPair(es[i]) then Outcome(d, Some(ShortElement(i)))
    else
      var xs := es[i].items;
      InitStepKeepsValid(p, d, xs[0], xs[1]);
      InitLoop(p, InitStep(p, d, xs[0], xs[1]), es, i + 1)
  }

  /** A present str or int key is deleted and inserted again, with one `$version` step. */
  lemma InitStepIsReinsert(p: Protocol, d: DictState, k: PyObject, v: PyObject)
    requires Valid(p, d) && !k.Other? && DelTarget(p, d, k).Some?
    ensures Remove(p, d, k).Ok?
    ensures var e := Remove(p, d, k).value;
      InitStep(p, d, k, v) == Put(p, e, k, v, None).(version := d.version + 1)
  {
    var e := Remove(p, d, k).value;
    if k.Str? {
      assert e.strHash[p.hash(k) := k.s] == d.strHash[p.hash(k) := k.s];
    }
  }

  /** On a key that is not present, `init_from_list` does what `$setitem` does. */
  lemma InitStepIsPut(p: Protocol, d: DictState, k: PyObject, v: PyObject)
    requires Valid(p, d) && (k.Other? || DelTarget(p, d, k).None?)
    ensures InitStep(p, d, k, v) == Put(p, d, k, v, None)
  {
  }

  lemma InitStepKeepsValid(p: Protocol, d: DictState, k: PyObject, v: PyObject)
    requires Valid(p, d)
    ensures Valid(p, InitStep(p, d, k, v))
  {
    if k.Other? || DelTarget(p, d, k).None? {
      InitStepIsPut(p, d, k, v);
      PutKeepsValid(p, d, k, v, None);
    } else {
      InitStepIsReinsert(p, d, k, v);
      RemoveKeepsValid(p, d, k);
      PutKeepsValid(p, Remove(p, d, k).value, k, v, None);
      VersionFree(p, Put(p, Remove(p, d, k).value, k, v, None), d.version + 1);
    }
  }

  /** `init_from_list` moves a repeated str or int key to the end of the
   *  insertion order, where `$setitem` would keep its place. */
  lemma InitStepMovesToEnd(p: Protocol, d: DictState, k: PyObject, v: PyObject, l: seq<Item>)
    requires Valid(p, d) && IsListing(d, l) && !k.Other? && DelTarget(p, d, k).Some?
    ensures IsListing(InitStep(p, d, k, v), Without(l, ItemAt(d, DelTarget(p, d, k).value)) + [Item(k, v, d.order)])
  {
    InitStepIsReinsert(p, d, k, v);
    var e := Remove(p, d, k).value;
    var l' := Without(l, ItemAt(d, DelTarget(p, d, k).value));
    RemoveListing(p, d, k, l);
    RemoveKeepsValid(p, d, k);
    PutListing(p, e, k, v, None, l');
    assert !Locate(p, e, k, None).present;
    SameTables(InitStep(p, d, k, v), Put(p, e, k, v, None));
  }

  // ---------------------------------------------------------------------
  // `update`

  /** One element of the iterable given to `update`: something `list()` can
   *  convert, with its items, or something it cannot. */
  datatype Element = Sequence(items: seq<PyObject>) | NotSequence

  predicate WellFormed(e: Element) {
    e.Sequence? && |e.items| == 2
  }

  function ElementError(e: Element, i: nat): Exception {
    if e.NotSequence? then NotASequence(i) else BadLength(i, |e.items|)
  }

  /** The loop of `update` over an iterable of pairs, from element i on. */
  function PairsLoop(p: Protocol, d: DictState, es: seq<Element>, i: nat): (o: Outcome)
    requires Valid(p, d) && i <= |es|
    ensures Valid(p, o.state)
    ensures o.state.version >= d.version
    ensures o.error.None? <==> forall j :: i <= j < |es| ==> WellFormed(es[j])
    ensures o.error.Some? ==>
      exists j :: (&& i <= j < |es| && !WellFormed(es[j])
                   && (forall m :: i <= m < j ==> WellFormed(es[m]))
                   && o.error.value == ElementError(es[j], j))
    decreases |es| - i
  {
    if i == |es| then Outcome(d, None)
    else if !WellFormed(es[i]) then Outcome(d, Some(ElementError(es[i], i)))
    else
      var xs := es[i].items;
      PutKeepsValid(p, d, xs[0], xs[1], None);
      PairsLoop(p, Put(p, d, xs[0], xs[1], None), es, i + 1)
  }

  /** What `update` is given as its positional argument. */
  datatype Source =
    | NoSource
    | Copied(pairs: seq<(PyObject, PyObject)>, watched: bool)  // a dict: `to_list` of it, and whether it is the target
    | Elements(elements: seq<Element>)                         // any other iterable

  function KeywordPairs(kw: seq<(string, PyObject)>): (r: seq<(PyObject, PyObject)>)
    ensures |r| == |kw| && forall i :: 0 <= i < |kw| ==> r[i] == (Str(kw[i].0), kw[i].1)
  {
    if kw == [] then [] else [(Str(kw[0].0), kw[0].1)] + KeywordPairs(kw[1..])
  }

  /** `dict.update(self, arg, **kw)`: the argument, then the keywords, then one
   *  more `$version` step; an exception skips what follows it. */
  function Update(p: Protocol, d: DictState, src: Source, kw: seq<(string, PyObject)>): (o: Outcome)
    requires Valid(p, d)
    ensures Valid(p, o.state)
    ensures o.error.None? ==> o.state.version > d.version
  {
    var first := match src
      case NoSource => Outcome(d, None)
      case Copied(pairs, watched) => CopyLoop(p, d, pairs, if watched then Some(d.version) else None)
      case Elements(es) => PairsLoop(p, d, es, 0);
    if first.error.Some? then first
    else
      var second := CopyLoop(p, first.state, KeywordPairs(kw), None);
      VersionFree(p, second.state, second.state.version + 1);
      Outcome(second.state.(version := second.state.version + 1), None)
  }

  /** `update` after its positional argument has been consumed with outcome `first`. */
  lemma UpdateFirst(p: Protocol, d: DictState, src: Source, kw: seq<(string, PyObject)>, first: Outcome)
    requires Valid(p, d) && Valid(p, first.state)
    requires first == match src
      case NoSource => Outcome(d, None)
      case Copied(pairs, watched) => CopyLoop(p, d, pairs, if watched then Some(d.version) else None)
      case Elements(es) => PairsLoop(p, d, es, 0)
    ensures first.error.Some? ==> Update(p, d, src, kw) == first
    ensures first.error.None? ==>
      var second := CopyLoop(p, first.state, KeywordPairs(kw), None);
      Update(p, d, src, kw) == Outcome(second.state.(version := second.state.version + 1), None)
  {
  }

  // ---------------------------------------------------------------------
  // `pop`, `popitem`, `setdefault`

  /** A result together with the state the call leaves. */
  datatype Popped<T> = Popped(result: Result<T>, state: DictState)

  /** The end of `dict.pop(key[, default])` once `$getitem` has given `got`
   *  and `__delitem__` would give `removed`: a KeyError from either one gives
   *  the default when there is one, and is raised again otherwise. */
  function Popping(d: DictState, got: Result<PyObject>, removed: Result<DictState>, default: Option<PyObject>): (r: Popped<PyObject>)
    ensures got.Ok? && removed.Ok? ==> r == Popped(Ok(got.value), removed.value)
    ensures got.Err? || removed.Err? ==> r.state == d
    ensures got.Err? || removed.Err? ==>
      r.result == if default.Some? then Ok(default.value) else Err(if got.Err? then got.error else removed.error)
  {
    if got.Err? then
      if default.Some? then Popped(Ok(default.value), d) else Popped(Err(got.error), d)
    else if removed.Err? then
      if default.Some? then Popped(Ok(default.value), d) else Popped(Err(removed.error), d)
    else Popped(Ok(got.value), removed.value)
  }

  /** `dict.pop(key[, default])`: `$getitem`, then `__delitem__` as written. */
  function Pop(p: Protocol, d: DictState, k: PyObject, default: Option<PyObject>): (r: Popped<PyObject>)
    requires StrHashIndexes(p, d)
    ensures r.result.Err? ==> default.None? && r.result.error in {KeyError(k), KeyErrorOfStr(k)}
    ensures r.state != d ==> Remove(p, d, k).Ok? && r.state == Remove(p, d, k).value
    ensures GetItem(p, d, k).Ok? && Remove(p, d, k).Ok? ==>
      r == Popped(Ok(GetItem(p, d, k).value), Remove(p, d, k).value)
  {
    Popping(d, GetItem(p, d, k), Remove(p, d, k), default)
  }

  /** `dict.pop(key[, default])` with the `__delitem__` of `RemoveEqual`. */
  function PopEqual(p: Protocol, d: DictState, k: PyObject, default: Option<PyObject>): (r: Popped<PyObject>)
    requires StrHashIndexes(p, d)
    ensures r.result.Err? ==> default.None? && r.result.error == KeyError(k) && r.state == d
    ensures r.state != d ==> RemoveEqual(p, d, k).Ok? && r.state == RemoveEqual(p, d, k).value
    ensures GetItem(p, d, k).Ok? && RemoveEqual(p, d, k).Ok? ==>
      r == Popped(Ok(GetItem(p, d, k).value), RemoveEqual(p, d, k).value)
    ensures Remove(p, d, k).Ok? ==> r == Pop(p, d, k, default)
  {
    Popping(d, GetItem(p, d, k), RemoveEqual(p, d, k), default)
  }

  /** `dict.popitem()`: the first item of `items()`, i.e. the entry of lowest
   *  rank, then `__delitem__` of its key. Only StopIteration is turned into
   *  KeyError; a failing `__delitem__` is swallowed and nothing is returned. */
  ghost function PopItem(p: Protocol, d: DictState): (r: Popped<Option<(PyObject, PyObject)>>)
    requires StrHashIndexes(p, d)
    ensures Listing(d) == [] <==> r == Popped(Err(EmptyDictKeyError), d)
    ensures r.state != d ==>
      && Listing(d) != [] && RemoveEqual(p, d, Listing(d)[0].key).Ok?
      && r == Popped(Ok(Some((Listing(d)[0].key, Listing(d)[0].value))), RemoveEqual(p, d, Listing(d)[0].key).value)
    // a failing `__delitem__` is swallowed: nothing comes back and nothing changes
    ensures Listing(d) != [] && RemoveEqual(p, d, Listing(d)[0].key).Err? ==> r == Popped(Ok(None), d)
  {
    var l := Listing(d);
    if l == [] then Popped(Err(EmptyDictKeyError), d)
    else
      match RemoveEqual(p, d, l[0].key)
      case Ok(d') => Popped(Ok(Some((l[0].key, l[0].value))), d')
      case Err(_) => Popped(Ok(None), d)
  }

  /** The `$hash` that `setdefault` hands to `$setitem`: the hash `$getitem`
   *  cached on an object key; none for str and int keys. */
  function CachedHash(p: Protocol, k: PyObject): Option<int> {
    if k.Other? then Some(p.hash(k)) else None
  }

  /** `dict.setdefault(key, default)`. */
  function SetDefault(p: Protocol, d: DictState, k: PyObject, default: PyObject): (r: (PyObject, DictState))
    requires Valid(p, d)
    ensures GetItem(p, d, k).Ok? ==> r == (GetItem(p, d, k).value, d)
    ensures GetItem(p, d, k).Err? ==> r.0 == default && r.1 == Put(p, d, k, default, None)
  {
    match GetItem(p, d, k)
    case Ok(v) => (v, d)
    case Err(_) =>
      SetDefaultHintSound(p, d, k);
      PutHintAgrees(p, d, k, default);
      (default, Put(p, d, k, default, CachedHash(p, k)))
  }

  /** When `$getitem` fails, the cached hash is the key's hash and the key is
   *  in no chain position of that hash. */
  lemma SetDefaultHintSound(p: Protocol, d: DictState, k: PyObject)
    requires StrHashIndexes(p, d) && GetItem(p, d, k).Err?
    ensures HintSound(p, d, k, CachedHash(p, k))
  {
  }

  /** Skipping the chain search when the key is known to be absent does not
   *  change what `$setitem` does. */
  lemma PutHintAgrees(p: Protocol, d: DictState, k: PyObject, v: PyObject)
    requires StrHashIndexes(p, d) && HintSound(p, d, k, CachedHash(p, k))
    ensures Put(p, d, k, v, CachedHash(p, k)) == Put(p, d, k, v, None)
  {
  }
}
