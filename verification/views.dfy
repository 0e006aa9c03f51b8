/**
 * The `keys()`, `values()` and `items()` views: a snapshot of `to_list` taken
 * when the view is made, its length, and the dictionary whose live length
 * the iterator checks on every step.
 */
module Views {
  import opened Objects
  import opened Store
  import opened Entries
  import opened PyDict

  /** One call of the size-checked `__next__` of a view's iterator, as
   *  `dict_iterator_next` writes it: the new `counter` and the outcome. */
  function Step<T>(counter: int, items: seq<T>, len: nat, live: nat): (int, Result<T>) {
    if live != len then (counter, Err(SizeChanged))
    else if 0 <= counter + 1 < |items| then (counter + 1, Ok(items[counter + 1]))
    else (counter + 1, Err(StopIteration))
  }

  /** The outcomes of n successive calls. */
  function Run<T>(counter: int, items: seq<T>, len: nat, live: nat, n: nat): (r: seq<Result<T>>)
    ensures |r| == n
    decreases n
  {
    if n == 0 then []
    else
      var (c, x) := Step(counter, items, len, live);
      [x] + Run(c, items, len, live, n - 1)
  }

  /** While the live length matches the snapshot, the calls yield the
   *  remaining items in order and then StopIteration, over and over. */
  lemma {:induction false} RunYieldsItems<T>(counter: int, items: seq<T>, len: nat, n: nat)
    requires -1 <= counter
    ensures forall i :: 0 <= i < n ==>
      Run(counter, items, len, len, n)[i] ==
        if counter + 1 + i < |items| then Ok(items[counter + 1 + i]) else Err(StopIteration)
    decreases n
  {
    if n > 0 {
      var r := Run(counter, items, len, len, n);
      RunYieldsItems(counter + 1, items, len, n - 1);
      assert r == [Step(counter, items, len, len).1] + Run(counter + 1, items, len, len, n - 1);
      forall i | 0 <= i < n
        ensures r[i] == if counter + 1 + i < |items| then Ok(items[counter + 1 + i]) else Err(StopIteration)
      {
        if i > 0 {
          assert r[i] == Run(counter + 1, items, len, len, n - 1)[i - 1];
        }
      }
    }
  }

  /** Once the live length differs from the snapshot, every call raises
   *  RuntimeError and the iterator does not move. */
  lemma {:induction false} RunSizeChanged<T>(counter: int, items: seq<T>, len: nat, live: nat, n: nat)
    requires live != len
    ensures forall i :: 0 <= i < n ==> Run(counter, items, len, live, n)[i] == Err(SizeChanged)
    decreases n
  {
    if n > 0 {
      RunSizeChanged(counter, items, len, live, n - 1);
      assert Run(counter, items, len, live, n) == [Err(SizeChanged)] + Run(counter, items, len, live, n - 1);
    }
  }

  /** An iterator over a view of the dictionary `dict`. */
  class ViewIterator<T> {
    var counter: int
    const items: seq<T>
    const len: nat
    const dict: Dict

    ghost predicate Valid()
      reads this
    {
      -1 <= counter
    }

    constructor (items: seq<T>, len: nat, dict: Dict)
      ensures this.items == items && this.len == len && this.dict == dict
      ensures counter == -1 && Valid()
    {
      this.items := items;
      this.len := len;
      this.dict := dict;
      counter := -1;
    }

    /** `__next__` of the iterator a view hands out, written as
     *  `dict_iterator_next(self)`, with `len_func` the live `__len__` of `dict`. */
    method Next() returns (r: Result<T>)
      requires Valid()
      modifies this
      ensures Valid()
      ensures (counter, r) == Step(old(counter), items, len, Size(dict.State()))
      ensures Size(dict.State()) != len ==> r == Err(SizeChanged) && counter == old(counter)
      ensures Size(dict.State()) == len ==>
        (&& counter == old(counter) + 1
         && r == if counter < |items| then Ok(items[counter]) else Err(StopIteration))
    {
      var live := dict.Len();
      if live != len {
        return Err(SizeChanged);
      }
      counter := counter + 1;
      if counter < |items| {
        return Ok(items[counter]);
      }
      return Err(StopIteration);
    }
  }

  /** A `dict_keys`, `dict_values` or `dict_items` object. */
  class View<T> {
    const items: seq<T>
    const len: nat
    const dict: Dict

    constructor (items: seq<T>, dict: Dict)
      ensures this.items == items && this.len == |items| && this.dict == dict
    {
      this.items := items;
      this.len := |items|;
      this.dict := dict;
    }

    /** `__len__` of the view: the length of its snapshot. */
    method Len() returns (n: nat)
      ensures n == len
    {
      return len;
    }

    /** `__iter__`: an iterator over the snapshot, checking `dict`'s length. */
    method Iter() returns (it: ViewIterator<T>)
      ensures fresh(it) && it.Valid()
      ensures it.items == items && it.len == len && it.dict == dict && it.counter == -1
    {
      it := new ViewIterator(items, len, dict);
    }
  }

  /** `dict.keys(self)`: projection 0 of `to_list`. */
  method Keys(d: Dict) returns (v: View<PyObject>)
    requires d.Valid()
    ensures fresh(v) && v.dict == d
    ensures v.items == KeysOf(Listing(d.State())) && v.len == Size(d.State())
  {
    var items := d.Entries();
    v := new View(KeysOf(items), d);
  }

  /** `dict.values(self)`: projection 1 of `to_list`. */
  method Values(d: Dict) returns (v: View<PyObject>)
    requires d.Valid()
    ensures fresh(v) && v.dict == d
    ensures v.items == ValuesOf(Listing(d.State())) && v.len == Size(d.State())
  {
    var items := d.Entries();
    v := new View(ValuesOf(items), d);
  }

  /** `dict.items(self)`: the pairs of `to_list`. */
  method Items(d: Dict) returns (v: View<(PyObject, PyObject)>)
    requires d.Valid()
    ensures fresh(v) && v.dict == d
    ensures v.items == PairsOf(Listing(d.State())) && v.len == Size(d.State())
  {
    var items := d.Entries();
    v := new View(PairsOf(items), d);
  }
}
