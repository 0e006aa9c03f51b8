# Brython `dict`: the partitioned, insertion-ordered dictionary

Brython implements Python's `dict` in JavaScript (`www/src/py_dict.js`) as an
object holding four tables:

- `$numeric_dict`: keys that are JavaScript numbers, mapped to `[value, rank]`;
- `$string_dict`: keys that are JavaScript strings, mapped to `[value, rank]`;
- `$str_hash`: for each stored string, its hash, mapped to the string;
- `$object_dict`: every other key, hashed with `hash()`; each hash is mapped to a
  collision chain of `[key, [value, rank]]` entries.

Two counters sit beside the tables. `$order` hands out ranks, so iteration is
insertion order. `$version` counts structural changes and is watched by
`$copy_dict`.

This project models that core in Dafny:

- `objects.dfy`: the key universe (`Int`, `Str`, `Other`).
- `store.dfy`: the state as a value and every operation as a function on it.
  That covers `$setitem`, `rank`, `__delitem__`, `$getitem`, `__contains__`
  and `__len__`.
- `laws.dfy`: the invariant and the listing laws of those operations.
- `listing.dfy`: `to_list` as a rank sort.
- `bulk.dfy`: `$copy_dict`, `init_from_list`, `update`, `pop`, `popitem` and
  `setdefault`.
- `lookup.dfy`: what lookups find.
- `equality.dfy`: `__eq__`.
- `merge.dfy`: what `update`, `|` and `|=` leave in the dict.
- `dict.dfy`: a `Dict` class with the same six fields, whose methods change
  them in place. Each method is proved to leave exactly the state the
  matching function describes, and to keep the invariant. Six of them
  follow the corrected function of a finding below rather than the code as
  written: `Contains` (`ContainsKey`), `Equals` and its chain loop
  `MatchChains` (`Equality.Equals`), and `DelItem`, `Pop` and `PopItem`
  (`RemoveEqual`). The function `Bulk.PopItem` removes through
  `RemoveEqual` too; for an `__eq__` that is reflexive it does what the code
  does (`Properties.PopItemOldest`).
- `views.dfy`: the `keys`/`values`/`items` views and `dict_iterator_next`.
- `properties.dfy`: laws that relate several operations.

Python's hash, rich comparison and `isinstance(x, str)` are parameters of the
model, bundled as a `Protocol`. Properties state the laws they assume of it:

- `Lawful`: equality is an equivalence, equal keys hash alike, ints and
  strings compare natively, and an int hashes to itself (`NativeKeys`), which
  the `$numeric_dict[hash]` reads of lines 396 and 707 rely on.
- `StrInstancesExact`: an object key equals a string exactly when it is a str
  instance with that value.

Apart from those members, where the code and the prose description of
the dictionary disagree, the model follows the code:

- `$version` is also bumped when an object key overwrites an int or str entry
  (lines 709-720).
- `update` bumps `$version` once more at its end (line 954).
- `init_from_list` bumps `$version` for every int or str element, even one
  that is already present (lines 436-445). It also moves such a key to the
  end of the order.
- `popitem` silently swallows an exception that is not StopIteration
  (lines 879-882).
- `popitem` removes the oldest entry, not the newest.
- `$setitem` is modelled as written (`Store.Put`, `Dict.SetItem`), including
  its number and string fast paths that never look at the chains. The
  corrected `Store.PutEqual` of the finding below stands beside it.

## Model

| member | source | states |
|---|---|---|
| Store.Locate | www/src/py_dict.js:679-742 | where `$setitem` writes: the fast-path table for str/int keys; for an object key, the numeric entry at its hash or the string at `$str_hash[hash]` when equal, else an equal chain entry (with none before it when there is no `$hash`), else the end of the chain under its hash; `present` iff that position holds an entry |
| Store.Put | www/src/py_dict.js:634-745 | the whole new state of `$setitem` in each case: a present str/int/chain entry keeps its rank with `$version` unchanged; an object key equal to an int/str entry replaces that value and bumps `$version`; a new key takes rank `$order`, and both counters advance |
| Store.RankFrom | www/src/py_dict.js:184-196 | the loop of `rank`: -1 iff no entry from i on equals k, else the first equal index |
| Store.Rank | www/src/py_dict.js:184-196 | `rank(self, hash, key)`: -1 iff no chain entry equals k, else the index of the first equal one |
| Store.DelTarget | www/src/py_dict.js:243-271 | the entry `__delitem__` removes: the fast-path entry for str/int keys (with no hashed fallback), else the first equal chain entry under the key's hash; none exactly when those miss |
| Store.Remove | www/src/py_dict.js:231-273 | `KeyError(str(key))` iff no target; otherwise only that entry leaves its table, a string also loses its `$str_hash` slot, `$version` is bumped and `$order` is unchanged |
| Store.Delete | www/src/py_dict.js:248-270 | removing the entry at a position: a table entry is gone afterwards, `$version` takes one step and `$order` is unchanged |
| Store.HashLookup | www/src/py_dict.js:388-425 | the hashed part of `$getitem`: a miss raises `KeyError(key)`, and only when the chain under the key's hash holds no equal key |
| Store.GetItem | www/src/py_dict.js:362-425 | `$getitem`: a str/int key present in its own table is always found there; a miss raises `KeyError(key)` |
| Store.Contains | www/src/py_dict.js:204-229 | `__contains__` as written: whatever it reports, `$getitem` finds |
| Store.HashTarget | www/src/py_dict.js:394-410 | the entry the hashed part of `$getitem` reads: it is held, and `$getitem` returns its value, or `KeyError(key)` when there is none |
| Store.DelTargetEqual | www/src/py_dict.js:243-271 | the entry the corrected `__delitem__` removes: the as-written target when there is one, else the entry `$getitem` reads; none exactly when both miss |
| Store.RemoveEqual | www/src/py_dict.js:231-273 | corrected `__delitem__`: removes an entry exactly when `$getitem` finds the key, raises `KeyError(str(key))` otherwise, and agrees with `Remove` wherever that succeeds |
| Store.KeysOf | www/src/py_dict.js:142-146 | `to_list(d, 0)`: the keys of the listing, index by index |
| Store.ValuesOf | www/src/py_dict.js:142-146 | `to_list(d, 1)`: the values of the listing, index by index |
| Store.PairsOf | www/src/py_dict.js:142-151 | `to_list(d)`: the (key, value) pairs of the listing, index by index |
| StoreLaws.ListingUnique | www/src/py_dict.js:139-141 | two rank-sorted sequences with the same elements are equal, so the order `to_list` yields is determined |
| StoreLaws.PutKeepsValid | www/src/py_dict.js:634-745 | `$setitem` keeps the invariant: ranks below `$order` and distinct, `$str_hash` indexes the strings, chain entries hashed to their chain and pairwise unequal |
| StoreLaws.WriteFrame | www/src/py_dict.js:684-742 | writing one slot: the position holds the new value and rank, with its old key if it was held; no other position changes, and no position appears but that one |
| StoreLaws.PutFrame | www/src/py_dict.js:634-745 | `$setitem` touches only its target position; every other entry is unchanged |
| StoreLaws.PutListing | www/src/py_dict.js:684-742 | after `$setitem` the listing is the old one with the present entry's value replaced in place, or with the new entry appended at the end |
| StoreLaws.PutSize | www/src/py_dict.js:634-745 | `__len__` grows by one exactly when the key was not present |
| StoreLaws.EraseFrame | www/src/py_dict.js:248-266 | removing the entry at a position leaves every other entry, a later chain entry moving down one index; nothing else appears |
| StoreLaws.DeleteKeepsValid | www/src/py_dict.js:231-273 | removing any held entry keeps the invariant |
| StoreLaws.DeleteListing | www/src/py_dict.js:231-273 | removing any held entry leaves the old listing without that entry, in the same order |
| StoreLaws.DeleteSize | www/src/py_dict.js:231-273 | removing any held entry shrinks `__len__` by exactly one |
| StoreLaws.RemoveKeepsValid | www/src/py_dict.js:231-273 | `__delitem__` keeps the invariant |
| StoreLaws.RemoveListing | www/src/py_dict.js:231-273 | after `__delitem__` the listing is the old one without the removed entry, in the same order |
| StoreLaws.RemoveSize | www/src/py_dict.js:231-273 | `__len__` shrinks by exactly one |
| StoreLaws.DelTargetOfStored | www/src/py_dict.js:231-273 | deleting the key of a stored entry removes that very entry |
| StoreLaws.Replace | www/src/py_dict.js:697-740 | the listing with the entry of the same rank replaced, index by index |
| StoreLaws.Without | www/src/py_dict.js:264-266 | the listing without one entry: same members minus it, still rank-sorted |
| Entries.SortByRank | www/src/py_dict.js:139-141 | the sort of `to_list` is a permutation of its input |
| Entries.SortByRankSorted | www/src/py_dict.js:139-141 | with distinct ranks, the result is strictly increasing in rank |
| Entries.ListingIsListing | www/src/py_dict.js:112-153 | `to_list` holds every stored entry exactly once, in increasing rank |
| Entries.ListingIsUnique | www/src/py_dict.js:112-153 | any rank-sorted sequence of exactly the stored entries is the listing |
| Entries.ListingSize | www/src/py_dict.js:550-565 | `__len__` (ints + strings + chain lengths) equals the length of `to_list` |
| Bulk.CopyLoop | www/src/py_dict.js:171-182 | `$copy_dict` keeps the invariant; it raises nothing when the source is another dict, and only "mutated during update" when it is the target; the counters never decrease |
| Bulk.InitStep | www/src/py_dict.js:429-450 | one element of `init_from_list`: a str/int key is stored with a fresh rank and a `$version` bump whether or not it is present; any other key goes through `$setitem` |
| Bulk.InitLoop | www/src/py_dict.js:429-450 | `init_from_list` keeps the invariant; it raises nothing iff every element has an item 0 and an item 1, and otherwise stops at the first element that has not |
| Bulk.InitStepIsReinsert | www/src/py_dict.js:436-445 | on a present str/int key, `init_from_list` is `__delitem__` followed by `$setitem`, with one `$version` step |
| Bulk.InitStepIsPut | www/src/py_dict.js:436-447 | on an absent or object key, `init_from_list` does exactly what `$setitem` does |
| Bulk.InitStepMovesToEnd | www/src/py_dict.js:436-445 | a repeated str/int key moves to the end of the listing with the new value |
| Bulk.PairsLoop | www/src/py_dict.js:928-950 | `update` over an iterable: no error iff every element is a 2-sequence; otherwise the error names the first bad element, with TypeError for a non-sequence and ValueError with its length otherwise |
| Bulk.KeywordPairs | www/src/py_dict.js:953 | the keyword arguments as str-keyed pairs, in order |
| Bulk.Update | www/src/py_dict.js:907-956 | `update` keeps the invariant and, when it succeeds, strictly advances `$version` |
| Bulk.UpdateFirst | www/src/py_dict.js:907-956 | an error from the positional argument ends `update` there; otherwise the keywords are copied and `$version` takes one more step |
| Bulk.Popping | www/src/py_dict.js:861-871 | the end of `pop`: both calls succeed and the value and new state come back, or a KeyError from either gives the default when there is one and is raised again otherwise, with the state unchanged |
| Bulk.Pop | www/src/py_dict.js:852-872 | `pop`: an error only without a default, `KeyError(key)` from `$getitem` or `KeyError(str(key))` from `__delitem__`; the state changes only as `__delitem__` of the key changes it, and when both succeed the value comes back |
| Bulk.PopEqual | www/src/py_dict.js:852-872 | `pop` with the corrected `__delitem__`: an error only without a default, always `KeyError(key)` with the state unchanged; when the key is found its value comes back and its entry goes; it agrees with `Pop` wherever `__delitem__` as written succeeds |
| Bulk.PopItem | www/src/py_dict.js:874-884 | `popitem` with the corrected `__delitem__` (`RemoveEqual`): KeyError exactly for an empty dict; any change of state removes the first listed entry and returns it; when removing its key fails, the exception is swallowed, nothing comes back and nothing changes |
| Bulk.SetDefault | www/src/py_dict.js:886-905 | `setdefault`: a found key returns its value and changes nothing; otherwise the default is returned and stored as `$setitem` stores it |
| Bulk.SetDefaultHintSound | www/src/py_dict.js:388-393 | the hash `$getitem` caches on a missing key is its own hash, and no entry of that chain equals it |
| Bulk.PutHintAgrees | www/src/py_dict.js:723-731 | the `$hash` shortcut of `$setitem` does what the full search does when the hint is sound |
| Lookup.GetItemSound | www/src/py_dict.js:362-425 | when exactly the str instances equal strings (`StrInstancesExact`), whatever `$getitem` returns is the value of a stored entry whose key equals the argument |
| Lookup.GetItemStrInstanceUnsound | www/src/py_dict.js:401-404 | without `StrInstancesExact`, `$getitem` returns `d["a"]` for a str instance holding "a" that equals no stored key |
| Lookup.GetItemComplete | www/src/py_dict.js:362-425 | under a lawful protocol in which exactly the str instances equal strings (`StrInstancesExact`), `$getitem` finds every key that equals a stored key |
| Lookup.ContainsSound | www/src/py_dict.js:204-229 | `__contains__` as written never reports a key that is not stored |
| Lookup.ContainsKey | www/src/py_dict.js:204-229 | corrected `in`: true iff `d[key]` does not raise, and true whenever `in` as written is |
| Lookup.ContainsKeyExact | www/src/py_dict.js:204-229 | under a lawful protocol with `StrInstancesExact`, corrected `in` is true iff an equal key is stored, iff `d[key]` does not raise |
| Lookup.HashTargetEqual | www/src/py_dict.js:394-410 | under `StrInstancesExact`, the entry the hashed part of `$getitem` reads has a key equal to the argument |
| Lookup.RemoveEqualExact | www/src/py_dict.js:231-273 | under a lawful protocol with `StrInstancesExact`, the corrected `__delitem__` removes an entry iff an equal key is stored, and the entry it removes has a key equal to the argument |
| Lookup.ContainsMissesEqualKey | www/src/py_dict.js:216-221 | `1 in {True: 'x'}` is false as written while `{True: 'x'}[1]` is `'x'`; the corrected test says true |
| Equality.OtherPairs | www/src/py_dict.js:324-331 | `other_pairs` has one pair for a numeric entry at the hash, if any, plus one per entry of the chain |
| Equality.EqualsAsWritten | www/src/py_dict.js:275-352 | `__eq__` as written, with the "length" test of line 289 and the early return of 332-334: whenever it says true, the corrected comparison does too |
| Equality.EqualsAsWrittenDiffers | www/src/py_dict.js:287-335 | `__eq__` as written is the corrected comparison plus the "length" test and "o has some pair at every hash of d"; the two agree when neither side holds the str key "length" (or both are one dict) and no chain of d is empty |
| Equality.EqualsReflexive | www/src/py_dict.js:275-352 | under the corrected comparison every dict equals itself |
| Equality.EqualsAsWrittenNotReflexive | www/src/py_dict.js:332-334 | after `d[k] = None; del d[k]` for an object key, `d == d` is false as written and true corrected |
| Equality.EqualsAsWrittenLength | www/src/py_dict.js:289-291 | two distinct dicts `{"length": 1}` compare unequal as written, while a dict compared with itself and the corrected comparison say equal |
| PyDict.Dict.constructor | www/src/py_dict.js:986-997 | `$B.empty_dict`: all four tables empty and both counters 0 |
| PyDict.Dict.FindRank | www/src/py_dict.js:184-196 | the loop of `rank` returns `Rank` |
| PyDict.Dict.GetItem | www/src/py_dict.js:362-425 | `$getitem` returns what `Store.GetItem` does |
| PyDict.Dict.FindHashed | www/src/py_dict.js:388-410 | the hashed search of `$getitem` picks the entry `HashTarget` names |
| PyDict.Dict.SetItem | www/src/py_dict.js:634-745 | `$setitem` in place: new state is `Put` of the old one; the invariant is kept |
| PyDict.Dict.DelItem | www/src/py_dict.js:231-273 | corrected `__delitem__` in place: `KeyError(str(key))` and no change, or the state `RemoveEqual` gives; the invariant is kept |
| PyDict.Dict.FindDelTarget | www/src/py_dict.js:243-271 | the search of the corrected `__delitem__` returns `DelTargetEqual` |
| PyDict.Dict.DeleteAt | www/src/py_dict.js:248-270 | `delete` from a table or `splice` from a chain, then `$version++`: the state `Delete` gives |
| PyDict.Dict.Len | www/src/py_dict.js:550-565 | the counting loops of `__len__` return `Size` |
| PyDict.Dict.Entries | www/src/py_dict.js:112-153 | the collection loops plus sort of `to_list` return exactly the listing, of length `__len__` |
| PyDict.Dict.ToList | www/src/py_dict.js:112-153 | `to_list(d)` returns the pairs of the listing |
| PyDict.Dict.Clear | www/src/py_dict.js:754-775 | all tables emptied, `$version` bumped, `$order` reset to 0; the invariant holds |
| PyDict.Dict.Pop | www/src/py_dict.js:852-872 | in place, the result and new state of `Bulk.PopEqual`, the `pop` of the corrected `__delitem__` |
| PyDict.Dict.PopItem | www/src/py_dict.js:874-884 | in place, the result and new state of `Bulk.PopItem` |
| PyDict.Dict.SetDefault | www/src/py_dict.js:886-905 | in place, the result and new state of `Bulk.SetDefault` |
| PyDict.Dict.InitItem | www/src/py_dict.js:433-448 | one iteration of `init_from_list` in place |
| PyDict.Dict.InitFromList | www/src/py_dict.js:429-450 | `init_from_list` in place, over elements of any length: the state and error `InitLoop` gives |
| PyDict.Dict.CopyFrom | www/src/py_dict.js:171-182 | `$copy_dict(this, right)` in place: `CopyLoop` over `to_list(right)`, watching `right.$version` |
| PyDict.Dict.Update | www/src/py_dict.js:907-956 | `update` in place: the state and error of `Bulk.Update` for a dict, an iterable or no argument |
| PyDict.Dict.SetElements | www/src/py_dict.js:928-950 | the iterable branch of `update` in place: `PairsLoop` |
| PyDict.Dict.Contains | www/src/py_dict.js:204-229 | `in`, with the fast paths falling through to the hashed search as `ContainsKey` states |
| PyDict.Dict.Copy | www/src/py_dict.js:777-785 | `copy()`: a fresh dict holding `$copy_dict` of this one into an empty dict |
| PyDict.Dict.Or | www/src/py_dict.js:588-596 | `__or__`: NotImplemented for a non-dict; otherwise a fresh copy updated with the other dict, in which every entry of the other reads back its value and every entry of this dict whose key equals none of the other's keeps its value |
| PyDict.Dict.Ior | www/src/py_dict.js:544-548 | `__ior__`: `update` of this dict with any argument `update` takes, in place; for another dict, every entry of it reads back its value and every key equal to none of its keys reads what it read before |
| PyDict.Dict.Equals | www/src/py_dict.js:275-352 | `__eq__`: false for a non-dict, else the corrected comparison |
| PyDict.Dict.NotEquals | www/src/py_dict.js:567 | `__ne__` is the negation of `__eq__` |
| PyDict.Dict.MatchInts | www/src/py_dict.js:293-314 | the numeric loop of `__eq__` decides `IntsMatch` |
| PyDict.Dict.MatchStrs | www/src/py_dict.js:315-321 | the string loop of `__eq__` decides `StrsMatch` |
| PyDict.Dict.MatchChains | www/src/py_dict.js:322-350 | the chain loop of the corrected `__eq__`, without the early return of 332-334, decides `ChainsMatch` |
| PyDict.Dict.FindPair | www/src/py_dict.js:338-345 | the inner search of `__eq__`: some pair has an equal key and an equal value |
| Views.RunYieldsItems | www/src/py_dict.js:79-88 | while the length is unchanged, the calls yield the remaining snapshot items in order, then StopIteration |
| Views.RunSizeChanged | www/src/py_dict.js:80-82 | once the length differs, every call raises RuntimeError and the counter stays put |
| Views.ViewIterator.Next | www/src/py_dict.js:79-88 | the size-checked `__next__` of a view's iterator, as `dict_iterator_next` writes it; one call in place: RuntimeError with the counter unchanged when the live `__len__` differs; otherwise the counter advances and the next snapshot item or StopIteration is produced |
| Views.View.constructor | www/src/py_dict.js:37-45 | a view holds its snapshot, with `len` the snapshot's length |
| Views.View.Len | www/src/py_dict.js:65-67 | a view's length is that of its snapshot |
| Views.View.Iter | www/src/py_dict.js:59-63 | `__iter__`: a fresh iterator over the snapshot at counter -1, checking the same dict's length |
| Views.Keys | www/src/py_dict.js:841-850 | `keys()`: a view over `to_list(d, 0)`, whose length is `__len__` and which refers back to d |
| Views.Values | www/src/py_dict.js:961-970 | `values()`: a view over `to_list(d, 1)`, whose length is `__len__` and which refers back to d |
| Views.Items | www/src/py_dict.js:827-836 | `items()`: a view over the pairs of `to_list(d)`, whose length is `__len__` and which refers back to d |
| Properties.GetAfterPut | www/src/py_dict.js:634-745 | `d[k] = v` then `d[k]` gives v |
| Store.PutEqual | www/src/py_dict.js:680-701 | corrected `$setitem`: the code as written, except that a str or int key missing from its own table and equal to a chain key replaces that entry's value |
| Properties.LocateAbsentNotStored | www/src/py_dict.js:679-742 | under a lawful protocol with `StrInstancesExact`, a key `$setitem` finds nowhere, and that is no str instance, equals no stored key, provided a str or int key also misses its chain |
| Properties.SetItemKeepsEqualKeys | www/src/py_dict.js:692-701 | as written, `d[1] = 'b'` on `{True: 'a'}` leaves a valid dict with two equal keys and length 2 |
| Properties.SetItemEqualKeyCorrected | www/src/py_dict.js:692-701 | the corrected `$setitem` on that input replaces the value of `True`: keys stay unique and `d[1]` is `'b'` |
| Properties.PutEqualKeepsValid | www/src/py_dict.js:634-745 | the corrected `$setitem` keeps the invariant |
| Properties.PutEqualKeepsUnique | www/src/py_dict.js:634-745 | under a lawful protocol with `StrInstancesExact`, the corrected `$setitem` of a key that is no str instance keeps the keys pairwise unequal |
| Properties.GetAfterPutEqual | www/src/py_dict.js:634-745 | with the corrected `$setitem`, `d[k] = v` then `d[k]` gives v, for a key that is no str instance |
| Properties.PopPresent | www/src/py_dict.js:852-872 | under a lawful protocol with `StrInstancesExact`, in a dict whose keys are pairwise unequal, `pop` of a stored key returns its value, removes exactly its entry and shrinks `__len__` by one |
| Properties.PopEqualPresent | www/src/py_dict.js:852-872 | under a lawful protocol with `StrInstancesExact`, in a dict whose keys are pairwise unequal, `pop` with the corrected `__delitem__` of any key equal to a stored one returns that entry's value, removes exactly that entry and shrinks `__len__` by one |
| Properties.DelMissesEqualKey | www/src/py_dict.js:260-268 | on `{1: 'a'}`, `d[True]` is `'a'` while `del d[True]` and `d.pop(True)` raise KeyError as written; the corrected `pop` returns `'a'` and removes the int entry |
| Properties.PopAbsent | www/src/py_dict.js:852-872 | with a reflexive `__eq__` and `StrInstancesExact`, `pop` of a key equal to none stored changes nothing and gives the default or `KeyError(key)` |
| Properties.PopStrInstanceMisses | www/src/py_dict.js:852-872 | without `StrInstancesExact`, `pop` of a str instance equal to no stored key raises the `KeyError(str(key))` of `__delitem__`, since `$getitem` found it by its string value |
| Properties.PopItemOldest | www/src/py_dict.js:874-884 | `popitem` returns and removes the entry of lowest rank; the rest keeps its order |
| Properties.SetDefaultStores | www/src/py_dict.js:886-905 | after `setdefault`, `d[k]` is what it returned; a new key is appended to the listing and `__len__` grows by one |
| Properties.PutStoredIdentity | www/src/py_dict.js:634-745 | in a dict whose keys are pairwise unequal, storing a stored entry again changes nothing, not even `$version` |
| Properties.CopyStoredIdentity | www/src/py_dict.js:171-182 | in a dict whose keys are pairwise unequal, `$copy_dict` of entries already stored changes nothing and never trips the mutation check |
| Properties.UpdateSelf | www/src/py_dict.js:907-956 | `d.update(d)` keeps every entry and rank, raises nothing, and moves `$version` only by its final step |
| Properties.CopyKeepsEntries | www/src/py_dict.js:777-785 | `copy()` of a dict with unique keys lists the same keys and values in the same order |
| Merge.GetItemSame | www/src/py_dict.js:362-425 | under a lawful protocol with `StrInstancesExact`, `$getitem` of a key that is no str instance answers the same in two dicts whose entries equal to that key agree |
| Merge.PutKeepsLookup | www/src/py_dict.js:634-745 | under a lawful protocol with `StrInstancesExact`, `d[k2] = v` leaves `d[k]` as it was for every k not equal to k2 that is no str instance |
| Merge.CopyFrames | www/src/py_dict.js:171-182 | under a lawful protocol with `StrInstancesExact`, the `$copy_dict` loop leaves `d[k]` as it was for a key that is no str instance and equals none of the copied keys |
| Merge.CopyGets | www/src/py_dict.js:171-182 | under a lawful protocol with `StrInstancesExact`, after the `$copy_dict` loop over pairs with pairwise unequal keys that are no str instances, each copied key reads back the value copied with it |
| Merge.UpdateIsCopy | www/src/py_dict.js:914-955 | `update` with another dict raises nothing and reads as its `$copy_dict` |
| Merge.UpdateGets | www/src/py_dict.js:914-955 | under a lawful protocol with `StrInstancesExact`, after `d.update(o)` for a dict o other than d, with unique keys that are no str instances, every entry of o reads back its own value: the right operand wins |
| Merge.UpdateFrames | www/src/py_dict.js:914-955 | under a lawful protocol with `StrInstancesExact`, after `d.update(o)` for a dict o other than d, a key equal to no key of o reads what it read before |
| Merge.OrKeepsLeft | www/src/py_dict.js:588-596 | under a lawful protocol with `StrInstancesExact`, in `dict.__or__(d, o)`, an entry of d, with unique keys that are no str instances, whose key equals no key of o keeps its value |

## Left out

- Dicts that wrap a JavaScript object (`$jsobj`, `$from_js`, `jsobj2dict`) are not modelled. Every operation's `$jsobj` branch is left out.
- Namespace aliasing in `__contains__` (`$is_namespace`) is not modelled.
- The real `hash()`, `rich_comp` and `isinstance` are not modelled. They are the fields of `Protocol`, and only the laws stated above are assumed of them.
- `parseFloat` of numeric property names in `to_list` is not modelled. Numeric keys are integers, and floats are not modelled.
- The property names that `__eq__` sees are modelled as `Decimal(n)`.
- `$B.args` argument parsing and arity TypeErrors are not modelled. Neither are `__repr__`/`__str__`, `get`, `fromkeys`, `__bool__`, `__iter__`, `__ror__`, `$to_obj`, `$factory`, `mappingproxy` or `getset_descriptor`.
- `__missing__` of dict subclasses is not modelled. `GetItem` models a dict whose class is `dict`.
- `__init__` is not modelled beyond its two core helpers, `init_from_list` and `$copy_dict`. Left out are its fast copy of the four tables, its mapping and JavaScript-object branches, and its keyword loop.
- The set operations of the views (`make_view`, lines 47-58) are not modelled.
- `make_iterator_class` is not part of this model. The views iterate through the classes it builds (lines 825, 839, 959), and nothing in `py_dict.js` calls `dict_iterator_next` (written at 79-88 and again at 159-169). `Views.ViewIterator.Next` stands for that class's size-checked `__next__`, with the body of `dict_iterator_next`: its length check reads the live `__len__` of the dict the view came from.
- The `keys()`-and-`__getitem__` branch of `update` (lines 921-926) is not modelled separately. It stores pairs through `$setitem` in order without a version watch, which is the `Copied(pairs, false)` source.
- The keyword dict of `update` is modelled as its ordered list of (name, value) pairs.
- The `$hash` that `$getitem` caches on an object key for `setdefault` is modelled by `CachedHash`, the key's own hash. Caching in the object itself is not modelled.
- Aliasing of the JavaScript arrays `[value, rank]` is not modelled: every write stores a fresh pair. Among the modelled operations, the source mutates `[0]` in place only for a present str/int key, and no other modelled dict holds that array. The fast copy in `__init__` (lines 484-488) does share the arrays and the chains between two dicts, and it is not modelled.
- Exceptions thrown by user `__hash__`/`__eq__` are not modelled, and neither are reentrant mutation from inside them.
- Properties.GetAfterPut: excludes object keys that are str instances. For those `$setitem` does not look in `$string_dict` by value, so a value stored in a chain can be shadowed on lookup by an equal string.
- Properties.SetDefaultStores: has the same exclusion, for the same reason.
- Properties.PopPresent: requires `StrInstancesExact` and that no two stored keys are equal. `$setitem` as written does not keep unique keys: `{1: 'a'}` followed by `d[True] = 'b'` overwrites the int entry, but a chain entry `True` stored first and an int key `1` stored later live side by side (`Properties.SetItemKeepsEqualKeys`, a finding below). `pop` can then return the value of one entry and delete the other.
- Properties.CopyKeepsEntries: requires unique keys too. With two equal keys the copy merges them.
- Properties.UpdateSelf: requires unique keys too. With two equal keys the copy merges them.
- `del d[1]` on `{True: 'x'}` raises KeyError (lines 252-254). The int fast path does not fall back to the chains. `Store.DelTarget` models that as written, and the corrected `Store.DelTargetEqual` falls back to the entry `$getitem` reads.
- When a numeric entry of d is matched in o's chain, `__eq__` compares the property name, the string `"1"`, with the chain key (line 303), and then the `[value, rank]` lists rather than the values (lines 304-305). `IntEntryMatches` models both as written. So `{1: 'x'} == {True: 'x'}` is false, already at line 303, since `"1"` does not equal `True`.
- The tables are plain JavaScript objects (lines 989-992), and the model's maps do not have their inherited property names. As written, `"constructor" in {}` is true (line 218), `{}["toString"]` returns undefined instead of raising (lines 375-376), `d["constructor"] = 1` writes into a function and stores no key (lines 684-685), `d["__proto__"] = 1` writes into `Object.prototype`, and `__eq__` raises TypeError when the other dict holds the str key `"hasOwnProperty"` (line 316). None of this is modelled. The one such name the model does keep is `"length"` in the test of line 289 (`Equality.LengthTestPasses`); that test is the same mechanism.
- Bulk.InitLoop: an element with fewer than two items ends the loop with `ShortElement(i)`. The source does not check: it reads `undefined` for a missing `item[0]` or `item[1]` and stores it through `$setitem`. Undefined is not a value of the model. Items past the second are ignored, as in the source.
- PyDict.Dict.InitFromList: the same `ShortElement(i)` stands in for the undefined key or value.
- Lookup.GetItemComplete: assumes `StrInstancesExact`, under which an object equals a string only when it is a str instance with that value. Without it `$getitem` can miss a stored key. Take a lawful protocol where `Other(7)` equals `"a"`, every string hashes to 0, and `strValue` is none. Store `"a"`, then `"b"`; `$str_hash[0]` is now `"b"` (line 688). Then `Other(7)` equals the stored `"a"`, but `$getitem` raises KeyError (lines 394-410), and `$setitem` stores it as a third entry.
- Lookup.ContainsKeyExact: assumes `StrInstancesExact` too, and misses the same key in the same case.
- Lookup.GetItemSound: assumes `StrInstancesExact`. Without it `$getitem` can return the value of a key the argument does not equal: a str instance is looked up by its string value, and its own `__eq__` is never asked (lines 401-404). `Lookup.GetItemStrInstanceUnsound` shows it: with a str instance `x` holding "a" that equals only itself, `{"a": 1}[x]` returns 1.
- Properties.PopAbsent: assumes `StrInstancesExact`. Without it, `pop` of a str instance that equals no stored key but holds a stored string raises `KeyError(str(key))` from `__delitem__` instead of `KeyError(key)` (`Properties.PopStrInstanceMisses`).
- Properties.GetAfterPutEqual: excludes object keys that are str instances, for the reason given for `Properties.GetAfterPut`.
- Lookup.HashTargetEqual: assumes `StrInstancesExact`, for the same str-instance branch.
- Lookup.RemoveEqualExact: assumes `StrInstancesExact`. It rests on `GetItemSound` and `GetItemComplete`.
- Properties.PopEqualPresent: assumes `StrInstancesExact` and that no two stored keys are equal. It rests on `RemoveEqualExact`; the unique keys pick out the one entry.
- Merge.GetItemSame: assumes `StrInstancesExact`, so that an equal string is found by the `$str_hash` path and no other.
- Merge.PutKeepsLookup: assumes `StrInstancesExact`, through `GetItemSame`.
- Merge.CopyFrames: assumes `StrInstancesExact`, through `GetItemSame`, and excludes a key that is a str instance, as `Merge.PutKeepsLookup` does.
- Merge.CopyGets: assumes `StrInstancesExact`, through `GetItemSame`.
- Store.PutEqual: the rest of the model keeps `$setitem` as written, since every other operation of the source stores through it. The corrected member is proved to keep the invariant and unique keys and to read back what it stored, and nothing else is built on it.
- Properties.PutStoredIdentity: requires that no two stored keys are equal. With `True` in a chain and `1` as an int entry, `d[True] = d[True]` writes to the int entry and bumps `$version` (lines 709-711).
- Properties.CopyStoredIdentity: requires unique keys for the same reason.
- Merge.UpdateGets: assumes `StrInstancesExact`, and requires unique keys in the other dict and no str-instance object keys. With two equal keys the later one wins, and a str instance can be shadowed by an equal string as in `Properties.GetAfterPut`.
- Merge.UpdateFrames: assumes `StrInstancesExact`, and excludes str-instance object keys for the same reason.
- Merge.OrKeepsLeft: assumes `StrInstancesExact`, and requires unique keys in d and no str-instance object keys, for the same reasons.
- PyDict.Dict.Ior: its merge clauses cover another dict only, and assume `StrInstancesExact` as `Merge.UpdateGets` does. `d |= d` is covered by `Properties.UpdateSelf`.
- PyDict.Dict.Or: its merge clauses carry `StrInstancesExact` and the same requirements as `Merge.UpdateGets` and `Merge.OrKeepsLeft`.

## Findings

| source | as written | input that shows it | evidently intended | confidence | as-written member | corrected member |
|---|---|---|---|---|---|---|
| www/src/py_dict.js:216-221 | for an int or str key `__contains__` consults only `$numeric_dict` / `$string_dict` and returns false on a miss | `d = {True: 'x'}`; `1 in d` is false while `d[1]` is `'x'` | `in` agrees with `$getitem`: fall through to the hashed lookup when the fast path misses | not executed | Lookup.ContainsMissesEqualKey | Lookup.ContainsKeyExact |
| www/src/py_dict.js:332-334 | `__eq__` returns false when o has no pair at a hash of d's `$object_dict`, even when d's chain there is empty | `d = {}; d[k] = None; del d[k]` for an object key k; `d == d` is false | an emptied chain has nothing to match and is skipped | not executed | Equality.EqualsAsWrittenNotReflexive | Equality.EqualsReflexive |
| www/src/py_dict.js:289-291 | `self.$string_dict.length != other.$string_dict.length` reads the entry of the str key `"length"` when there is one, and two dicts never share that `[value, rank]` array | `{"length": 1} == {"length": 1}` is false | compare the numbers of string keys, or drop the test, which `__len__` already covers | not executed | Equality.EqualsAsWrittenLength | Equality.EqualsReflexive |
| www/src/py_dict.js:260-268 | for a key that is neither str nor int, `__delitem__` searches only the chain under its hash, not `$numeric_dict[hash]` or `$str_hash[hash]` as `$getitem` does | `d = {1: 'a'}`; `d[True]` is `'a'`, while `del d[True]` and `d.pop(True)` raise KeyError | delete the entry `$getitem` reads | not executed | Properties.DelMissesEqualKey | Properties.PopEqualPresent |
| www/src/py_dict.js:692-701 | for a str or int key missing from its own table, `$setitem` adds a new entry there without looking at the chain under its hash, so an equal object key stored earlier stays beside it | `d = {True: 'a'}; d[1] = 'b'` leaves two entries and `len(d) == 2` | replace the value of the equal chain entry: `{True: 'b'}` | not executed | Properties.SetItemKeepsEqualKeys | Properties.PutEqualKeepsUnique |
