/**
 * Python objects as the dictionary sees them, and the hash/equality protocol
 * that the object model supplies for keys that are not plain ints or strings.
 */
module Objects {

  datatype Option<+T> = None | Some(value: T)

  /** A Python object used as a key or a value.
   *  Int and Str are the values whose JavaScript `typeof` is "number" and
   *  "string": they take the dictionary's fast paths. Everything else
   *  (booleans, tuples, instances, subclasses of int or str, ...) is an
   *  Other object, identified by an opaque reference. */
  datatype PyObject = Int(i: int) | Str(s: string) | Other(ref: nat)

  /** Python's None, one of the Other objects. */
  const PyNone: PyObject := Other(0)

  /** The hash and rich-equality operations of the object model, and the
   *  `isinstance(obj, str)` test with the string value of a str instance. */
  datatype Protocol = Protocol(
    hash: PyObject -> int,
    eq: (PyObject, PyObject) -> bool,
    strValue: PyObject -> Option<string>)

  ghost predicate EqReflexive(p: Protocol) {
    forall a :: p.eq(a, a)
  }

  ghost predicate EqSymmetric(p: Protocol) {
    forall a, b :: p.eq(a, b) ==> p.eq(b, a)
  }

  ghost predicate EqTransitive(p: Protocol) {
    forall a, b, c :: p.eq(a, b) && p.eq(b, c) ==> p.eq(a, c)
  }

  /** Equal objects hash equal: the object model's contract, not checked by the dictionary. */
  ghost predicate HashRespectsEq(p: Protocol) {
    forall a, b :: p.eq(a, b) ==> p.hash(a) == p.hash(b)
  }

  /** Plain ints and strings compare natively, never equal each other, and an
   *  int hashes to itself (the dictionary looks `$numeric_dict[hash]` up). */
  ghost predicate NativeKeys(p: Protocol) {
    && (forall m, n :: p.eq(Int(m), Int(n)) <==> m == n)
    && (forall s, t :: p.eq(Str(s), Str(t)) <==> s == t)
    && (forall n, s :: !p.eq(Int(n), Str(s)))
    && (forall n :: p.hash(Int(n)) == n)
  }

  ghost predicate Lawful(p: Protocol) {
    EqReflexive(p) && EqSymmetric(p) && EqTransitive(p) && HashRespectsEq(p) && NativeKeys(p)
  }

  /** An object that is not a plain str equals the string s exactly when it
   *  is a str instance holding s (a str subclass); nothing else equals a str. */
  ghost predicate StrInstancesExact(p: Protocol) {
    forall k: PyObject, s: string :: k.Other? ==> (p.eq(k, Str(s)) <==> p.strValue(k) == Some(s))
  }

  /** `isinstance(obj, str)` together with the string it holds. */
  function StrInstanceValue(p: Protocol, k: PyObject): Option<string> {
    match k
    case Str(s) => Some(s)
    case Int(_) => None
    case Other(_) => p.strValue(k)
  }

  /** The exceptions the dictionary raises. */
  datatype Exception =
    | KeyError(key: PyObject)       // KeyError(key), as `$getitem` raises it
    | KeyErrorOfStr(key: PyObject)  // KeyError(str(key)), as `__delitem__` raises it
    | EmptyDictKeyError             // KeyError "popitem(): dictionary is empty"
    | NotASequence(element: nat)    // TypeError from update: element is not a sequence
    | BadLength(element: nat, length: nat) // ValueError from update: element length is not 2
    | SizeChanged                   // RuntimeError "dictionary changed size during iteration"
    | MutatedDuringUpdate           // RuntimeError "dict mutated during update"
    | StopIteration
    | ShortElement(element: nat)    // an element of `init_from_list` with no item 0 or no item 1

  datatype Result<+T> = Ok(value: T) | Err(error: Exception)

  /** The decimal text of an integer, as JavaScript writes a numeric property name. */
  function Decimal(n: int): (s: string)
    ensures |s| > 0
  {
    if n < 0 then "-" + Digits(-n) else Digits(n)
  }

  function Digits(n: nat): (s: string)
    ensures |s| > 0
  {
    if n < 10 then [DigitChar(n)] else Digits(n / 10) + [DigitChar(n % 10)]
  }

  function DigitChar(d: nat): char
    requires d < 10
  {
    "0123456789"[d]
  }
}
