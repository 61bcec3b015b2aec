/** Failure-carrying results shared by every module of the model.

    The modelled program is written in Python and signals failure by raising
    exceptions; each exception class that the core can raise becomes one
    constructor of `Error`. `Diverges` stands for a loop that the program runs
    forever (the statement parser of the first tokenizer on a line that it
    never consumes). */
module Outcomes {

  /** A byte, as found in Python's `bytes`. */
  type Byte = b: int | 0 <= b < 256

  datatype Error =
    | KeyError        // missing dictionary key, `set.pop()` on an empty set
    | ValueError      // `int()` on malformed text, tuple unpacking of the wrong length
    | TypeError       // a dataclass constructor called with the wrong number of arguments
    | IndexError      // `x[0]` on an empty list
    | AttributeError  // reading `out_reg` of a node class that has no such attribute
    | StructError     // `struct.pack` on an integer that does not fit its field
    | Diverges        // the program loops forever

  datatype Option<T> = None | Some(value: T)

  datatype Result<T> = Ok(value: T) | Err(error: Error) {
    predicate IsFailure() { Err? }
    function PropagateFailure<U>(): Result<U>
      requires Err?
    {
      Err(error)
    }
    function Extract(): T
      requires Ok?
    {
      value
    }
  }

  /** Result of an operation that only changes state. */
  datatype Outcome = Pass | Fail(error: Error)

  function OptionToResult<T>(o: Option<T>, e: Error): (r: Result<T>)
    ensures r.Ok? <==> o.Some?
    ensures r.Ok? ==> r.value == o.value
    ensures r.Err? ==> r.error == e
  {
    match o
    case Some(v) => Ok(v)
    case None => Err(e)
  }

  /** Python's `s[1:]`: total, empty on the empty string. */
  function DropFirst<T>(s: seq<T>): (r: seq<T>)
    ensures |s| > 0 ==> r == s[1..]
    ensures |s| == 0 ==> r == []
  {
    if |s| == 0 then [] else s[1..]
  }

  /** Python's `s[:-1]`: total, empty on the empty string. */
  function DropLast<T>(s: seq<T>): (r: seq<T>)
    ensures |s| > 0 ==> r == s[..|s| - 1]
    ensures |s| == 0 ==> r == []
  {
    if |s| == 0 then [] else s[..|s| - 1]
  }

  predicate NoDuplicates<T(==)>(s: seq<T>) {
    forall i, j :: 0 <= i < j < |s| ==> s[i] != s[j]
  }

  /** Prefixing the items of a successful run; an error passes through. */
  function Then<T>(prefix: seq<T>, r: Result<seq<T>>): Result<seq<T>> {
    match r
    case Ok(v) => Ok(prefix + v)
    case Err(e) => Err(e)
  }

  /** The empty prefix changes nothing. */
  lemma ThenNothing<T>(r: Result<seq<T>>)
    ensures Then([], r) == r
  {
    match r
    case Ok(v) => assert [] + v == v;
    case Err(_) =>
  }

  /** Prefixing twice is prefixing once with both. */
  lemma ThenThen<T>(prefix: seq<T>, t: T, r: Result<seq<T>>)
    ensures Then(prefix, Then([t], r)) == Then(prefix + [t], r)
  {
    match r
    case Ok(v) => assert prefix + ([t] + v) == prefix + [t] + v;
    case Err(_) =>
  }
}
