/** The JSON values that flow through the pipeline, as the record stream
    hands them over, and the two failure-compatible wrappers the stages use. */
module Json {

  datatype Option<+T> = None | Some(value: T)

  datatype Result<+T, +E> = Ok(value: T) | Err(error: E)

  /** A JSON value. Strings and integers are interpreted; every other value
      (a float, a boolean, an array, a nested object) is kept abstract:
      only its identity and its Python truthiness matter to the pipeline. */
  datatype Value =
    | Str(s: string)
    | Int(n: int)
    | Null
    | Opaque(tag: int, truthy: bool)

  /** A JSON object: field name to value. */
  type Record = map<string, Value>

  /** One element of the top-level JSON array. */
  datatype Element = Object(fields: Record) | NonObject(v: Value)

  /** Python truthiness: the empty string, zero and None are false. */
  predicate Truthy(v: Value)
  {
    match v
    case Str(s) => s != ""
    case Int(n) => n != 0
    case Null => false
    case Opaque(_, t) => t
  }

  /** A permutation of a non-empty sequence is its last element placed
      somewhere within a permutation of the rest. */
  lemma PermutationSplit<T>(a: seq<T>, b: seq<T>) returns (b1: seq<T>, b2: seq<T>)
    requires multiset(a) == multiset(b) && a != []
    ensures b == b1 + [a[|a| - 1]] + b2
    ensures multiset(a[..|a| - 1]) == multiset(b1 + b2)
  {
    var x := a[|a| - 1];
    var a' := a[..|a| - 1];
    assert a == a' + [x];
    assert x in multiset(b);
    var j :| 0 <= j < |b| && b[j] == x;
    b1, b2 := b[..j], b[j + 1..];
    assert b == b1 + [x] + b2;
    assert multiset(a) == multiset(a') + multiset{x};
    assert multiset(b) == multiset(b1) + multiset{x} + multiset(b2);
    assert multiset(b1 + b2) == multiset(b1) + multiset(b2);
    assert multiset(a') == multiset(a) - multiset{x};
    assert multiset(b1 + b2) == multiset(b) - multiset{x};
  }
}
