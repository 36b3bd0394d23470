/** Failure-compatible wrappers shared by every module of the model. */
module Base {

  /** A value that may be absent (Python's `None` as "no result"). */
  datatype Option<+T> = None | Some(value: T) {
    function GetOr(default: T): T {
      match this
      case Some(v) => v
      case None => default
    }
  }

  /** The outcome of an operation that may raise: a value, or the error it raised. */
  datatype Result<+T, +E> = Ok(value: T) | Err(error: E) {
    predicate IsFailure() { Err? }
    function PropagateFailure<U>(): Result<U, E>
      requires Err?
    {
      Err(error)
    }
    function Extract(): T
      requires Ok?
    {
      value
    }
  }

  /** True iff no element of `s` occurs twice. */
  predicate NoDuplicates<T(==)>(s: seq<T>) {
    forall i, j :: 0 <= i < j < |s| ==> s[i] != s[j]
  }

  /** `s` with its elements in the opposite order. */
  function Reverse<T>(s: seq<T>): (r: seq<T>)
    ensures |r| == |s|
    ensures forall k :: 0 <= k < |s| ==> r[k] == s[|s| - 1 - k]
  {
    if s == [] then [] else Reverse(s[1..]) + [s[0]]
  }

  /** Moving one key out of the pending set keeps `base` overlaid with the handled part of `m`. */
  lemma DrainStep<K, V>(base: map<K, V>, m: map<K, V>, todo: set<K>, k: K)
    requires k in todo && k in m
    ensures (base + (m - todo))[k := m[k]] == base + (m - (todo - {k}))
  {
  }
}
