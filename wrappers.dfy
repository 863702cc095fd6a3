/** Shared value types of the OT engine: optional values, results with the
    engine's error kinds, the pair of transformed operations and the result
    of a restore. */
module Wrappers {

  /** `None` stands for a TypeScript `undefined`/absent field. */
  datatype Option<+T> = None | Some(value: T)

  /** Why an operation was rejected. The source reports these as message
      strings; only their kind is kept here. */
  datatype Error =
    /** an `update` targets a key that the reference state does not have */
    | MissingKey
    /** composing an `update` with a later `replace` whose `oldValue` is absent */
    | UpdateOverAbsentValue
    /** a client-chosen key fails the key allow-list */
    | InvalidKey
    /** a client asks to remove an element absent at its revision */
    | RemoveNonExisting
    /** a client asks to create an element present at its revision */
    | AddExisting
    /** a client asks to update an element absent at its revision */
    | UpdateNonExisting
    /** the peer transform met an update against a creation (thrown in the source) */
    | ElementAlreadyExists
    /** an error raised by a collaborator outside this model (string OT, pieces) */
    | External(code: int)

  datatype Result<+T> = Ok(value: T) | Err(error: Error)

  /** The two operations returned by a transform. */
  datatype Primes<+F, +S> = Primes(firstPrime: Option<F>, secondPrime: Option<S>)

  /** What `restore` returns: the state before the down-operation and the
      two-way operation leading back to the given state. */
  datatype RestoreResult<+S, +T> = RestoreResult(prevState: S, twoWayOperation: Option<T>)

  /** Maps an optional value. */
  function MapOption<X, Y>(o: Option<X>, f: X -> Y): (r: Option<Y>)
    ensures r.Some? <==> o.Some?
    ensures r.Some? ==> r.value == f(o.value)
  {
    if o.None? then None else Some(f(o.value))
  }

  /** Looks a key up in a map, `None` when it is absent. */
  function Get<K, V>(m: map<K, V>, k: K): (r: Option<V>)
    ensures r.Some? <==> k in m
    ensures r.Some? ==> r.value == m[k]
  {
    if k in m then Some(m[k]) else None
  }

  /** Two maps that agree on every lookup are equal. */
  lemma GetExtensional<K, V>(a: map<K, V>, b: map<K, V>)
    requires forall k :: Get(a, k) == Get(b, k)
    ensures a == b
  {
    assert a.Keys == b.Keys by {
      forall k | k in a ensures k in b { assert Get(a, k).Some?; }
      forall k | k in b ensures k in a { assert Get(b, k).Some?; }
    }
    forall k | k in a ensures a[k] == b[k] { assert Get(a, k) == Get(b, k); }
  }
}
