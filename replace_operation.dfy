/** The OT primitive for one scalar field that is replaced as a whole
    (last writer wins). */
module ReplaceOperation {
  import opened Wrappers

  datatype UpOperation<T> = UpOperation(newValue: T)
  datatype DownOperation<T> = DownOperation(oldValue: T)
  datatype TwoWayOperation<T> = TwoWayOperation(oldValue: T, newValue: T)

  /** A scalar value together with its privacy flag. */
  datatype PrivateValue<T> = PrivateValue(isValuePrivate: bool, value: T)

  function ToUpOperation<T>(op: TwoWayOperation<T>): UpOperation<T> {
    UpOperation(op.newValue)
  }

  function ToDownOperation<T>(op: TwoWayOperation<T>): DownOperation<T> {
    DownOperation(op.oldValue)
  }

  /** The field after a forward step: the new value, or the old field when absent. */
  function Apply<T>(state: T, op: Option<UpOperation<T>>): T {
    if op.Some? then op.value.newValue else state
  }

  /** The field after a backward step. */
  function ApplyBack<T>(state: T, op: Option<DownOperation<T>>): T {
    if op.Some? then op.value.oldValue else state
  }

  /** Composition of two down-operations, `first` being the earlier one in
      history: its old value, the earliest, survives. */
  function ComposeDownOperation<T>(first: Option<DownOperation<T>>, second: Option<DownOperation<T>>)
    : (r: Option<DownOperation<T>>)
    ensures first.None? ==> r == second
    ensures first.Some? ==> r == Some(DownOperation(first.value.oldValue))
  {
    if first.None? then second
    else if second.None? then first
    else Some(DownOperation(first.value.oldValue))
  }

  /** A client change survives the server transform: the server left the
      field alone and the client gives it a different value. */
  predicate Accepts<T(==)>(first: Option<TwoWayOperation<T>>, second: Option<UpOperation<T>>, prevState: T) {
    first.None? && second.Some? && second.value.newValue != prevState
  }

  /** Server-side transform: the server's own change (`first`) wins; a
      client change is accepted only against an untouched field and only
      when it changes the value. */
  function ServerTransform<T(==)>(first: Option<TwoWayOperation<T>>, second: Option<UpOperation<T>>, prevState: T)
    : (r: Option<TwoWayOperation<T>>)
    ensures r.Some? <==> Accepts(first, second, prevState)
    ensures r.Some? ==> r.value == TwoWayOperation(prevState, second.value.newValue)
    ensures r.Some? ==> r.value.oldValue != r.value.newValue
  {
    if first.None? && second.Some? && prevState != second.value.newValue then
      Some(TwoWayOperation(prevState, second.value.newValue))
    else
      None
  }

  /** Peer transform of two pending up-operations: a scalar cannot be
      merged, so `first` wins and `second` survives only alone. */
  function ClientTransform<T>(first: Option<UpOperation<T>>, second: Option<UpOperation<T>>)
    : (r: Primes<UpOperation<T>, UpOperation<T>>)
    ensures first.None? ==> r == Primes(None, second)
    ensures first.Some? ==> r == Primes(first, None)
  {
    if first.None? then Primes(None, second) else Primes(first, None)
  }

  /** What an up-operation on a privacy-guarded value looks like to a viewer:
      an unauthorised viewer never receives a private value, sees the value
      when it is made public, and sees `defaultState` when it is made private. */
  function ToPrivateClientOperation<T>(oldValue: PrivateValue<T>, newValue: PrivateValue<T>, defaultState: T, isAuthorized: bool)
    : (r: Option<UpOperation<T>>)
    ensures isAuthorized ==> r == Some(UpOperation(newValue.value))
    ensures !isAuthorized && oldValue.isValuePrivate && newValue.isValuePrivate ==> r.None?
    ensures !isAuthorized && oldValue.isValuePrivate && !newValue.isValuePrivate ==> r == Some(UpOperation(newValue.value))
    ensures !isAuthorized && !oldValue.isValuePrivate && newValue.isValuePrivate ==> r == Some(UpOperation(defaultState))
    ensures !isAuthorized && !oldValue.isValuePrivate && !newValue.isValuePrivate ==> r == Some(UpOperation(newValue.value))
  {
    if oldValue.isValuePrivate && !isAuthorized then
      if newValue.isValuePrivate then None else Some(UpOperation(newValue.value))
    else if newValue.isValuePrivate && !isAuthorized then
      Some(UpOperation(defaultState))
    else
      Some(UpOperation(newValue.value))
  }

  /** An unauthorised viewer is never sent the value of a field that is
      private after the change. */
  lemma PrivateValueNeverLeaks<T>(oldValue: PrivateValue<T>, newValue: PrivateValue<T>, defaultState: T)
    requires newValue.isValuePrivate
    ensures var r := ToPrivateClientOperation(oldValue, newValue, defaultState, false);
      r.None? || r.value.newValue == defaultState
  {
  }

  /** The accepted server transform reaches what the client asked for when
      applied to the client's revision, and undoes back to it. */
  lemma ServerTransformReachesRequest<T>(second: UpOperation<T>, prevState: T)
    ensures var r := ServerTransform(None, Some(second), prevState);
      Apply(prevState, if r.Some? then Some(ToUpOperation(r.value)) else None) == second.newValue
      && ApplyBack(second.newValue, if r.Some? then Some(ToDownOperation(r.value)) else None) == prevState
  {
  }

  /** Composition is sequential backward application. */
  lemma ComposeDownIsSequentialApplyBack<T>(state: T, first: Option<DownOperation<T>>, second: Option<DownOperation<T>>)
    ensures ApplyBack(state, ComposeDownOperation(first, second)) == ApplyBack(ApplyBack(state, second), first)
  {
  }

  /** Composition is associative. */
  lemma ComposeDownAssociative<T>(a: Option<DownOperation<T>>, b: Option<DownOperation<T>>, c: Option<DownOperation<T>>)
    ensures ComposeDownOperation(ComposeDownOperation(a, b), c) == ComposeDownOperation(a, ComposeDownOperation(b, c))
  {
  }

  /** The peer transform converges: either order of application followed by
      the other side's prime gives the same field. */
  lemma ClientTransformConverges<T>(state: T, first: Option<UpOperation<T>>, second: Option<UpOperation<T>>)
    ensures var p := ClientTransform(first, second);
      Apply(Apply(state, first), p.secondPrime) == Apply(Apply(state, second), p.firstPrime)
  {
  }
}
