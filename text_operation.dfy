/** The string OT used by text fields. Its implementation (the
    `util/textOperation` modules over `@kizahasi/ot-string`) is not part of
    this model: the operation types are opaque, the operations are a bundle
    of functions passed to every entity that has a text field, and what the
    entities rely on is stated as laws about that bundle. */
module TextOperation {
  import opened Wrappers

  type UpOperation(!new)
  type DownOperation(!new)
  type TwoWayOperation(!new)

  /** The operations of the string OT, as the entities call them. */
  datatype TextOps = TextOps(
    apply: (string, UpOperation) -> Result<string>,
    applyBack: (string, DownOperation) -> Result<string>,
    /** composition of two optional up-operations, `first` earlier */
    composeUp: (Option<UpOperation>, Option<UpOperation>) -> Result<Option<UpOperation>>,
    /** composition of two optional down-operations, `first` earlier */
    composeDown: (Option<DownOperation>, Option<DownOperation>) -> Result<Option<DownOperation>>,
    /** the earlier string and the two-way operation back to the given one */
    restore: (string, DownOperation) -> Result<RestoreResult<string, TwoWayOperation>>,
    diff: (string, string) -> Option<TwoWayOperation>,
    /** the server's own operation, the client's, and the client's revision;
        the result is the transformed client operation (`secondPrime`) */
    serverTransform: (Option<TwoWayOperation>, Option<UpOperation>, string) -> Result<Option<TwoWayOperation>>,
    clientTransform: (Option<UpOperation>, Option<UpOperation>) -> Result<Primes<UpOperation, UpOperation>>,
    toUp: TwoWayOperation -> UpOperation,
    toDown: TwoWayOperation -> DownOperation)

  /** An optional up-operation applied to a string. */
  function ApplyOptional(text: TextOps, state: string, u: Option<UpOperation>): (r: Result<string>)
    ensures u.None? ==> r == Ok(state)
    ensures u.Some? ==> r == text.apply(state, u.value)
  {
    if u.None? then Ok(state) else text.apply(state, u.value)
  }

  /** An optional down-operation applied backwards to a string. */
  function ApplyBackOptional(text: TextOps, state: string, d: Option<DownOperation>): (r: Result<string>)
    ensures d.None? ==> r == Ok(state)
    ensures d.Some? ==> r == text.applyBack(state, d.value)
  {
    if d.None? then Ok(state) else text.applyBack(state, d.value)
  }

  /** The diff is empty exactly between equal strings, and a non-empty diff
      leads from the first string to the second forwards and back. */
  ghost predicate DiffLaw(text: TextOps) {
    forall a, b :: (text.diff(a, b).None? <==> a == b)
      && (text.diff(a, b).Some? ==>
            text.apply(a, text.toUp(text.diff(a, b).value)) == Ok(b)
            && text.applyBack(b, text.toDown(text.diff(a, b).value)) == Ok(a))
  }

  /** Restore succeeds exactly when the backward application does, yields
      its result, and the two-way operation leads from there to the given
      string (or is absent when nothing changed). */
  ghost predicate RestoreLaw(text: TextOps) {
    forall s, d :: (text.restore(s, d).Ok? <==> text.applyBack(s, d).Ok?)
      && (text.restore(s, d).Ok? ==>
            text.restore(s, d).value.prevState == text.applyBack(s, d).value
            && (text.restore(s, d).value.twoWayOperation.None? ==> text.restore(s, d).value.prevState == s)
            && (text.restore(s, d).value.twoWayOperation.Some? ==>
                  text.apply(text.restore(s, d).value.prevState, text.toUp(text.restore(s, d).value.twoWayOperation.value)) == Ok(s)
                  && text.applyBack(s, text.toDown(text.restore(s, d).value.twoWayOperation.value)) == Ok(text.restore(s, d).value.prevState)))
  }

  /** Down-composition is sequential backward application. */
  ghost predicate ComposeDownLaw(text: TextOps) {
    forall x, d1, d2 :: ApplyBackOptional(text, x, d2).Ok? && ApplyBackOptional(text, ApplyBackOptional(text, x, d2).value, d1).Ok? ==>
      text.composeDown(d1, d2).Ok?
      && ApplyBackOptional(text, x, text.composeDown(d1, d2).value) == ApplyBackOptional(text, ApplyBackOptional(text, x, d2).value, d1)
  }

  /** Up-composition is sequential application. */
  ghost predicate ComposeUpLaw(text: TextOps) {
    forall x, u1, u2 :: ApplyOptional(text, x, u1).Ok? && ApplyOptional(text, ApplyOptional(text, x, u1).value, u2).Ok? ==>
      text.composeUp(u1, u2).Ok?
      && ApplyOptional(text, x, text.composeUp(u1, u2).value) == ApplyOptional(text, ApplyOptional(text, x, u1).value, u2)
  }

  /** The peer transform converges (TP1). */
  ghost predicate ClientTransformLaw(text: TextOps) {
    forall x, u1, u2 :: ApplyOptional(text, x, u1).Ok? && ApplyOptional(text, x, u2).Ok? && text.clientTransform(u1, u2).Ok? ==>
      ApplyOptional(text, ApplyOptional(text, x, u1).value, text.clientTransform(u1, u2).value.secondPrime).Ok?
      && ApplyOptional(text, ApplyOptional(text, x, u1).value, text.clientTransform(u1, u2).value.secondPrime)
         == ApplyOptional(text, ApplyOptional(text, x, u2).value, text.clientTransform(u1, u2).value.firstPrime)
  }

  /** Without a concurrent server operation, the server transform of an
      applicable client operation succeeds and has the client's effect. */
  ghost predicate ServerTransformLaw(text: TextOps) {
    forall s, u :: ApplyOptional(text, s, u).Ok? ==>
      text.serverTransform(None, u, s).Ok?
      && ApplyOptional(text, s, MapOption(text.serverTransform(None, u, s).value, text.toUp)) == ApplyOptional(text, s, u)
  }
}
