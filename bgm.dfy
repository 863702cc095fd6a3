/** Background music of a room: whether it is paused, its playlist and its
    volume, each a scalar field replaced as a whole. Every operation is the
    field-wise combination of the replace primitive, and the engine's laws
    hold here outright. The version tag of the source records is constant
    and left out. */
module Bgm {
  import opened Wrappers
  import FilePath
  import ReplaceOperation

  type Files = seq<FilePath.FilePath>

  /** `volume` is only compared and copied, so a real stands for the number. */
  datatype State = State(isPaused: bool, files: Files, volume: real)

  datatype UpOperation = UpOperation(
    isPaused: Option<ReplaceOperation.UpOperation<bool>>,
    files: Option<ReplaceOperation.UpOperation<Files>>,
    volume: Option<ReplaceOperation.UpOperation<real>>)

  datatype DownOperation = DownOperation(
    isPaused: Option<ReplaceOperation.DownOperation<bool>>,
    files: Option<ReplaceOperation.DownOperation<Files>>,
    volume: Option<ReplaceOperation.DownOperation<real>>)

  datatype TwoWayOperation = TwoWayOperation(
    isPaused: Option<ReplaceOperation.TwoWayOperation<bool>>,
    files: Option<ReplaceOperation.TwoWayOperation<Files>>,
    volume: Option<ReplaceOperation.TwoWayOperation<real>>)

  /** An operation with no field is "no operation" (`isIdRecord`). */
  predicate IsIdUp(op: UpOperation) { op.isPaused.None? && op.files.None? && op.volume.None? }
  predicate IsIdTwoWay(op: TwoWayOperation) { op.isPaused.None? && op.files.None? && op.volume.None? }

  function NormalizeUp(op: UpOperation): (r: Option<UpOperation>)
    ensures r.None? <==> IsIdUp(op)
    ensures r.Some? ==> r.value == op
  {
    if IsIdUp(op) then None else Some(op)
  }

  function NormalizeTwoWay(op: TwoWayOperation): (r: Option<TwoWayOperation>)
    ensures r.None? <==> IsIdTwoWay(op)
    ensures r.Some? ==> r.value == op
  {
    if IsIdTwoWay(op) then None else Some(op)
  }

  function ToUpOperation(source: TwoWayOperation): UpOperation {
    UpOperation(MapOption(source.isPaused, ReplaceOperation.ToUpOperation),
                MapOption(source.files, ReplaceOperation.ToUpOperation),
                MapOption(source.volume, ReplaceOperation.ToUpOperation))
  }

  function ToDownOperation(source: TwoWayOperation): DownOperation {
    DownOperation(MapOption(source.isPaused, ReplaceOperation.ToDownOperation),
                  MapOption(source.files, ReplaceOperation.ToDownOperation),
                  MapOption(source.volume, ReplaceOperation.ToDownOperation))
  }

  // ---------------------------------------------------------------------
  // apply and applyBack

  /** Each present field takes its new value; absent fields are unchanged. */
  function Applied(state: State, operation: UpOperation): (r: State)
    ensures r.isPaused == (if operation.isPaused.Some? then operation.isPaused.value.newValue else state.isPaused)
    ensures r.files == (if operation.files.Some? then operation.files.value.newValue else state.files)
    ensures r.volume == (if operation.volume.Some? then operation.volume.value.newValue else state.volume)
  {
    State(ReplaceOperation.Apply(state.isPaused, operation.isPaused),
          ReplaceOperation.Apply(state.files, operation.files),
          ReplaceOperation.Apply(state.volume, operation.volume))
  }

  /** Applies an up-operation to a copy of the state; it never fails. */
  method Apply(state: State, operation: UpOperation) returns (r: Result<State>)
    ensures r == Ok(Applied(state, operation))
  {
    var result := state;
    if operation.isPaused.Some? {
      result := result.(isPaused := operation.isPaused.value.newValue);
    }
    if operation.files.Some? {
      result := result.(files := operation.files.value.newValue);
    }
    if operation.volume.Some? {
      result := result.(volume := operation.volume.value.newValue);
    }
    return Ok(result);
  }

  /** Each present field takes its old value; absent fields are unchanged. */
  function AppliedBack(state: State, operation: DownOperation): (r: State)
    ensures r.isPaused == (if operation.isPaused.Some? then operation.isPaused.value.oldValue else state.isPaused)
    ensures r.files == (if operation.files.Some? then operation.files.value.oldValue else state.files)
    ensures r.volume == (if operation.volume.Some? then operation.volume.value.oldValue else state.volume)
  {
    State(ReplaceOperation.ApplyBack(state.isPaused, operation.isPaused),
          ReplaceOperation.ApplyBack(state.files, operation.files),
          ReplaceOperation.ApplyBack(state.volume, operation.volume))
  }

  /** Applies a down-operation to a copy of the state; it never fails. */
  method ApplyBack(state: State, operation: DownOperation) returns (r: Result<State>)
    ensures r == Ok(AppliedBack(state, operation))
  {
    var result := state;
    if operation.isPaused.Some? {
      result := result.(isPaused := operation.isPaused.value.oldValue);
    }
    if operation.files.Some? {
      result := result.(files := operation.files.value.oldValue);
    }
    if operation.volume.Some? {
      result := result.(volume := operation.volume.value.oldValue);
    }
    return Ok(result);
  }

  /** An optional up-operation; absent means no change. */
  function ApplyOptional(state: State, operation: Option<UpOperation>): State {
    if operation.None? then state else Applied(state, operation.value)
  }

  function ApplyBackOptional(state: State, operation: Option<DownOperation>): State {
    if operation.None? then state else AppliedBack(state, operation.value)
  }

  // ---------------------------------------------------------------------
  // composeDownOperation

  /** Field-wise composition, `first` earlier: the earliest old value of
      each field survives. It never fails. */
  function ComposeDownOperation(first: DownOperation, second: DownOperation): (r: Result<DownOperation>)
    ensures r.Ok?
    ensures r.value.isPaused == (if first.isPaused.Some? then first.isPaused else second.isPaused)
    ensures r.value.files == (if first.files.Some? then first.files else second.files)
    ensures r.value.volume == (if first.volume.Some? then first.volume else second.volume)
  {
    Ok(DownOperation(ReplaceOperation.ComposeDownOperation(first.isPaused, second.isPaused),
                     ReplaceOperation.ComposeDownOperation(first.files, second.files),
                     ReplaceOperation.ComposeDownOperation(first.volume, second.volume)))
  }

  /** Composition is sequential backward application. */
  lemma ComposeDownIsSequentialApplyBack(state: State, first: DownOperation, second: DownOperation)
    ensures AppliedBack(state, ComposeDownOperation(first, second).value) == AppliedBack(AppliedBack(state, second), first)
  {
  }

  // ---------------------------------------------------------------------
  // restore

  /** The specification of `restore`: the state before the down-operation,
      and the two-way operation whose old values are the down-operation's
      and whose new values are the given state's. */
  function Restored(nextState: State, downOperation: Option<DownOperation>): (r: RestoreResult<State, TwoWayOperation>)
    ensures downOperation.None? ==> r == RestoreResult(nextState, None)
    ensures downOperation.Some? ==> r.prevState == AppliedBack(nextState, downOperation.value)
    ensures downOperation.Some? ==> (r.twoWayOperation.None? <==> downOperation.value == DownOperation(None, None, None))
    ensures r.twoWayOperation.Some? ==> downOperation.Some? && ToDownOperation(r.twoWayOperation.value) == downOperation.value
  {
    if downOperation.None? then RestoreResult(nextState, None)
    else
      var d := downOperation.value;
      RestoreResult(AppliedBack(nextState, d),
                    NormalizeTwoWay(TwoWayOperation(
                      MapOption(d.isPaused, (o: ReplaceOperation.DownOperation<bool>) => ReplaceOperation.TwoWayOperation(o.oldValue, nextState.isPaused)),
                      MapOption(d.files, (o: ReplaceOperation.DownOperation<Files>) => ReplaceOperation.TwoWayOperation(o.oldValue, nextState.files)),
                      MapOption(d.volume, (o: ReplaceOperation.DownOperation<real>) => ReplaceOperation.TwoWayOperation(o.oldValue, nextState.volume)))))
  }

  /** Restores field by field on copies of the state and of an empty
      two-way operation. */
  method Restore(nextState: State, downOperation: Option<DownOperation>) returns (r: Result<RestoreResult<State, TwoWayOperation>>)
    ensures r == Ok(Restored(nextState, downOperation))
  {
    if downOperation.None? {
      return Ok(RestoreResult(nextState, None));
    }
    var d := downOperation.value;
    var prevState := nextState;
    var twoWayOperation := TwoWayOperation(None, None, None);
    if d.isPaused.Some? {
      prevState := prevState.(isPaused := d.isPaused.value.oldValue);
      twoWayOperation := twoWayOperation.(isPaused := Some(ReplaceOperation.TwoWayOperation(d.isPaused.value.oldValue, nextState.isPaused)));
    }
    if d.files.Some? {
      prevState := prevState.(files := d.files.value.oldValue);
      twoWayOperation := twoWayOperation.(files := Some(ReplaceOperation.TwoWayOperation(d.files.value.oldValue, nextState.files)));
    }
    if d.volume.Some? {
      prevState := prevState.(volume := d.volume.value.oldValue);
      twoWayOperation := twoWayOperation.(volume := Some(ReplaceOperation.TwoWayOperation(d.volume.value.oldValue, nextState.volume)));
    }
    return Ok(RestoreResult(prevState, if IsIdTwoWay(twoWayOperation) then None else Some(twoWayOperation)));
  }

  /** The restored two-way operation leads from the restored state back to
      the given one, and its down half undoes it again. */
  lemma RestoreLeadsBack(nextState: State, downOperation: Option<DownOperation>)
    ensures var r := Restored(nextState, downOperation);
      ApplyOptional(r.prevState, MapOption(r.twoWayOperation, ToUpOperation)) == nextState
      && ApplyBackOptional(nextState, MapOption(r.twoWayOperation, ToDownOperation)) == r.prevState
  {
  }

  // ---------------------------------------------------------------------
  // diff

  /** The specification of `diff`: exactly the fields that differ, each
      from its old to its new value; none at all between equal states. */
  function Difference(prevState: State, nextState: State): (r: Option<TwoWayOperation>)
    ensures r.None? <==> prevState == nextState
    ensures r.Some? ==> (r.value.isPaused.Some? <==> prevState.isPaused != nextState.isPaused)
                        && (r.value.files.Some? <==> prevState.files != nextState.files)
                        && (r.value.volume.Some? <==> prevState.volume != nextState.volume)
  {
    NormalizeTwoWay(TwoWayOperation(
      if prevState.isPaused != nextState.isPaused then Some(ReplaceOperation.TwoWayOperation(prevState.isPaused, nextState.isPaused)) else None,
      if prevState.files != nextState.files then Some(ReplaceOperation.TwoWayOperation(prevState.files, nextState.files)) else None,
      if prevState.volume != nextState.volume then Some(ReplaceOperation.TwoWayOperation(prevState.volume, nextState.volume)) else None))
  }

  /** Builds the diff field by field. */
  method Diff(prevState: State, nextState: State) returns (r: Option<TwoWayOperation>)
    ensures r == Difference(prevState, nextState)
  {
    var result := TwoWayOperation(None, None, None);
    if prevState.isPaused != nextState.isPaused {
      result := result.(isPaused := Some(ReplaceOperation.TwoWayOperation(prevState.isPaused, nextState.isPaused)));
    }
    if prevState.files != nextState.files {
      result := result.(files := Some(ReplaceOperation.TwoWayOperation(prevState.files, nextState.files)));
    }
    if prevState.volume != nextState.volume {
      result := result.(volume := Some(ReplaceOperation.TwoWayOperation(prevState.volume, nextState.volume)));
    }
    if IsIdTwoWay(result) {
      return None;
    }
    return Some(result);
  }

  /** Round trip: the diff leads forwards from the first state to the
      second and backwards from the second to the first. */
  lemma DiffRoundTrip(prevState: State, nextState: State)
    ensures ApplyOptional(prevState, MapOption(Difference(prevState, nextState), ToUpOperation)) == nextState
    ensures ApplyBackOptional(nextState, MapOption(Difference(prevState, nextState), ToDownOperation)) == prevState
  {
  }

  // ---------------------------------------------------------------------
  // serverTransform

  /** The specification of `serverTransform`: field-wise server-wins, so a
      field appears only when absent from the server's operation and
      changed by the client; no field at all gives no operation. */
  function ServerTransformed(prevState: State, serverOperation: Option<TwoWayOperation>, clientOperation: UpOperation)
    : (r: Option<TwoWayOperation>)
    ensures r.Some? ==> !IsIdTwoWay(r.value)
    ensures r.None? <==>
      !ReplaceOperation.Accepts(if serverOperation.Some? then serverOperation.value.isPaused else None, clientOperation.isPaused, prevState.isPaused)
      && !ReplaceOperation.Accepts(if serverOperation.Some? then serverOperation.value.files else None, clientOperation.files, prevState.files)
      && !ReplaceOperation.Accepts(if serverOperation.Some? then serverOperation.value.volume else None, clientOperation.volume, prevState.volume)
    ensures r.Some? ==>
      (r.value.isPaused.Some? <==> ReplaceOperation.Accepts(if serverOperation.Some? then serverOperation.value.isPaused else None, clientOperation.isPaused, prevState.isPaused))
      && (r.value.files.Some? <==> ReplaceOperation.Accepts(if serverOperation.Some? then serverOperation.value.files else None, clientOperation.files, prevState.files))
      && (r.value.volume.Some? <==> ReplaceOperation.Accepts(if serverOperation.Some? then serverOperation.value.volume else None, clientOperation.volume, prevState.volume))
    ensures r.Some? && r.value.isPaused.Some? ==>
      (serverOperation.None? || serverOperation.value.isPaused.None?) && clientOperation.isPaused.Some?
      && r.value.isPaused.value == ReplaceOperation.TwoWayOperation(prevState.isPaused, clientOperation.isPaused.value.newValue)
      && prevState.isPaused != clientOperation.isPaused.value.newValue
    ensures r.Some? && r.value.files.Some? ==>
      (serverOperation.None? || serverOperation.value.files.None?) && clientOperation.files.Some?
      && r.value.files.value == ReplaceOperation.TwoWayOperation(prevState.files, clientOperation.files.value.newValue)
      && prevState.files != clientOperation.files.value.newValue
    ensures r.Some? && r.value.volume.Some? ==>
      (serverOperation.None? || serverOperation.value.volume.None?) && clientOperation.volume.Some?
      && r.value.volume.value == ReplaceOperation.TwoWayOperation(prevState.volume, clientOperation.volume.value.newValue)
      && prevState.volume != clientOperation.volume.value.newValue
  {
    NormalizeTwoWay(TwoWayOperation(
      ReplaceOperation.ServerTransform(if serverOperation.Some? then serverOperation.value.isPaused else None, clientOperation.isPaused, prevState.isPaused),
      ReplaceOperation.ServerTransform(if serverOperation.Some? then serverOperation.value.files else None, clientOperation.files, prevState.files),
      ReplaceOperation.ServerTransform(if serverOperation.Some? then serverOperation.value.volume else None, clientOperation.volume, prevState.volume)))
  }

  /** Transforms field by field into an empty two-way operation; it never fails. */
  method ServerTransform(prevState: State, serverOperation: Option<TwoWayOperation>, clientOperation: UpOperation)
    returns (r: Result<Option<TwoWayOperation>>)
    ensures r == Ok(ServerTransformed(prevState, serverOperation, clientOperation))
  {
    var twoWayOperation := TwoWayOperation(None, None, None);
    twoWayOperation := twoWayOperation.(isPaused := ReplaceOperation.ServerTransform(
      if serverOperation.Some? then serverOperation.value.isPaused else None, clientOperation.isPaused, prevState.isPaused));
    twoWayOperation := twoWayOperation.(files := ReplaceOperation.ServerTransform(
      if serverOperation.Some? then serverOperation.value.files else None, clientOperation.files, prevState.files));
    twoWayOperation := twoWayOperation.(volume := ReplaceOperation.ServerTransform(
      if serverOperation.Some? then serverOperation.value.volume else None, clientOperation.volume, prevState.volume));
    if IsIdTwoWay(twoWayOperation) {
      return Ok(None);
    }
    return Ok(Some(twoWayOperation));
  }

  /** A field the server has changed is never changed by a client. */
  lemma ServerWins(prevState: State, serverOperation: TwoWayOperation, clientOperation: UpOperation)
    ensures var r := ServerTransformed(prevState, Some(serverOperation), clientOperation);
      (serverOperation.isPaused.Some? ==> r.None? || r.value.isPaused.None?)
      && (serverOperation.files.Some? ==> r.None? || r.value.files.None?)
      && (serverOperation.volume.Some? ==> r.None? || r.value.volume.None?)
  {
  }

  /** Without a concurrent server operation, the transformed operation has
      exactly the client's effect on the client's revision, and its down
      half undoes it. */
  lemma ServerTransformReachesRequest(prevState: State, clientOperation: UpOperation)
    ensures var r := ServerTransformed(prevState, None, clientOperation);
      ApplyOptional(prevState, MapOption(r, ToUpOperation)) == Applied(prevState, clientOperation)
      && ApplyBackOptional(Applied(prevState, clientOperation), MapOption(r, ToDownOperation)) == prevState
  {
  }

  // ---------------------------------------------------------------------
  // clientTransform

  /** Field-wise first-wins peer transform; each prime is no operation when
      it has no field. It never fails. */
  function ClientTransform(first: UpOperation, second: UpOperation): (r: Result<Primes<UpOperation, UpOperation>>)
    ensures r.Ok?
    ensures r.value.firstPrime.Some? ==> r.value.firstPrime.value == first
    ensures r.value.firstPrime.None? <==> IsIdUp(first)
    ensures r.value.secondPrime.Some? ==>
      (r.value.secondPrime.value.isPaused.Some? ==> first.isPaused.None? && r.value.secondPrime.value.isPaused == second.isPaused)
      && (r.value.secondPrime.value.files.Some? ==> first.files.None? && r.value.secondPrime.value.files == second.files)
      && (r.value.secondPrime.value.volume.Some? ==> first.volume.None? && r.value.secondPrime.value.volume == second.volume)
    ensures r.value.secondPrime == NormalizeUp(UpOperation(if first.isPaused.None? then second.isPaused else None,
                                                           if first.files.None? then second.files else None,
                                                           if first.volume.None? then second.volume else None))
  {
    var isPaused := ReplaceOperation.ClientTransform(first.isPaused, second.isPaused);
    var files := ReplaceOperation.ClientTransform(first.files, second.files);
    var volume := ReplaceOperation.ClientTransform(first.volume, second.volume);
    Ok(Primes(NormalizeUp(UpOperation(isPaused.firstPrime, files.firstPrime, volume.firstPrime)),
              NormalizeUp(UpOperation(isPaused.secondPrime, files.secondPrime, volume.secondPrime))))
  }

  /** The peer transform converges (TP1): both orders reach the same state. */
  lemma ClientTransformConverges(state: State, first: UpOperation, second: UpOperation)
    ensures var p := ClientTransform(first, second).value;
      ApplyOptional(Applied(state, first), p.secondPrime) == ApplyOptional(Applied(state, second), p.firstPrime)
  {
  }
}
