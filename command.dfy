/** A character's command: a name replaced as a whole and a script edited
    with the string OT. The string OT is the `TextOps` bundle; the results
    about this entity hold under the bundle's laws. */
module Command {
  import opened Wrappers
  import ReplaceOperation
  import TextOperation

  type TextOps = TextOperation.TextOps

  datatype State = State(name: string, value: string)

  datatype UpOperation = UpOperation(
    name: Option<ReplaceOperation.UpOperation<string>>,
    value: Option<TextOperation.UpOperation>)

  datatype DownOperation = DownOperation(
    name: Option<ReplaceOperation.DownOperation<string>>,
    value: Option<TextOperation.DownOperation>)

  datatype TwoWayOperation = TwoWayOperation(
    name: Option<ReplaceOperation.TwoWayOperation<string>>,
    value: Option<TextOperation.TwoWayOperation>)

  predicate IsIdUp(op: UpOperation) { op.name.None? && op.value.None? }
  predicate IsIdTwoWay(op: TwoWayOperation) { op.name.None? && op.value.None? }

  function NormalizeUp(op: UpOperation): (r: Option<UpOperation>)
    ensures r.None? <==> IsIdUp(op)
    ensures r.Some? ==> r.value == op
  {
    if IsIdUp(op) then None else Some(op)
  }

  function NormalizeTwoWay(op: TwoWayOperation): (r: Option<TwoWayOperation>)
    ensures r.None? <==> IsIdTwoWay(op)
    ensures r.Some? ==> r.value == op
  {
    if IsIdTwoWay(op) then None else Some(op)
  }

  function ToUpOperation(text: TextOps, source: TwoWayOperation): UpOperation {
    UpOperation(MapOption(source.name, ReplaceOperation.ToUpOperation), MapOption(source.value, text.toUp))
  }

  function ToDownOperation(text: TextOps, source: TwoWayOperation): DownOperation {
    DownOperation(MapOption(source.name, ReplaceOperation.ToDownOperation), MapOption(source.value, text.toDown))
  }

  // ---------------------------------------------------------------------
  // apply and applyBack

  /** The name takes its new value; the script is edited by the string OT,
      whose failure is the failure of the whole operation. */
  function Applied(text: TextOps, state: State, operation: UpOperation): (r: Result<State>)
    ensures r.Ok? <==> TextOperation.ApplyOptional(text, state.value, operation.value).Ok?
    ensures r.Err? ==> r.error == TextOperation.ApplyOptional(text, state.value, operation.value).error
    ensures r.Ok? ==> r.value == State(ReplaceOperation.Apply(state.name, operation.name),
                                       TextOperation.ApplyOptional(text, state.value, operation.value).value)
  {
    var value := TextOperation.ApplyOptional(text, state.value, operation.value);
    if value.Err? then Err(value.error)
    else Ok(State(ReplaceOperation.Apply(state.name, operation.name), value.value))
  }

  /** Applies an up-operation to a copy of the state. */
  method Apply(text: TextOps, state: State, operation: UpOperation) returns (r: Result<State>)
    ensures r == Applied(text, state, operation)
  {
    var result := state;
    if operation.name.Some? {
      result := result.(name := operation.name.value.newValue);
    }
    if operation.value.Some? {
      var valueResult := text.apply(state.value, operation.value.value);
      if valueResult.Err? {
        return Err(valueResult.error);
      }
      result := result.(value := valueResult.value);
    }
    return Ok(result);
  }

  /** The backward counterpart of `Applied`. */
  function AppliedBack(text: TextOps, state: State, operation: DownOperation): (r: Result<State>)
    ensures r.Ok? <==> TextOperation.ApplyBackOptional(text, state.value, operation.value).Ok?
    ensures r.Err? ==> r.error == TextOperation.ApplyBackOptional(text, state.value, operation.value).error
    ensures r.Ok? ==> r.value == State(ReplaceOperation.ApplyBack(state.name, operation.name),
                                       TextOperation.ApplyBackOptional(text, state.value, operation.value).value)
  {
    var value := TextOperation.ApplyBackOptional(text, state.value, operation.value);
    if value.Err? then Err(value.error)
    else Ok(State(ReplaceOperation.ApplyBack(state.name, operation.name), value.value))
  }

  /** Applies a down-operation to a copy of the state. */
  method ApplyBack(text: TextOps, state: State, operation: DownOperation) returns (r: Result<State>)
    ensures r == AppliedBack(text, state, operation)
  {
    var result := state;
    if operation.name.Some? {
      result := result.(name := operation.name.value.oldValue);
    }
    if operation.value.Some? {
      var prevValue := text.applyBack(state.value, operation.value.value);
      if prevValue.Err? {
        return Err(prevValue.error);
      }
      result := result.(value := prevValue.value);
    }
    return Ok(result);
  }

  /** An optional up-operation; absent means no change. */
  function ApplyOptional(text: TextOps, state: State, operation: Option<UpOperation>): (r: Result<State>)
    ensures operation.None? ==> r == Ok(state)
  {
    if operation.None? then Ok(state) else Applied(text, state, operation.value)
  }

  // ---------------------------------------------------------------------
  // composeDownOperation

  /** The script's down-operations are composed first, and their failure is
      the failure of the whole; the name keeps the earliest old value. */
  function ComposeDownOperation(text: TextOps, first: DownOperation, second: DownOperation): (r: Result<DownOperation>)
    ensures r.Ok? <==> text.composeDown(first.value, second.value).Ok?
    ensures r.Ok? ==> r.value.value == text.composeDown(first.value, second.value).value
    ensures r.Ok? ==> r.value.name == (if first.name.Some? then first.name else second.name)
  {
    var value := text.composeDown(first.value, second.value);
    if value.Err? then Err(value.error)
    else Ok(DownOperation(ReplaceOperation.ComposeDownOperation(first.name, second.name), value.value))
  }

  /** Under the string OT's composition law, composition is sequential
      backward application wherever the two steps apply. */
  lemma ComposeDownIsSequentialApplyBack(text: TextOps, state: State, first: DownOperation, second: DownOperation)
    requires TextOperation.ComposeDownLaw(text)
    requires AppliedBack(text, state, second).Ok?
    requires AppliedBack(text, AppliedBack(text, state, second).value, first).Ok?
    ensures ComposeDownOperation(text, first, second).Ok?
    ensures AppliedBack(text, state, ComposeDownOperation(text, first, second).value)
         == AppliedBack(text, AppliedBack(text, state, second).value, first)
  {
    var middle := AppliedBack(text, state, second).value;
    assert TextOperation.ApplyBackOptional(text, state.value, second.value).Ok?;
    assert TextOperation.ApplyBackOptional(text, middle.value, first.value).Ok?;
  }

  // ---------------------------------------------------------------------
  // restore

  /** The specification of `restore`: the name is restored from the
      down-operation and the script by the string OT's restore, whose
      failure fails the whole. The two-way operation is not normalised:
      it is present whenever a down-operation is. */
  function Restored(text: TextOps, nextState: State, downOperation: Option<DownOperation>)
    : (r: Result<RestoreResult<State, TwoWayOperation>>)
    ensures downOperation.None? ==> r == Ok(RestoreResult(nextState, None))
    ensures downOperation.Some? ==>
      (r.Ok? <==> downOperation.value.value.None? || text.restore(nextState.value, downOperation.value.value.value).Ok?)
    ensures downOperation.Some? && r.Ok? ==> r.value.twoWayOperation.Some?
    ensures downOperation.Some? && r.Ok? ==>
      r.value.prevState.name == ReplaceOperation.ApplyBack(nextState.name, downOperation.value.name)
      && (r.value.twoWayOperation.value.name.Some? <==> downOperation.value.name.Some?)
  {
    if downOperation.None? then Ok(RestoreResult(nextState, None))
    else
      var d := downOperation.value;
      var name := MapOption(d.name, (o: ReplaceOperation.DownOperation<string>) => ReplaceOperation.TwoWayOperation(o.oldValue, nextState.name));
      var prevName := ReplaceOperation.ApplyBack(nextState.name, d.name);
      if d.value.None? then
        Ok(RestoreResult(State(prevName, nextState.value), Some(TwoWayOperation(name, None))))
      else
        var restored := text.restore(nextState.value, d.value.value);
        if restored.Err? then Err(restored.error)
        else Ok(RestoreResult(State(prevName, restored.value.prevState), Some(TwoWayOperation(name, restored.value.twoWayOperation))))
  }

  /** Restores field by field on copies of the state and of an empty
      two-way operation. */
  method Restore(text: TextOps, nextState: State, downOperation: Option<DownOperation>)
    returns (r: Result<RestoreResult<State, TwoWayOperation>>)
    ensures r == Restored(text, nextState, downOperation)
  {
    if downOperation.None? {
      return Ok(RestoreResult(nextState, None));
    }
    var d := downOperation.value;
    var prevState := nextState;
    var twoWayOperation := TwoWayOperation(None, None);
    if d.name.Some? {
      prevState := prevState.(name := d.name.value.oldValue);
      twoWayOperation := twoWayOperation.(name := Some(ReplaceOperation.TwoWayOperation(d.name.value.oldValue, nextState.name)));
    }
    if d.value.Some? {
      var restored := text.restore(nextState.value, d.value.value);
      if restored.Err? {
        return Err(restored.error);
      }
      prevState := prevState.(value := restored.value.prevState);
      twoWayOperation := twoWayOperation.(value := restored.value.twoWayOperation);
    }
    return Ok(RestoreResult(prevState, Some(twoWayOperation)));
  }

  /** Under the string OT's restore law, restore succeeds exactly when the
      backward application does, reaches its state, and its two-way
      operation leads from there to the given state and back. */
  lemma RestoreIsApplyBack(text: TextOps, nextState: State, downOperation: DownOperation)
    requires TextOperation.RestoreLaw(text)
    ensures var r := Restored(text, nextState, Some(downOperation));
      (r.Ok? <==> AppliedBack(text, nextState, downOperation).Ok?)
      && (r.Ok? ==>
            r.value.prevState == AppliedBack(text, nextState, downOperation).value
            && Applied(text, r.value.prevState, ToUpOperation(text, r.value.twoWayOperation.value)) == Ok(nextState)
            && AppliedBack(text, nextState, ToDownOperation(text, r.value.twoWayOperation.value)) == Ok(r.value.prevState))
  {
    if downOperation.value.Some? {
      var restored := text.restore(nextState.value, downOperation.value.value);
      assert restored.Ok? <==> text.applyBack(nextState.value, downOperation.value.value).Ok?;
    }
  }

  // ---------------------------------------------------------------------
  // diff

  /** The specification of `diff`: the name when it differs, and the
      string OT's diff of the scripts when they differ. */
  function Difference(text: TextOps, prevState: State, nextState: State): (r: Option<TwoWayOperation>)
    ensures prevState == nextState ==> r.None?
    ensures r.Some? ==> (r.value.name.Some? <==> prevState.name != nextState.name)
    ensures r.Some? && r.value.name.Some? ==> r.value.name.value == ReplaceOperation.TwoWayOperation(prevState.name, nextState.name)
    ensures r.Some? && r.value.value.Some? ==> prevState.value != nextState.value && r.value.value == text.diff(prevState.value, nextState.value)
  {
    NormalizeTwoWay(TwoWayOperation(
      if prevState.name != nextState.name then Some(ReplaceOperation.TwoWayOperation(prevState.name, nextState.name)) else None,
      if prevState.value != nextState.value then text.diff(prevState.value, nextState.value) else None))
  }

  /** Builds the diff field by field. */
  method Diff(text: TextOps, prevState: State, nextState: State) returns (r: Option<TwoWayOperation>)
    ensures r == Difference(text, prevState, nextState)
  {
    var resultType := TwoWayOperation(None, None);
    if prevState.name != nextState.name {
      resultType := resultType.(name := Some(ReplaceOperation.TwoWayOperation(prevState.name, nextState.name)));
    }
    if prevState.value != nextState.value {
      resultType := resultType.(value := text.diff(prevState.value, nextState.value));
    }
    if IsIdTwoWay(resultType) {
      return None;
    }
    return Some(resultType);
  }

  /** Under the string OT's diff law, the diff is empty exactly between
      equal states, and leads from the first to the second and back. */
  lemma DiffRoundTrip(text: TextOps, prevState: State, nextState: State)
    requires TextOperation.DiffLaw(text)
    ensures Difference(text, prevState, nextState).None? <==> prevState == nextState
    ensures var d := Difference(text, prevState, nextState);
      d.Some? ==>
        Applied(text, prevState, ToUpOperation(text, d.value)) == Ok(nextState)
        && AppliedBack(text, nextState, ToDownOperation(text, d.value)) == Ok(prevState)
  {
    if prevState.value != nextState.value {
      assert text.diff(prevState.value, nextState.value).Some?;
    }
  }

  // ---------------------------------------------------------------------
  // serverTransform

  /** The specification of `serverTransform`: the name by server-wins, the
      script by the string OT's server transform, whose failure fails the
      whole; no field at all gives no operation. */
  function ServerTransformed(text: TextOps, prevState: State, serverOperation: Option<TwoWayOperation>, clientOperation: UpOperation)
    : (r: Result<Option<TwoWayOperation>>)
    ensures r.Ok? <==> text.serverTransform(if serverOperation.Some? then serverOperation.value.value else None, clientOperation.value, prevState.value).Ok?
    ensures r.Ok? && r.value.Some? ==> !IsIdTwoWay(r.value.value)
    ensures r.Ok? ==>
      (r.value.None? <==>
         !ReplaceOperation.Accepts(if serverOperation.Some? then serverOperation.value.name else None, clientOperation.name, prevState.name)
         && text.serverTransform(if serverOperation.Some? then serverOperation.value.value else None, clientOperation.value, prevState.value).value.None?)
    ensures r.Ok? && r.value.Some? ==>
      r.value.value.name == ReplaceOperation.ServerTransform(if serverOperation.Some? then serverOperation.value.name else None, clientOperation.name, prevState.name)
      && r.value.value.value == text.serverTransform(if serverOperation.Some? then serverOperation.value.value else None, clientOperation.value, prevState.value).value
  {
    var name := ReplaceOperation.ServerTransform(if serverOperation.Some? then serverOperation.value.name else None, clientOperation.name, prevState.name);
    var value := text.serverTransform(if serverOperation.Some? then serverOperation.value.value else None, clientOperation.value, prevState.value);
    if value.Err? then Err(value.error)
    else Ok(NormalizeTwoWay(TwoWayOperation(name, value.value)))
  }

  /** Transforms field by field into a fresh two-way operation. */
  method ServerTransform(text: TextOps, prevState: State, serverOperation: Option<TwoWayOperation>, clientOperation: UpOperation)
    returns (r: Result<Option<TwoWayOperation>>)
    ensures r == ServerTransformed(text, prevState, serverOperation, clientOperation)
  {
    var twoWayOperation := TwoWayOperation(
      ReplaceOperation.ServerTransform(if serverOperation.Some? then serverOperation.value.name else None, clientOperation.name, prevState.name),
      None);
    var value := text.serverTransform(if serverOperation.Some? then serverOperation.value.value else None, clientOperation.value, prevState.value);
    if value.Err? {
      return Err(value.error);
    }
    twoWayOperation := twoWayOperation.(value := value.value);
    if IsIdTwoWay(twoWayOperation) {
      return Ok(None);
    }
    return Ok(Some(twoWayOperation));
  }

  /** A name the server has changed is never changed by a client. */
  lemma ServerWinsOnName(text: TextOps, prevState: State, serverOperation: TwoWayOperation, clientOperation: UpOperation)
    requires serverOperation.name.Some?
    ensures var r := ServerTransformed(text, prevState, Some(serverOperation), clientOperation);
      r.Ok? && r.value.Some? ==> r.value.value.name.None?
  {
  }

  /** Under the string OT's server-transform law, an applicable client
      operation with no concurrent server operation is accepted and has
      exactly the client's effect on the client's revision. */
  lemma ServerTransformReachesRequest(text: TextOps, prevState: State, clientOperation: UpOperation)
    requires TextOperation.ServerTransformLaw(text)
    requires Applied(text, prevState, clientOperation).Ok?
    ensures var r := ServerTransformed(text, prevState, None, clientOperation);
      r.Ok? && ApplyOptional(text, prevState, MapOption(r.value, (t: TwoWayOperation) => ToUpOperation(text, t))) == Applied(text, prevState, clientOperation)
  {
    assert TextOperation.ApplyOptional(text, prevState.value, clientOperation.value).Ok?;
  }

  // ---------------------------------------------------------------------
  // clientTransform

  /** The name by first-wins, the script by the string OT's peer transform,
      whose failure fails the whole; each prime is no operation when it has
      no field. */
  function ClientTransform(text: TextOps, first: UpOperation, second: UpOperation): (r: Result<Primes<UpOperation, UpOperation>>)
    ensures r.Ok? <==> text.clientTransform(first.value, second.value).Ok?
    ensures r.Ok? ==>
      var name := ReplaceOperation.ClientTransform(first.name, second.name);
      var value := text.clientTransform(first.value, second.value).value;
      r.value.firstPrime == NormalizeUp(UpOperation(name.firstPrime, value.firstPrime))
      && r.value.secondPrime == NormalizeUp(UpOperation(name.secondPrime, value.secondPrime))
  {
    var name := ReplaceOperation.ClientTransform(first.name, second.name);
    var value := text.clientTransform(first.value, second.value);
    if value.Err? then Err(value.error)
    else Ok(Primes(NormalizeUp(UpOperation(name.firstPrime, value.value.firstPrime)),
                   NormalizeUp(UpOperation(name.secondPrime, value.value.secondPrime))))
  }

  /** Under the string OT's convergence law, the peer transform converges
      (TP1): both orders of application reach the same state. */
  lemma ClientTransformConverges(text: TextOps, state: State, first: UpOperation, second: UpOperation)
    requires TextOperation.ClientTransformLaw(text)
    requires Applied(text, state, first).Ok? && Applied(text, state, second).Ok?
    requires ClientTransform(text, first, second).Ok?
    ensures var p := ClientTransform(text, first, second).value;
      ApplyOptional(text, Applied(text, state, first).value, p.secondPrime).Ok?
      && ApplyOptional(text, Applied(text, state, first).value, p.secondPrime)
         == ApplyOptional(text, Applied(text, state, second).value, p.firstPrime)
  {
    assert TextOperation.ApplyOptional(text, state.value, first.value).Ok?;
    assert TextOperation.ApplyOptional(text, state.value, second.value).Ok?;
  }
}
