/** A room memo: a name and a text type replaced as a whole, and a text
    edited with the string OT (the `TextOps` bundle). */
module Memo {
  import opened Wrappers
  import ReplaceOperation
  import TextOperation

  type TextOps = TextOperation.TextOps

  datatype TextType = Plain | MarkDown

  datatype State = State(name: string, text: string, textType: TextType)

  datatype UpOperation = UpOperation(
    name: Option<ReplaceOperation.UpOperation<string>>,
    text: Option<TextOperation.UpOperation>,
    textType: Option<ReplaceOperation.UpOperation<TextType>>)

  datatype DownOperation = DownOperation(
    name: Option<ReplaceOperation.DownOperation<string>>,
    text: Option<TextOperation.DownOperation>,
    textType: Option<ReplaceOperation.DownOperation<TextType>>)

  datatype TwoWayOperation = TwoWayOperation(
    name: Option<ReplaceOperation.TwoWayOperation<string>>,
    text: Option<TextOperation.TwoWayOperation>,
    textType: Option<ReplaceOperation.TwoWayOperation<TextType>>)

  predicate IsIdUp(op: UpOperation) { op.name.None? && op.text.None? && op.textType.None? }
  predicate IsIdTwoWay(op: TwoWayOperation) { op.name.None? && op.text.None? && op.textType.None? }

  function NormalizeUp(op: UpOperation): (r: Option<UpOperation>)
    ensures r.None? <==> IsIdUp(op)
    ensures r.Some? ==> r.value == op
  {
    if IsIdUp(op) then None else Some(op)
  }

  function NormalizeTwoWay(op: TwoWayOperation): (r: Option<TwoWayOperation>)
    ensures r.None? <==> IsIdTwoWay(op)
    ensures r.Some? ==> r.value == op
  {
    if IsIdTwoWay(op) then None else Some(op)
  }

  function ToUpOperation(text: TextOps, source: TwoWayOperation): UpOperation {
    UpOperation(MapOption(source.name, ReplaceOperation.ToUpOperation),
                MapOption(source.text, text.toUp),
                MapOption(source.textType, ReplaceOperation.ToUpOperation))
  }

  function ToDownOperation(text: TextOps, source: TwoWayOperation): DownOperation {
    DownOperation(MapOption(source.name, ReplaceOperation.ToDownOperation),
                  MapOption(source.text, text.toDown),
                  MapOption(source.textType, ReplaceOperation.ToDownOperation))
  }

  // ---------------------------------------------------------------------
  // apply and applyBack

  /** Name and text type take their new values; the text is edited by the
      string OT, whose failure is the failure of the whole operation. */
  function Applied(text: TextOps, state: State, operation: UpOperation): (r: Result<State>)
    ensures r.Ok? <==> TextOperation.ApplyOptional(text, state.text, operation.text).Ok?
    ensures r.Err? ==> r.error == TextOperation.ApplyOptional(text, state.text, operation.text).error
    ensures r.Ok? ==> r.value == State(ReplaceOperation.Apply(state.name, operation.name),
                                       TextOperation.ApplyOptional(text, state.text, operation.text).value,
                                       ReplaceOperation.Apply(state.textType, operation.textType))
  {
    var applied := TextOperation.ApplyOptional(text, state.text, operation.text);
    if applied.Err? then Err(applied.error)
    else Ok(State(ReplaceOperation.Apply(state.name, operation.name), applied.value,
                  ReplaceOperation.Apply(state.textType, operation.textType)))
  }

  /** Applies an up-operation to a copy of the state. */
  method Apply(text: TextOps, state: State, operation: UpOperation) returns (r: Result<State>)
    ensures r == Applied(text, state, operation)
  {
    var result := state;
    if operation.name.Some? {
      result := result.(name := operation.name.value.newValue);
    }
    if operation.text.Some? {
      var applied := text.apply(state.text, operation.text.value);
      if applied.Err? {
        return Err(applied.error);
      }
      result := result.(text := applied.value);
    }
    if operation.textType.Some? {
      result := result.(textType := operation.textType.value.newValue);
    }
    return Ok(result);
  }

  /** The backward counterpart of `Applied`. */
  function AppliedBack(text: TextOps, state: State, operation: DownOperation): (r: Result<State>)
    ensures r.Ok? <==> TextOperation.ApplyBackOptional(text, state.text, operation.text).Ok?
    ensures r.Err? ==> r.error == TextOperation.ApplyBackOptional(text, state.text, operation.text).error
    ensures r.Ok? ==> r.value == State(ReplaceOperation.ApplyBack(state.name, operation.name),
                                       TextOperation.ApplyBackOptional(text, state.text, operation.text).value,
                                       ReplaceOperation.ApplyBack(state.textType, operation.textType))
  {
    var applied := TextOperation.ApplyBackOptional(text, state.text, operation.text);
    if applied.Err? then Err(applied.error)
    else Ok(State(ReplaceOperation.ApplyBack(state.name, operation.name), applied.value,
                  ReplaceOperation.ApplyBack(state.textType, operation.textType)))
  }

  /** Applies a down-operation to a copy of the state. */
  method ApplyBack(text: TextOps, state: State, operation: DownOperation) returns (r: Result<State>)
    ensures r == AppliedBack(text, state, operation)
  {
    var result := state;
    if operation.name.Some? {
      result := result.(name := operation.name.value.oldValue);
    }
    if operation.text.Some? {
      var applied := text.applyBack(state.text, operation.text.value);
      if applied.Err? {
        return Err(applied.error);
      }
      result := result.(text := applied.value);
    }
    if operation.textType.Some? {
      result := result.(textType := operation.textType.value.oldValue);
    }
    return Ok(result);
  }

  /** An optional up-operation; absent means no change. */
  function ApplyOptional(text: TextOps, state: State, operation: Option<UpOperation>): (r: Result<State>)
    ensures operation.None? ==> r == Ok(state)
  {
    if operation.None? then Ok(state) else Applied(text, state, operation.value)
  }

  // ---------------------------------------------------------------------
  // composeUpOperation and composeDownOperation

  /** Up-composition of a replaced field: the later new value wins. */
  function ComposeUpReplace<T>(first: Option<ReplaceOperation.UpOperation<T>>, second: Option<ReplaceOperation.UpOperation<T>>)
    : (r: Option<ReplaceOperation.UpOperation<T>>)
    ensures second.Some? ==> r == second
    ensures second.None? ==> r == first
  {
    if second.Some? then second else first
  }

  /** The text's up-operations are composed first, and their failure is the
      failure of the whole; name and text type keep the latest new value. */
  function ComposeUpOperation(text: TextOps, first: UpOperation, second: UpOperation): (r: Result<UpOperation>)
    ensures r.Ok? <==> text.composeUp(first.text, second.text).Ok?
    ensures r.Ok? ==> r.value == UpOperation(ComposeUpReplace(first.name, second.name),
                                             text.composeUp(first.text, second.text).value,
                                             ComposeUpReplace(first.textType, second.textType))
  {
    var composed := text.composeUp(first.text, second.text);
    if composed.Err? then Err(composed.error)
    else Ok(UpOperation(ComposeUpReplace(first.name, second.name), composed.value,
                        ComposeUpReplace(first.textType, second.textType)))
  }

  /** Under the string OT's composition law, up-composition is sequential
      application wherever the two steps apply. */
  lemma ComposeUpIsSequentialApply(text: TextOps, state: State, first: UpOperation, second: UpOperation)
    requires TextOperation.ComposeUpLaw(text)
    requires Applied(text, state, first).Ok?
    requires Applied(text, Applied(text, state, first).value, second).Ok?
    ensures ComposeUpOperation(text, first, second).Ok?
    ensures Applied(text, state, ComposeUpOperation(text, first, second).value)
         == Applied(text, Applied(text, state, first).value, second)
  {
    var middle := Applied(text, state, first).value;
    assert TextOperation.ApplyOptional(text, state.text, first.text).Ok?;
    assert TextOperation.ApplyOptional(text, middle.text, second.text).Ok?;
  }

  /** The text's down-operations are composed first, and their failure is
      the failure of the whole; name and text type keep the earliest old value. */
  function ComposeDownOperation(text: TextOps, first: DownOperation, second: DownOperation): (r: Result<DownOperation>)
    ensures r.Ok? <==> text.composeDown(first.text, second.text).Ok?
    ensures r.Ok? ==> r.value == DownOperation(ReplaceOperation.ComposeDownOperation(first.name, second.name),
                                               text.composeDown(first.text, second.text).value,
                                               ReplaceOperation.ComposeDownOperation(first.textType, second.textType))
  {
    var composed := text.composeDown(first.text, second.text);
    if composed.Err? then Err(composed.error)
    else Ok(DownOperation(ReplaceOperation.ComposeDownOperation(first.name, second.name), composed.value,
                          ReplaceOperation.ComposeDownOperation(first.textType, second.textType)))
  }

  /** Under the string OT's composition law, down-composition is sequential
      backward application wherever the two steps apply. */
  lemma ComposeDownIsSequentialApplyBack(text: TextOps, state: State, first: DownOperation, second: DownOperation)
    requires TextOperation.ComposeDownLaw(text)
    requires AppliedBack(text, state, second).Ok?
    requires AppliedBack(text, AppliedBack(text, state, second).value, first).Ok?
    ensures ComposeDownOperation(text, first, second).Ok?
    ensures AppliedBack(text, state, ComposeDownOperation(text, first, second).value)
         == AppliedBack(text, AppliedBack(text, state, second).value, first)
  {
    var middle := AppliedBack(text, state, second).value;
    assert TextOperation.ApplyBackOptional(text, state.text, second.text).Ok?;
    assert TextOperation.ApplyBackOptional(text, middle.text, first.text).Ok?;
  }

  // ---------------------------------------------------------------------
  // restore

  /** The specification of `restore`: name and text type are restored from
      the down-operation and the text by the string OT's restore, whose
      failure fails the whole. The two-way operation is not normalised: it
      is present whenever a down-operation is. */
  function Restored(text: TextOps, nextState: State, downOperation: Option<DownOperation>)
    : (r: Result<RestoreResult<State, TwoWayOperation>>)
    ensures downOperation.None? ==> r == Ok(RestoreResult(nextState, None))
    ensures downOperation.Some? ==>
      (r.Ok? <==> downOperation.value.text.None? || text.restore(nextState.text, downOperation.value.text.value).Ok?)
    ensures downOperation.Some? && r.Ok? ==> r.value.twoWayOperation.Some?
    ensures downOperation.Some? && r.Ok? ==>
      r.value.prevState.name == ReplaceOperation.ApplyBack(nextState.name, downOperation.value.name)
      && r.value.prevState.textType == ReplaceOperation.ApplyBack(nextState.textType, downOperation.value.textType)
      && (r.value.twoWayOperation.value.name.Some? <==> downOperation.value.name.Some?)
      && (r.value.twoWayOperation.value.textType.Some? <==> downOperation.value.textType.Some?)
  {
    if downOperation.None? then Ok(RestoreResult(nextState, None))
    else
      var d := downOperation.value;
      var name := MapOption(d.name, (o: ReplaceOperation.DownOperation<string>) => ReplaceOperation.TwoWayOperation(o.oldValue, nextState.name));
      var textType := MapOption(d.textType, (o: ReplaceOperation.DownOperation<TextType>) => ReplaceOperation.TwoWayOperation(o.oldValue, nextState.textType));
      var prevName := ReplaceOperation.ApplyBack(nextState.name, d.name);
      var prevTextType := ReplaceOperation.ApplyBack(nextState.textType, d.textType);
      if d.text.None? then
        Ok(RestoreResult(State(prevName, nextState.text, prevTextType), Some(TwoWayOperation(name, None, textType))))
      else
        var restored := text.restore(nextState.text, d.text.value);
        if restored.Err? then Err(restored.error)
        else Ok(RestoreResult(State(prevName, restored.value.prevState, prevTextType),
                              Some(TwoWayOperation(name, restored.value.twoWayOperation, textType))))
  }

  /** Restores field by field on copies of the state and of an empty
      two-way operation. */
  method Restore(text: TextOps, nextState: State, downOperation: Option<DownOperation>)
    returns (r: Result<RestoreResult<State, TwoWayOperation>>)
    ensures r == Restored(text, nextState, downOperation)
  {
    if downOperation.None? {
      return Ok(RestoreResult(nextState, None));
    }
    var d := downOperation.value;
    var prevState := nextState;
    var twoWayOperation := TwoWayOperation(None, None, None);
    if d.name.Some? {
      prevState := prevState.(name := d.name.value.oldValue);
      twoWayOperation := twoWayOperation.(name := Some(ReplaceOperation.TwoWayOperation(d.name.value.oldValue, nextState.name)));
    }
    if d.text.Some? {
      var restored := text.restore(nextState.text, d.text.value);
      if restored.Err? {
        return Err(restored.error);
      }
      prevState := prevState.(text := restored.value.prevState);
      twoWayOperation := twoWayOperation.(text := restored.value.twoWayOperation);
    }
    if d.textType.Some? {
      prevState := prevState.(textType := d.textType.value.oldValue);
      twoWayOperation := twoWayOperation.(textType := Some(ReplaceOperation.TwoWayOperation(d.textType.value.oldValue, nextState.textType)));
    }
    return Ok(RestoreResult(prevState, Some(twoWayOperation)));
  }

  /** Under the string OT's restore law, restore succeeds exactly when the
      backward application does, reaches its state, and its two-way
      operation leads from there to the given state and back. */
  lemma RestoreIsApplyBack(text: TextOps, nextState: State, downOperation: DownOperation)
    requires TextOperation.RestoreLaw(text)
    ensures var r := Restored(text, nextState, Some(downOperation));
      (r.Ok? <==> AppliedBack(text, nextState, downOperation).Ok?)
      && (r.Ok? ==>
            r.value.prevState == AppliedBack(text, nextState, downOperation).value
            && Applied(text, r.value.prevState, ToUpOperation(text, r.value.twoWayOperation.value)) == Ok(nextState)
            && AppliedBack(text, nextState, ToDownOperation(text, r.value.twoWayOperation.value)) == Ok(r.value.prevState))
  {
    if downOperation.text.Some? {
      var restored := text.restore(nextState.text, downOperation.text.value);
      assert restored.Ok? <==> text.applyBack(nextState.text, downOperation.text.value).Ok?;
    }
  }

  // ---------------------------------------------------------------------
  // diff

  /** `diff` as written: when the texts differ, the text field is the
      string OT's diff of the two NAMES. */
  function DiffAsWritten(text: TextOps, prevState: State, nextState: State): (r: Option<TwoWayOperation>)
    ensures r.Some? && r.value.text.Some? ==> r.value.text == text.diff(prevState.name, nextState.name)
  {
    NormalizeTwoWay(TwoWayOperation(
      if prevState.name != nextState.name then Some(ReplaceOperation.TwoWayOperation(prevState.name, nextState.name)) else None,
      if prevState.text != nextState.text then text.diff(prevState.name, nextState.name) else None,
      if prevState.textType != nextState.textType then Some(ReplaceOperation.TwoWayOperation(prevState.textType, nextState.textType)) else None))
  }

  /** The defect: two memos that differ only in their text have, as written,
      no diff at all, although they are different states. */
  lemma DiffAsWrittenMissesTextChange(text: TextOps, prevState: State, nextState: State)
    requires TextOperation.DiffLaw(text)
    requires prevState.name == nextState.name && prevState.textType == nextState.textType
    requires prevState.text != nextState.text
    ensures prevState != nextState
    ensures DiffAsWritten(text, prevState, nextState).None?
  {
    assert text.diff(prevState.name, nextState.name).None?;
  }

  /** A concrete instance of the defect: renaming nothing and changing the
      text from "a" to "b". */
  lemma DiffAsWrittenCounterexample(text: TextOps)
    requires TextOperation.DiffLaw(text)
    ensures DiffAsWritten(text, State("memo", "a", Plain), State("memo", "b", Plain)).None?
  {
    DiffAsWrittenMissesTextChange(text, State("memo", "a", Plain), State("memo", "b", Plain));
  }

  /** The intended `diff`: name and text type when they differ, and the
      string OT's diff of the TEXTS when they differ. */
  function Difference(text: TextOps, prevState: State, nextState: State): (r: Option<TwoWayOperation>)
    ensures prevState == nextState ==> r.None?
    ensures r.Some? ==> (r.value.name.Some? <==> prevState.name != nextState.name)
                        && (r.value.textType.Some? <==> prevState.textType != nextState.textType)
    ensures r.Some? && r.value.name.Some? ==> r.value.name.value == ReplaceOperation.TwoWayOperation(prevState.name, nextState.name)
    ensures r.Some? && r.value.textType.Some? ==> r.value.textType.value == ReplaceOperation.TwoWayOperation(prevState.textType, nextState.textType)
    ensures r.Some? && r.value.text.Some? ==> prevState.text != nextState.text && r.value.text == text.diff(prevState.text, nextState.text)
  {
    NormalizeTwoWay(TwoWayOperation(
      if prevState.name != nextState.name then Some(ReplaceOperation.TwoWayOperation(prevState.name, nextState.name)) else None,
      if prevState.text != nextState.text then text.diff(prevState.text, nextState.text) else None,
      if prevState.textType != nextState.textType then Some(ReplaceOperation.TwoWayOperation(prevState.textType, nextState.textType)) else None))
  }

  /** Builds the intended diff field by field. */
  method Diff(text: TextOps, prevState: State, nextState: State) returns (r: Option<TwoWayOperation>)
    ensures r == Difference(text, prevState, nextState)
  {
    var resultType := TwoWayOperation(None, None, None);
    if prevState.name != nextState.name {
      resultType := resultType.(name := Some(ReplaceOperation.TwoWayOperation(prevState.name, nextState.name)));
    }
    if prevState.text != nextState.text {
      resultType := resultType.(text := text.diff(prevState.text, nextState.text));
    }
    if prevState.textType != nextState.textType {
      resultType := resultType.(textType := Some(ReplaceOperation.TwoWayOperation(prevState.textType, nextState.textType)));
    }
    if IsIdTwoWay(resultType) {
      return None;
    }
    return Some(resultType);
  }

  /** Under the string OT's diff law, the intended diff is empty exactly
      between equal states, and leads from the first to the second and back. */
  lemma DiffRoundTrip(text: TextOps, prevState: State, nextState: State)
    requires TextOperation.DiffLaw(text)
    ensures Difference(text, prevState, nextState).None? <==> prevState == nextState
    ensures var d := Difference(text, prevState, nextState);
      d.Some? ==>
        Applied(text, prevState, ToUpOperation(text, d.value)) == Ok(nextState)
        && AppliedBack(text, nextState, ToDownOperation(text, d.value)) == Ok(prevState)
  {
    if prevState.text != nextState.text {
      assert text.diff(prevState.text, nextState.text).Some?;
    }
  }

  // ---------------------------------------------------------------------
  // serverTransform

  /** The specification of `serverTransform`: name and text type by
      server-wins, the text by the string OT's server transform, whose
      failure fails the whole; no field at all gives no operation. */
  function ServerTransformed(text: TextOps, prevState: State, serverOperation: Option<TwoWayOperation>, clientOperation: UpOperation)
    : (r: Result<Option<TwoWayOperation>>)
    ensures r.Ok? <==> text.serverTransform(if serverOperation.Some? then serverOperation.value.text else None, clientOperation.text, prevState.text).Ok?
    ensures r.Ok? && r.value.Some? ==> !IsIdTwoWay(r.value.value)
    ensures r.Ok? ==>
      (r.value.None? <==>
         !ReplaceOperation.Accepts(if serverOperation.Some? then serverOperation.value.name else None, clientOperation.name, prevState.name)
         && text.serverTransform(if serverOperation.Some? then serverOperation.value.text else None, clientOperation.text, prevState.text).value.None?
         && !ReplaceOperation.Accepts(if serverOperation.Some? then serverOperation.value.textType else None, clientOperation.textType, prevState.textType))
    ensures r.Ok? && r.value.Some? ==>
      r.value.value.name == ReplaceOperation.ServerTransform(if serverOperation.Some? then serverOperation.value.name else None, clientOperation.name, prevState.name)
      && r.value.value.text == text.serverTransform(if serverOperation.Some? then serverOperation.value.text else None, clientOperation.text, prevState.text).value
      && r.value.value.textType == ReplaceOperation.ServerTransform(if serverOperation.Some? then serverOperation.value.textType else None, clientOperation.textType, prevState.textType)
  {
    var name := ReplaceOperation.ServerTransform(if serverOperation.Some? then serverOperation.value.name else None, clientOperation.name, prevState.name);
    var transformed := text.serverTransform(if serverOperation.Some? then serverOperation.value.text else None, clientOperation.text, prevState.text);
    var textType := ReplaceOperation.ServerTransform(if serverOperation.Some? then serverOperation.value.textType else None, clientOperation.textType, prevState.textType);
    if transformed.Err? then Err(transformed.error)
    else Ok(NormalizeTwoWay(TwoWayOperation(name, transformed.value, textType)))
  }

  /** Transforms field by field into an empty two-way operation. */
  method ServerTransform(text: TextOps, prevState: State, serverOperation: Option<TwoWayOperation>, clientOperation: UpOperation)
    returns (r: Result<Option<TwoWayOperation>>)
    ensures r == ServerTransformed(text, prevState, serverOperation, clientOperation)
  {
    var twoWayOperation := TwoWayOperation(None, None, None);
    twoWayOperation := twoWayOperation.(name := ReplaceOperation.ServerTransform(
      if serverOperation.Some? then serverOperation.value.name else None, clientOperation.name, prevState.name));
    var transformed := text.serverTransform(if serverOperation.Some? then serverOperation.value.text else None, clientOperation.text, prevState.text);
    if transformed.Err? {
      return Err(transformed.error);
    }
    twoWayOperation := twoWayOperation.(text := transformed.value);
    twoWayOperation := twoWayOperation.(textType := ReplaceOperation.ServerTransform(
      if serverOperation.Some? then serverOperation.value.textType else None, clientOperation.textType, prevState.textType));
    if IsIdTwoWay(twoWayOperation) {
      return Ok(None);
    }
    return Ok(Some(twoWayOperation));
  }

  /** A name or text type the server has changed is never changed by a client. */
  lemma ServerWins(text: TextOps, prevState: State, serverOperation: TwoWayOperation, clientOperation: UpOperation)
    ensures var r := ServerTransformed(text, prevState, Some(serverOperation), clientOperation);
      r.Ok? && r.value.Some? ==>
        (serverOperation.name.Some? ==> r.value.value.name.None?)
        && (serverOperation.textType.Some? ==> r.value.value.textType.None?)
  {
  }

  /** Under the string OT's server-transform law, an applicable client
      operation with no concurrent server operation is accepted and has
      exactly the client's effect on the client's revision. */
  lemma ServerTransformReachesRequest(text: TextOps, prevState: State, clientOperation: UpOperation)
    requires TextOperation.ServerTransformLaw(text)
    requires Applied(text, prevState, clientOperation).Ok?
    ensures var r := ServerTransformed(text, prevState, None, clientOperation);
      r.Ok? && ApplyOptional(text, prevState, MapOption(r.value, (t: TwoWayOperation) => ToUpOperation(text, t))) == Applied(text, prevState, clientOperation)
  {
    assert TextOperation.ApplyOptional(text, prevState.text, clientOperation.text).Ok?;
  }

  // ---------------------------------------------------------------------
  // clientTransform

  /** Name and text type by first-wins, the text by the string OT's peer
      transform, whose failure fails the whole; each prime is no operation
      when it has no field. */
  function ClientTransform(text: TextOps, first: UpOperation, second: UpOperation): (r: Result<Primes<UpOperation, UpOperation>>)
    ensures r.Ok? <==> text.clientTransform(first.text, second.text).Ok?
    ensures r.Ok? ==>
      var name := ReplaceOperation.ClientTransform(first.name, second.name);
      var t := text.clientTransform(first.text, second.text).value;
      var textType := ReplaceOperation.ClientTransform(first.textType, second.textType);
      r.value.firstPrime == NormalizeUp(UpOperation(name.firstPrime, t.firstPrime, textType.firstPrime))
      && r.value.secondPrime == NormalizeUp(UpOperation(name.secondPrime, t.secondPrime, textType.secondPrime))
  {
    var name := ReplaceOperation.ClientTransform(first.name, second.name);
    var t := text.clientTransform(first.text, second.text);
    var textType := ReplaceOperation.ClientTransform(first.textType, second.textType);
    if t.Err? then Err(t.error)
    else Ok(Primes(NormalizeUp(UpOperation(name.firstPrime, t.value.firstPrime, textType.firstPrime)),
                   NormalizeUp(UpOperation(name.secondPrime, t.value.secondPrime, textType.secondPrime))))
  }

  /** Under the string OT's convergence law, the peer transform converges
      (TP1): both orders of application reach the same state. */
  lemma ClientTransformConverges(text: TextOps, state: State, first: UpOperation, second: UpOperation)
    requires TextOperation.ClientTransformLaw(text)
    requires Applied(text, state, first).Ok? && Applied(text, state, second).Ok?
    requires ClientTransform(text, first, second).Ok?
    ensures var p := ClientTransform(text, first, second).value;
      ApplyOptional(text, Applied(text, state, first).value, p.secondPrime).Ok?
      && ApplyOptional(text, Applied(text, state, first).value, p.secondPrime)
         == ApplyOptional(text, Applied(text, state, second).value, p.firstPrime)
  {
    assert TextOperation.ApplyOptional(text, state.text, first.text).Ok?;
    assert TextOperation.ApplyOptional(text, state.text, second.text).Ok?;
  }
}
