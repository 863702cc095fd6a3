/** A character's string parameter placed on boards: a privacy flag
    replaced as a whole, a value edited with the string OT and a collection
    of pieces handled by the dual-key engine. */
module StringPieceValue {
  import opened Wrappers
  import ReplaceOperation
  import TextOperation
  import Piece
  import DK = DualKeyRecordOperation

  type TextOps = TextOperation.TextOps
  type PieceOps = Piece.PieceOps

  datatype State = State(isValuePrivate: bool, value: string, pieces: Piece.Pieces)

  datatype UpOperation = UpOperation(
    isValuePrivate: Option<ReplaceOperation.UpOperation<bool>>,
    value: Option<TextOperation.UpOperation>,
    pieces: Option<Piece.PiecesUp>)

  datatype DownOperation = DownOperation(
    isValuePrivate: Option<ReplaceOperation.DownOperation<bool>>,
    value: Option<TextOperation.DownOperation>,
    pieces: Option<Piece.PiecesDown>)

  datatype TwoWayOperation = TwoWayOperation(
    isValuePrivate: Option<ReplaceOperation.TwoWayOperation<bool>>,
    value: Option<TextOperation.TwoWayOperation>,
    pieces: Option<Piece.PiecesTwoWay>)

  predicate IsIdUp(op: UpOperation) { op.isValuePrivate.None? && op.value.None? && op.pieces.None? }
  predicate IsIdTwoWay(op: TwoWayOperation) { op.isValuePrivate.None? && op.value.None? && op.pieces.None? }

  function NormalizeUp(op: UpOperation): (r: Option<UpOperation>)
    ensures r.None? <==> IsIdUp(op)
    ensures r.Some? ==> r.value == op
  {
    if IsIdUp(op) then None else Some(op)
  }

  function NormalizeTwoWay(op: TwoWayOperation): (r: Option<TwoWayOperation>)
    ensures r.None? <==> IsIdTwoWay(op)
    ensures r.Some? ==> r.value == op
  {
    if IsIdTwoWay(op) then None else Some(op)
  }

  function ToUpOperation(text: TextOps, piece: PieceOps, source: TwoWayOperation): UpOperation {
    UpOperation(MapOption(source.isValuePrivate, ReplaceOperation.ToUpOperation),
                MapOption(source.value, text.toUp),
                DK.ToUpOperation(source.pieces, piece.toUp))
  }

  function ToDownOperation(text: TextOps, piece: PieceOps, source: TwoWayOperation): DownOperation {
    DownOperation(MapOption(source.isValuePrivate, ReplaceOperation.ToDownOperation),
                  MapOption(source.value, text.toDown),
                  DK.ToDownOperation(source.pieces, piece.toDown))
  }

  /** What a viewer receives: an unauthorised viewer sees an empty string
      in place of a private value. The pieces are converted by the piece
      module's conversion for the viewer, which is a parameter here. */
  function ToClientState(isAuthorized: bool, toClientStateMany: Piece.Pieces -> Piece.Pieces, source: State): (r: State)
    ensures r.isValuePrivate == source.isValuePrivate
    ensures r.value == (if source.isValuePrivate && !isAuthorized then "" else source.value)
    ensures r.pieces == toClientStateMany(source.pieces)
  {
    State(source.isValuePrivate, if source.isValuePrivate && !isAuthorized then "" else source.value, toClientStateMany(source.pieces))
  }

  /** An unauthorised viewer never receives a private value. */
  lemma PrivateValueIsHidden(toClientStateMany: Piece.Pieces -> Piece.Pieces, source: State)
    requires source.isValuePrivate
    ensures ToClientState(false, toClientStateMany, source).value == ""
    ensures ToClientState(true, toClientStateMany, source).value == source.value
  {
  }

  // ---------------------------------------------------------------------
  // apply and applyBack

  /** The specification of `apply`: the flag takes its new value, the value
      is edited by the string OT and the pieces by the dual-key engine; the
      string OT's failure comes first, then the pieces'. */
  ghost function Applied(text: TextOps, piece: PieceOps, state: State, operation: UpOperation): (r: Result<State>)
    ensures r.Ok? <==> TextOperation.ApplyOptional(text, state.value, operation.value).Ok?
                       && DK.Applied(state.pieces, operation.pieces, Piece.InnerApply(piece)).Ok?
    ensures TextOperation.ApplyOptional(text, state.value, operation.value).Err? ==>
      r == Err(TextOperation.ApplyOptional(text, state.value, operation.value).error)
    ensures r.Ok? ==> r.value == State(ReplaceOperation.Apply(state.isValuePrivate, operation.isValuePrivate),
                                       TextOperation.ApplyOptional(text, state.value, operation.value).value,
                                       DK.Applied(state.pieces, operation.pieces, Piece.InnerApply(piece)).value)
  {
    var value := TextOperation.ApplyOptional(text, state.value, operation.value);
    if value.Err? then Err(value.error)
    else
      var pieces := DK.Applied(state.pieces, operation.pieces, Piece.InnerApply(piece));
      if pieces.Err? then Err(pieces.error)
      else Ok(State(ReplaceOperation.Apply(state.isValuePrivate, operation.isValuePrivate), value.value, pieces.value))
  }

  /** Applies an up-operation to a copy of the state. */
  method Apply(text: TextOps, piece: PieceOps, state: State, operation: UpOperation) returns (r: Result<State>)
    ensures r.Ok? <==> Applied(text, piece, state, operation).Ok?
    ensures r.Ok? ==> r == Applied(text, piece, state, operation)
  {
    var result := state;
    if operation.isValuePrivate.Some? {
      result := result.(isValuePrivate := operation.isValuePrivate.value.newValue);
    }
    if operation.value.Some? {
      var newValue := text.apply(result.value, operation.value.value);
      if newValue.Err? {
        return Err(newValue.error);
      }
      result := result.(value := newValue.value);
    }
    var pieces := DK.Apply(state.pieces, operation.pieces, Piece.InnerApply(piece));
    if pieces.Err? {
      return Err(pieces.error);
    }
    result := result.(pieces := pieces.value);
    return Ok(result);
  }

  /** The specification of `applyBack`, the mirror of `Applied`. */
  ghost function AppliedBack(text: TextOps, piece: PieceOps, state: State, operation: DownOperation): (r: Result<State>)
    ensures r.Ok? <==> TextOperation.ApplyBackOptional(text, state.value, operation.value).Ok?
                       && DK.AppliedBack(state.pieces, operation.pieces, Piece.InnerApplyBack(piece)).Ok?
    ensures TextOperation.ApplyBackOptional(text, state.value, operation.value).Err? ==>
      r == Err(TextOperation.ApplyBackOptional(text, state.value, operation.value).error)
    ensures r.Ok? ==> r.value == State(ReplaceOperation.ApplyBack(state.isValuePrivate, operation.isValuePrivate),
                                       TextOperation.ApplyBackOptional(text, state.value, operation.value).value,
                                       DK.AppliedBack(state.pieces, operation.pieces, Piece.InnerApplyBack(piece)).value)
  {
    var value := TextOperation.ApplyBackOptional(text, state.value, operation.value);
    if value.Err? then Err(value.error)
    else
      var pieces := DK.AppliedBack(state.pieces, operation.pieces, Piece.InnerApplyBack(piece));
      if pieces.Err? then Err(pieces.error)
      else Ok(State(ReplaceOperation.ApplyBack(state.isValuePrivate, operation.isValuePrivate), value.value, pieces.value))
  }

  /** Applies a down-operation to a copy of the state. */
  method ApplyBack(text: TextOps, piece: PieceOps, state: State, operation: DownOperation) returns (r: Result<State>)
    ensures r.Ok? <==> AppliedBack(text, piece, state, operation).Ok?
    ensures r.Ok? ==> r == AppliedBack(text, piece, state, operation)
  {
    var result := state;
    if operation.isValuePrivate.Some? {
      result := result.(isValuePrivate := operation.isValuePrivate.value.oldValue);
    }
    if operation.value.Some? {
      var newValue := text.applyBack(result.value, operation.value.value);
      if newValue.Err? {
        return Err(newValue.error);
      }
      result := result.(value := newValue.value);
    }
    var pieces := DK.ApplyBack(state.pieces, operation.pieces, Piece.InnerApplyBack(piece));
    if pieces.Err? {
      return Err(pieces.error);
    }
    result := result.(pieces := pieces.value);
    return Ok(result);
  }

  /** An optional up-operation; absent means no change. */
  ghost function ApplyOptional(text: TextOps, piece: PieceOps, state: State, operation: Option<UpOperation>): (r: Result<State>)
    ensures operation.None? ==> r == Ok(state)
  {
    if operation.None? then Ok(state) else Applied(text, piece, state, operation.value)
  }

  // ---------------------------------------------------------------------
  // composeDownOperation

  /** The specification of `composeDownOperation`: the value's
      down-operations by the string OT, then the pieces by the dual-key
      engine, each failure failing the whole; the flag keeps the earliest
      old value. */
  ghost function ComposedDown(text: TextOps, piece: PieceOps, first: DownOperation, second: DownOperation): (r: Result<DownOperation>)
    ensures r.Ok? <==> text.composeDown(first.value, second.value).Ok?
                       && DK.ComposedDown(first.pieces, second.pieces, Piece.InnerApplyBack(piece), Piece.InnerCompose(piece)).Ok?
    ensures r.Ok? ==> r.value == DownOperation(ReplaceOperation.ComposeDownOperation(first.isValuePrivate, second.isValuePrivate),
                                               text.composeDown(first.value, second.value).value,
                                               DK.ComposedDown(first.pieces, second.pieces, Piece.InnerApplyBack(piece), Piece.InnerCompose(piece)).value)
  {
    var value := text.composeDown(first.value, second.value);
    if value.Err? then Err(value.error)
    else
      var pieces := DK.ComposedDown(first.pieces, second.pieces, Piece.InnerApplyBack(piece), Piece.InnerCompose(piece));
      if pieces.Err? then Err(pieces.error)
      else Ok(DownOperation(ReplaceOperation.ComposeDownOperation(first.isValuePrivate, second.isValuePrivate), value.value, pieces.value))
  }

  method ComposeDownOperation(text: TextOps, piece: PieceOps, first: DownOperation, second: DownOperation) returns (r: Result<DownOperation>)
    ensures r.Ok? <==> ComposedDown(text, piece, first, second).Ok?
    ensures r.Ok? ==> r == ComposedDown(text, piece, first, second)
  {
    var value := text.composeDown(first.value, second.value);
    if value.Err? {
      return Err(value.error);
    }
    var pieces := DK.ComposeDownOperation(first.pieces, second.pieces, Piece.InnerApplyBack(piece), Piece.InnerCompose(piece));
    if pieces.Err? {
      return Err(pieces.error);
    }
    return Ok(DownOperation(ReplaceOperation.ComposeDownOperation(first.isValuePrivate, second.isValuePrivate), value.value, pieces.value));
  }

  /** Under the string OT's and the pieces' composition laws, composition
      is sequential backward application wherever the two steps apply. */
  lemma ComposeDownIsSequentialApplyBack(text: TextOps, piece: PieceOps, state: State, first: DownOperation, second: DownOperation)
    requires TextOperation.ComposeDownLaw(text) && Piece.ComposeLaw(piece)
    requires AppliedBack(text, piece, state, second).Ok?
    requires AppliedBack(text, piece, AppliedBack(text, piece, state, second).value, first).Ok?
    ensures ComposedDown(text, piece, first, second).Ok?
    ensures AppliedBack(text, piece, state, ComposedDown(text, piece, first, second).value)
         == AppliedBack(text, piece, AppliedBack(text, piece, state, second).value, first)
  {
    var middle := AppliedBack(text, piece, state, second).value;
    assert TextOperation.ApplyBackOptional(text, state.value, second.value).Ok?;
    assert TextOperation.ApplyBackOptional(text, middle.value, first.value).Ok?;
    Piece.ComposeLawLifts(piece);
    DK.ComposeDownIsSequentialApplyBack(state.pieces, first.pieces, second.pieces, Piece.InnerApplyBack(piece), Piece.InnerCompose(piece));
  }

  // ---------------------------------------------------------------------
  // restore

  /** The specification of `restore`: the pieces are restored first by the
      dual-key engine, then the flag from the down-operation, then the value
      by the string OT's restore; each failure fails the whole. The two-way
      operation is not normalised: it is present whenever a down-operation is. */
  ghost function Restored(text: TextOps, piece: PieceOps, nextState: State, downOperation: Option<DownOperation>)
    : (r: Result<RestoreResult<State, TwoWayOperation>>)
    ensures downOperation.None? ==> r == Ok(RestoreResult(nextState, None))
    ensures downOperation.Some? ==>
      (r.Ok? <==> DK.Restored(nextState.pieces, downOperation.value.pieces, Piece.InnerRestore(piece), Piece.InnerDiff(piece)).Ok?
                  && (downOperation.value.value.None? || text.restore(nextState.value, downOperation.value.value.value).Ok?))
    ensures downOperation.Some? && r.Ok? ==> r.value.twoWayOperation.Some?
    ensures downOperation.Some? && r.Ok? ==>
      r.value.prevState.isValuePrivate == ReplaceOperation.ApplyBack(nextState.isValuePrivate, downOperation.value.isValuePrivate)
      && (r.value.twoWayOperation.value.isValuePrivate.Some? <==> downOperation.value.isValuePrivate.Some?)
  {
    if downOperation.None? then Ok(RestoreResult(nextState, None))
    else
      var d := downOperation.value;
      var pieces := DK.Restored(nextState.pieces, d.pieces, Piece.InnerRestore(piece), Piece.InnerDiff(piece));
      if pieces.Err? then Err(pieces.error)
      else
        var isValuePrivate := MapOption(d.isValuePrivate, (o: ReplaceOperation.DownOperation<bool>) => ReplaceOperation.TwoWayOperation(o.oldValue, nextState.isValuePrivate));
        var prevFlag := ReplaceOperation.ApplyBack(nextState.isValuePrivate, d.isValuePrivate);
        if d.value.None? then
          Ok(RestoreResult(State(prevFlag, nextState.value, pieces.value.prevState),
                           Some(TwoWayOperation(isValuePrivate, None, pieces.value.twoWayOperation))))
        else
          var restored := text.restore(nextState.value, d.value.value);
          if restored.Err? then Err(restored.error)
          else Ok(RestoreResult(State(prevFlag, restored.value.prevState, pieces.value.prevState),
                                Some(TwoWayOperation(isValuePrivate, restored.value.twoWayOperation, pieces.value.twoWayOperation))))
  }

  method Restore(text: TextOps, piece: PieceOps, nextState: State, downOperation: Option<DownOperation>)
    returns (r: Result<RestoreResult<State, TwoWayOperation>>)
    ensures r.Ok? <==> Restored(text, piece, nextState, downOperation).Ok?
    ensures r.Ok? ==> r == Restored(text, piece, nextState, downOperation)
  {
    if downOperation.None? {
      return Ok(RestoreResult(nextState, None));
    }
    var d := downOperation.value;
    var pieces := DK.Restore(nextState.pieces, d.pieces, Piece.InnerRestore(piece), Piece.InnerDiff(piece));
    if pieces.Err? {
      return Err(pieces.error);
    }
    var prevState := nextState.(pieces := pieces.value.prevState);
    var twoWayOperation := TwoWayOperation(None, None, pieces.value.twoWayOperation);
    if d.isValuePrivate.Some? {
      prevState := prevState.(isValuePrivate := d.isValuePrivate.value.oldValue);
      twoWayOperation := twoWayOperation.(isValuePrivate := Some(ReplaceOperation.TwoWayOperation(d.isValuePrivate.value.oldValue, nextState.isValuePrivate)));
    }
    if d.value.Some? {
      var restored := text.restore(nextState.value, d.value.value);
      if restored.Err? {
        return Err(restored.error);
      }
      prevState := prevState.(value := restored.value.prevState);
      twoWayOperation := twoWayOperation.(value := restored.value.twoWayOperation);
    }
    return Ok(RestoreResult(prevState, Some(twoWayOperation)));
  }

  /** Under the restore and diff laws of the string OT and the pieces,
      restore succeeds exactly when the backward application does, reaches
      its state, and its two-way operation leads from there to the given
      state and back. */
  lemma RestoreIsApplyBack(text: TextOps, piece: PieceOps, nextState: State, downOperation: DownOperation)
    requires TextOperation.RestoreLaw(text) && Piece.RestoreLaw(piece) && Piece.DiffLaw(piece)
    ensures var r := Restored(text, piece, nextState, Some(downOperation));
      (r.Ok? <==> AppliedBack(text, piece, nextState, downOperation).Ok?)
      && (r.Ok? ==>
            r.value.prevState == AppliedBack(text, piece, nextState, downOperation).value
            && Applied(text, piece, r.value.prevState, ToUpOperation(text, piece, r.value.twoWayOperation.value)) == Ok(nextState)
            && AppliedBack(text, piece, nextState, ToDownOperation(text, piece, r.value.twoWayOperation.value)) == Ok(r.value.prevState))
  {
    Piece.RestoreLawLifts(piece);
    Piece.DiffLawLifts(piece);
    DK.RestoreIsApplyBack(nextState.pieces, downOperation.pieces, Piece.InnerRestore(piece), Piece.InnerDiff(piece),
                          Piece.InnerApplyBack(piece), piece.toUp, piece.toDown, Piece.InnerApply(piece));
    var pieces := DK.Restored(nextState.pieces, downOperation.pieces, Piece.InnerRestore(piece), Piece.InnerDiff(piece));
    if pieces.Ok? {
      DK.RestoreTwoWayLeadsBack(nextState.pieces, downOperation.pieces, Piece.InnerRestore(piece), Piece.InnerDiff(piece),
                                Piece.InnerApplyBack(piece), piece.toUp, piece.toDown, Piece.InnerApply(piece));
    }
    if downOperation.value.Some? {
      var restored := text.restore(nextState.value, downOperation.value.value);
      assert restored.Ok? <==> text.applyBack(nextState.value, downOperation.value.value).Ok?;
    }
  }

  // ---------------------------------------------------------------------
  // diff

  /** The specification of `diff`: the flag when it differs, the string
      OT's diff of the values when they differ, and the dual-key diff of
      the pieces; no field at all gives no operation. */
  function Difference(text: TextOps, piece: PieceOps, prevState: State, nextState: State): (r: Option<TwoWayOperation>)
    ensures r.Some? ==> (r.value.isValuePrivate.Some? <==> prevState.isValuePrivate != nextState.isValuePrivate)
    ensures r.Some? && r.value.isValuePrivate.Some? ==>
      r.value.isValuePrivate.value == ReplaceOperation.TwoWayOperation(prevState.isValuePrivate, nextState.isValuePrivate)
    ensures r.Some? && r.value.value.Some? ==> prevState.value != nextState.value && r.value.value == text.diff(prevState.value, nextState.value)
    ensures r.Some? ==> r.value.pieces == DK.Difference(prevState.pieces, nextState.pieces, Piece.InnerDiff(piece))
  {
    NormalizeTwoWay(TwoWayOperation(
      if prevState.isValuePrivate != nextState.isValuePrivate then Some(ReplaceOperation.TwoWayOperation(prevState.isValuePrivate, nextState.isValuePrivate)) else None,
      if prevState.value != nextState.value then text.diff(prevState.value, nextState.value) else None,
      DK.Difference(prevState.pieces, nextState.pieces, Piece.InnerDiff(piece))))
  }

  method Diff(text: TextOps, piece: PieceOps, prevState: State, nextState: State) returns (r: Option<TwoWayOperation>)
    ensures r == Difference(text, piece, prevState, nextState)
  {
    var pieces := DK.Diff(prevState.pieces, nextState.pieces, Piece.InnerDiff(piece));
    var resultType := TwoWayOperation(None, None, pieces);
    if prevState.isValuePrivate != nextState.isValuePrivate {
      resultType := resultType.(isValuePrivate := Some(ReplaceOperation.TwoWayOperation(prevState.isValuePrivate, nextState.isValuePrivate)));
    }
    if prevState.value != nextState.value {
      resultType := resultType.(value := text.diff(prevState.value, nextState.value));
    }
    if IsIdTwoWay(resultType) {
      return None;
    }
    return Some(resultType);
  }

  /** Under the diff laws of the string OT and the pieces, the diff is
      empty exactly between equal states, and leads from the first to the
      second and back. */
  lemma DiffRoundTrip(text: TextOps, piece: PieceOps, prevState: State, nextState: State)
    requires TextOperation.DiffLaw(text) && Piece.DiffLaw(piece)
    ensures Difference(text, piece, prevState, nextState).None? <==> prevState == nextState
    ensures var d := Difference(text, piece, prevState, nextState);
      d.Some? ==>
        Applied(text, piece, prevState, ToUpOperation(text, piece, d.value)) == Ok(nextState)
        && AppliedBack(text, piece, nextState, ToDownOperation(text, piece, d.value)) == Ok(prevState)
  {
    Piece.DiffLawLifts(piece);
    DK.DiffIsNoneIffEqual(prevState.pieces, nextState.pieces, Piece.InnerDiff(piece), piece.toUp, piece.toDown,
                          Piece.InnerApply(piece), Piece.InnerApplyBack(piece));
    DK.DiffRoundTrip(prevState.pieces, nextState.pieces, Piece.InnerDiff(piece), piece.toUp, piece.toDown,
                     Piece.InnerApply(piece), Piece.InnerApplyBack(piece));
    if prevState.value != nextState.value {
      assert text.diff(prevState.value, nextState.value).Some?;
    }
  }

  // ---------------------------------------------------------------------
  // serverTransform

  /** The specification of `serverTransform`. An unauthorised requester's
      operation is ignored. Otherwise the pieces are transformed by the
      dual-key engine under the piece cancellation policy, the flag by
      server-wins and the value by the string OT, each failure failing the
      whole; no field at all gives no operation. */
  ghost function ServerTransformed(text: TextOps, piece: PieceOps, isAuthorized: bool, prevState: State, currentState: State,
                                   serverOperation: Option<TwoWayOperation>, clientOperation: UpOperation)
    : (r: Result<Option<TwoWayOperation>>)
    ensures !isAuthorized ==> r == Ok(None)
    ensures isAuthorized ==>
      (r.Ok? <==> DK.ServerTransformed(prevState.pieces, currentState.pieces, if serverOperation.Some? then serverOperation.value.pieces else None,
                                       clientOperation.pieces, Piece.InnerServerTransform(piece), Piece.ToServerState(), Piece.Policy(piece, isAuthorized)).Ok?
                  && text.serverTransform(if serverOperation.Some? then serverOperation.value.value else None, clientOperation.value, prevState.value).Ok?)
    ensures r.Ok? && r.value.Some? ==> !IsIdTwoWay(r.value.value)
    ensures isAuthorized && r.Ok? ==>
      (r.value.None? <==>
         !ReplaceOperation.Accepts(if serverOperation.Some? then serverOperation.value.isValuePrivate else None, clientOperation.isValuePrivate, prevState.isValuePrivate)
         && text.serverTransform(if serverOperation.Some? then serverOperation.value.value else None, clientOperation.value, prevState.value).value.None?
         && DK.ServerTransformed(prevState.pieces, currentState.pieces, if serverOperation.Some? then serverOperation.value.pieces else None,
                                 clientOperation.pieces, Piece.InnerServerTransform(piece), Piece.ToServerState(), Piece.Policy(piece, isAuthorized)).value.None?)
    ensures r.Ok? && r.value.Some? ==>
      r.value.value.isValuePrivate == ReplaceOperation.ServerTransform(if serverOperation.Some? then serverOperation.value.isValuePrivate else None,
                                                                       clientOperation.isValuePrivate, prevState.isValuePrivate)
      && r.value.value.value == text.serverTransform(if serverOperation.Some? then serverOperation.value.value else None, clientOperation.value, prevState.value).value
      && r.value.value.pieces == DK.ServerTransformed(prevState.pieces, currentState.pieces, if serverOperation.Some? then serverOperation.value.pieces else None,
                                                      clientOperation.pieces, Piece.InnerServerTransform(piece), Piece.ToServerState(), Piece.Policy(piece, isAuthorized)).value
  {
    if !isAuthorized then Ok(None)
    else
      var pieces := DK.ServerTransformed(prevState.pieces, currentState.pieces, if serverOperation.Some? then serverOperation.value.pieces else None,
                                         clientOperation.pieces, Piece.InnerServerTransform(piece), Piece.ToServerState(), Piece.Policy(piece, isAuthorized));
      if pieces.Err? then Err(pieces.error)
      else
        var isValuePrivate := ReplaceOperation.ServerTransform(if serverOperation.Some? then serverOperation.value.isValuePrivate else None,
                                                               clientOperation.isValuePrivate, prevState.isValuePrivate);
        var value := text.serverTransform(if serverOperation.Some? then serverOperation.value.value else None, clientOperation.value, prevState.value);
        if value.Err? then Err(value.error)
        else Ok(NormalizeTwoWay(TwoWayOperation(isValuePrivate, value.value, pieces.value)))
  }

  method ServerTransform(text: TextOps, piece: PieceOps, isAuthorized: bool, prevState: State, currentState: State,
                         serverOperation: Option<TwoWayOperation>, clientOperation: UpOperation)
    returns (r: Result<Option<TwoWayOperation>>)
    ensures r.Ok? <==> ServerTransformed(text, piece, isAuthorized, prevState, currentState, serverOperation, clientOperation).Ok?
    ensures r.Ok? ==> r == ServerTransformed(text, piece, isAuthorized, prevState, currentState, serverOperation, clientOperation)
  {
    if !isAuthorized {
      return Ok(None);
    }
    var pieces := DK.ServerTransform(prevState.pieces, currentState.pieces, if serverOperation.Some? then serverOperation.value.pieces else None,
                                     clientOperation.pieces, Piece.InnerServerTransform(piece), Piece.ToServerState(), Piece.Policy(piece, isAuthorized));
    if pieces.Err? {
      return Err(pieces.error);
    }
    var twoWayOperation := TwoWayOperation(None, None, pieces.value);
    twoWayOperation := twoWayOperation.(isValuePrivate := ReplaceOperation.ServerTransform(
      if serverOperation.Some? then serverOperation.value.isValuePrivate else None, clientOperation.isValuePrivate, prevState.isValuePrivate));
    var valueResult := text.serverTransform(if serverOperation.Some? then serverOperation.value.value else None, clientOperation.value, prevState.value);
    if valueResult.Err? {
      return Err(valueResult.error);
    }
    twoWayOperation := twoWayOperation.(value := valueResult.value);
    if IsIdTwoWay(twoWayOperation) {
      return Ok(None);
    }
    return Ok(Some(twoWayOperation));
  }

  /** The server's answer respects its state: a flag it changed itself is
      not changed by the client, and the pieces part is consistent with the
      server's current pieces, so that it applies there. */
  lemma ServerTransformRespectsServer(text: TextOps, piece: PieceOps, isAuthorized: bool, prevState: State, currentState: State,
                                      serverOperation: Option<TwoWayOperation>, clientOperation: UpOperation)
    requires ServerTransformed(text, piece, isAuthorized, prevState, currentState, serverOperation, clientOperation).Ok?
    ensures var r := ServerTransformed(text, piece, isAuthorized, prevState, currentState, serverOperation, clientOperation).value;
      r.Some? ==>
        (serverOperation.Some? && serverOperation.value.isValuePrivate.Some? ==> r.value.isValuePrivate.None?)
        && (r.value.pieces.Some? ==> DK.ConsistentWith(currentState.pieces, r.value.pieces.value))
  {
    if isAuthorized {
      DK.ServerTransformConsistent(prevState.pieces, currentState.pieces, if serverOperation.Some? then serverOperation.value.pieces else None,
                                   clientOperation.pieces, Piece.InnerServerTransform(piece), Piece.ToServerState(), Piece.Policy(piece, isAuthorized));
    }
  }

  /** The cancellation policy is installed with the requester's own
      authorisation, which is known to hold past the early return: the
      policy never vetoes there. */
  lemma PolicyNeverVetoesWhenAuthorized(piece: PieceOps, k: Piece.DualKey, prevState: Piece.State, nextState: Piece.State)
    ensures !DK.Vetoes(Piece.Policy(piece, true).cancelRemove, k, nextState)
    ensures !DK.Vetoes(Piece.Policy(piece, true).cancelCreate, k, nextState)
    ensures !DK.VetoesUpdate(Piece.Policy(piece, true).cancelUpdate, k, prevState, nextState)
  {
  }

  // ---------------------------------------------------------------------
  // clientTransform

  /** The specification of `clientTransform`: the pieces by the dual-key
      engine, the flag by first-wins and the value by the string OT, each
      failure failing the whole; each prime is no operation when it has no
      field. */
  ghost function ClientTransformed(text: TextOps, piece: PieceOps, first: UpOperation, second: UpOperation)
    : (r: Result<Primes<UpOperation, UpOperation>>)
    ensures r.Ok? <==> DK.ClientTransformed(first.pieces, second.pieces, piece.clientTransform, Piece.ClientDiff(piece)).Ok?
                       && text.clientTransform(first.value, second.value).Ok?
    ensures r.Ok? ==>
      var pieces := DK.ClientTransformed(first.pieces, second.pieces, piece.clientTransform, Piece.ClientDiff(piece)).value;
      var isValuePrivate := ReplaceOperation.ClientTransform(first.isValuePrivate, second.isValuePrivate);
      var value := text.clientTransform(first.value, second.value).value;
      r.value.firstPrime == NormalizeUp(UpOperation(isValuePrivate.firstPrime, value.firstPrime, pieces.firstPrime))
      && r.value.secondPrime == NormalizeUp(UpOperation(isValuePrivate.secondPrime, value.secondPrime, pieces.secondPrime))
  {
    var pieces := DK.ClientTransformed(first.pieces, second.pieces, piece.clientTransform, Piece.ClientDiff(piece));
    if pieces.Err? then Err(pieces.error)
    else
      var isValuePrivate := ReplaceOperation.ClientTransform(first.isValuePrivate, second.isValuePrivate);
      var value := text.clientTransform(first.value, second.value);
      if value.Err? then Err(value.error)
      else Ok(Primes(NormalizeUp(UpOperation(isValuePrivate.firstPrime, value.value.firstPrime, pieces.value.firstPrime)),
                     NormalizeUp(UpOperation(isValuePrivate.secondPrime, value.value.secondPrime, pieces.value.secondPrime))))
  }

  method ClientTransform(text: TextOps, piece: PieceOps, first: UpOperation, second: UpOperation)
    returns (r: Result<Primes<UpOperation, UpOperation>>)
    ensures r.Ok? <==> ClientTransformed(text, piece, first, second).Ok?
    ensures r.Ok? ==> r == ClientTransformed(text, piece, first, second)
  {
    var pieces := DK.ClientTransform(first.pieces, second.pieces, piece.clientTransform, Piece.ClientDiff(piece));
    if pieces.Err? {
      return Err(pieces.error);
    }
    var isValuePrivate := ReplaceOperation.ClientTransform(first.isValuePrivate, second.isValuePrivate);
    var value := text.clientTransform(first.value, second.value);
    if value.Err? {
      return Err(value.error);
    }
    var firstPrime := UpOperation(isValuePrivate.firstPrime, value.value.firstPrime, pieces.value.firstPrime);
    var secondPrime := UpOperation(isValuePrivate.secondPrime, value.value.secondPrime, pieces.value.secondPrime);
    return Ok(Primes(if IsIdUp(firstPrime) then None else Some(firstPrime),
                     if IsIdUp(secondPrime) then None else Some(secondPrime)));
  }

  /** A prime that is no operation changes nothing, like its fields. */
  lemma ApplyNormalized(text: TextOps, piece: PieceOps, state: State, operation: UpOperation)
    ensures ApplyOptional(text, piece, state, NormalizeUp(operation)) == Applied(text, piece, state, operation)
  {
  }

  /** Under the convergence laws of the string OT and the pieces, the peer
      transform of two operations that make sense on the state converges
      (TP1): both orders of application reach the same state. */
  lemma ClientTransformConverges(text: TextOps, piece: PieceOps, state: State, first: UpOperation, second: UpOperation)
    requires TextOperation.ClientTransformLaw(text) && Piece.ClientTransformLaw(piece) && Piece.DiffLaw(piece)
    requires DK.WellFormedOn(state.pieces, first.pieces) && DK.WellFormedOn(state.pieces, second.pieces)
    requires Applied(text, piece, state, first).Ok? && Applied(text, piece, state, second).Ok?
    requires ClientTransformed(text, piece, first, second).Ok?
    ensures var p := ClientTransformed(text, piece, first, second).value;
      ApplyOptional(text, piece, Applied(text, piece, state, first).value, p.secondPrime).Ok?
      && ApplyOptional(text, piece, Applied(text, piece, state, first).value, p.secondPrime)
         == ApplyOptional(text, piece, Applied(text, piece, state, second).value, p.firstPrime)
  {
    Piece.ClientLawsLift(piece);
    DK.ClientTransformConverges(state.pieces, first.pieces, second.pieces, piece.clientTransform, Piece.ClientDiff(piece), Piece.InnerApply(piece));
    assert TextOperation.ApplyOptional(text, state.value, first.value).Ok?;
    assert TextOperation.ApplyOptional(text, state.value, second.value).Ok?;
    var pieces := DK.ClientTransformed(first.pieces, second.pieces, piece.clientTransform, Piece.ClientDiff(piece)).value;
    var isValuePrivate := ReplaceOperation.ClientTransform(first.isValuePrivate, second.isValuePrivate);
    var value := text.clientTransform(first.value, second.value).value;
    ApplyNormalized(text, piece, Applied(text, piece, state, first).value, UpOperation(isValuePrivate.secondPrime, value.secondPrime, pieces.secondPrime));
    ApplyNormalized(text, piece, Applied(text, piece, state, second).value, UpOperation(isValuePrivate.firstPrime, value.firstPrime, pieces.firstPrime));
  }
}
