/** A participant's image placed on boards: an image file and a privacy
    flag replaced as a whole, a memo and a name edited with the string OT,
    and a collection of pieces handled by the dual-key engine. */
module ImagePieceValue {
  import opened Wrappers
  import FilePath
  import ReplaceOperation
  import TextOperation
  import Piece
  import DK = DualKeyRecordOperation

  type TextOps = TextOperation.TextOps
  type PieceOps = Piece.PieceOps
  type Image = Option<FilePath.FilePath>

  datatype State = State(image: Image, isPrivate: bool, memo: string, name: string, pieces: Piece.Pieces)

  datatype UpOperation = UpOperation(
    image: Option<ReplaceOperation.UpOperation<Image>>,
    isPrivate: Option<ReplaceOperation.UpOperation<bool>>,
    memo: Option<TextOperation.UpOperation>,
    name: Option<TextOperation.UpOperation>,
    pieces: Option<Piece.PiecesUp>)

  datatype DownOperation = DownOperation(
    image: Option<ReplaceOperation.DownOperation<Image>>,
    isPrivate: Option<ReplaceOperation.DownOperation<bool>>,
    memo: Option<TextOperation.DownOperation>,
    name: Option<TextOperation.DownOperation>,
    pieces: Option<Piece.PiecesDown>)

  datatype TwoWayOperation = TwoWayOperation(
    image: Option<ReplaceOperation.TwoWayOperation<Image>>,
    isPrivate: Option<ReplaceOperation.TwoWayOperation<bool>>,
    memo: Option<TextOperation.TwoWayOperation>,
    name: Option<TextOperation.TwoWayOperation>,
    pieces: Option<Piece.PiecesTwoWay>)

  predicate IsIdUp(op: UpOperation) {
    op.image.None? && op.isPrivate.None? && op.memo.None? && op.name.None? && op.pieces.None?
  }

  predicate IsIdTwoWay(op: TwoWayOperation) {
    op.image.None? && op.isPrivate.None? && op.memo.None? && op.name.None? && op.pieces.None?
  }

  function NormalizeUp(op: UpOperation): (r: Option<UpOperation>)
    ensures r.None? <==> IsIdUp(op)
    ensures r.Some? ==> r.value == op
  {
    if IsIdUp(op) then None else Some(op)
  }

  function NormalizeTwoWay(op: TwoWayOperation): (r: Option<TwoWayOperation>)
    ensures r.None? <==> IsIdTwoWay(op)
    ensures r.Some? ==> r.value == op
  {
    if IsIdTwoWay(op) then None else Some(op)
  }

  function ToUpOperation(text: TextOps, piece: PieceOps, source: TwoWayOperation): UpOperation {
    UpOperation(MapOption(source.image, ReplaceOperation.ToUpOperation),
                MapOption(source.isPrivate, ReplaceOperation.ToUpOperation),
                MapOption(source.memo, text.toUp),
                MapOption(source.name, text.toUp),
                DK.ToUpOperation(source.pieces, piece.toUp))
  }

  function ToDownOperation(text: TextOps, piece: PieceOps, source: TwoWayOperation): DownOperation {
    DownOperation(MapOption(source.image, ReplaceOperation.ToDownOperation),
                  MapOption(source.isPrivate, ReplaceOperation.ToDownOperation),
                  MapOption(source.memo, text.toDown),
                  MapOption(source.name, text.toDown),
                  DK.ToDownOperation(source.pieces, piece.toDown))
  }

  /** What a viewer receives: everything but the pieces as is, the pieces
      converted by the piece module's conversion for the viewer, which is a
      parameter here. */
  function ToClientState(toClientStateMany: Piece.Pieces -> Piece.Pieces, source: State): (r: State)
    ensures r == source.(pieces := toClientStateMany(source.pieces))
  {
    source.(pieces := toClientStateMany(source.pieces))
  }

  // ---------------------------------------------------------------------
  // apply and applyBack

  /** The specification of `apply`: image and flag take their new values,
      memo and name are edited by the string OT and the pieces by the
      dual-key engine; failures count in that order. */
  ghost function Applied(text: TextOps, piece: PieceOps, state: State, operation: UpOperation): (r: Result<State>)
    ensures r.Ok? <==> TextOperation.ApplyOptional(text, state.memo, operation.memo).Ok?
                       && TextOperation.ApplyOptional(text, state.name, operation.name).Ok?
                       && DK.Applied(state.pieces, operation.pieces, Piece.InnerApply(piece)).Ok?
    ensures TextOperation.ApplyOptional(text, state.memo, operation.memo).Err? ==>
      r == Err(TextOperation.ApplyOptional(text, state.memo, operation.memo).error)
    ensures r.Ok? ==> r.value == State(ReplaceOperation.Apply(state.image, operation.image),
                                       ReplaceOperation.Apply(state.isPrivate, operation.isPrivate),
                                       TextOperation.ApplyOptional(text, state.memo, operation.memo).value,
                                       TextOperation.ApplyOptional(text, state.name, operation.name).value,
                                       DK.Applied(state.pieces, operation.pieces, Piece.InnerApply(piece)).value)
  {
    var memo := TextOperation.ApplyOptional(text, state.memo, operation.memo);
    if memo.Err? then Err(memo.error)
    else
      var name := TextOperation.ApplyOptional(text, state.name, operation.name);
      if name.Err? then Err(name.error)
      else
        var pieces := DK.Applied(state.pieces, operation.pieces, Piece.InnerApply(piece));
        if pieces.Err? then Err(pieces.error)
        else Ok(State(ReplaceOperation.Apply(state.image, operation.image), ReplaceOperation.Apply(state.isPrivate, operation.isPrivate),
                      memo.value, name.value, pieces.value))
  }

  /** Applies an up-operation to a copy of the state. */
  method Apply(text: TextOps, piece: PieceOps, state: State, operation: UpOperation) returns (r: Result<State>)
    ensures r.Ok? <==> Applied(text, piece, state, operation).Ok?
    ensures r.Ok? ==> r == Applied(text, piece, state, operation)
  {
    var result := state;
    if operation.image.Some? {
      result := result.(image := operation.image.value.newValue);
    }
    if operation.isPrivate.Some? {
      result := result.(isPrivate := operation.isPrivate.value.newValue);
    }
    if operation.memo.Some? {
      var valueResult := text.apply(state.memo, operation.memo.value);
      if valueResult.Err? {
        return Err(valueResult.error);
      }
      result := result.(memo := valueResult.value);
    }
    if operation.name.Some? {
      var valueResult := text.apply(state.name, operation.name.value);
      if valueResult.Err? {
        return Err(valueResult.error);
      }
      result := result.(name := valueResult.value);
    }
    var pieces := DK.Apply(state.pieces, operation.pieces, Piece.InnerApply(piece));
    if pieces.Err? {
      return Err(pieces.error);
    }
    result := result.(pieces := pieces.value);
    return Ok(result);
  }

  /** The specification of `applyBack`, the mirror of `Applied`. */
  ghost function AppliedBack(text: TextOps, piece: PieceOps, state: State, operation: DownOperation): (r: Result<State>)
    ensures r.Ok? <==> TextOperation.ApplyBackOptional(text, state.memo, operation.memo).Ok?
                       && TextOperation.ApplyBackOptional(text, state.name, operation.name).Ok?
                       && DK.AppliedBack(state.pieces, operation.pieces, Piece.InnerApplyBack(piece)).Ok?
    ensures TextOperation.ApplyBackOptional(text, state.memo, operation.memo).Err? ==>
      r == Err(TextOperation.ApplyBackOptional(text, state.memo, operation.memo).error)
    ensures r.Ok? ==> r.value == State(ReplaceOperation.ApplyBack(state.image, operation.image),
                                       ReplaceOperation.ApplyBack(state.isPrivate, operation.isPrivate),
                                       TextOperation.ApplyBackOptional(text, state.memo, operation.memo).value,
                                       TextOperation.ApplyBackOptional(text, state.name, operation.name).value,
                                       DK.AppliedBack(state.pieces, operation.pieces, Piece.InnerApplyBack(piece)).value)
  {
    var memo := TextOperation.ApplyBackOptional(text, state.memo, operation.memo);
    if memo.Err? then Err(memo.error)
    else
      var name := TextOperation.ApplyBackOptional(text, state.name, operation.name);
      if name.Err? then Err(name.error)
      else
        var pieces := DK.AppliedBack(state.pieces, operation.pieces, Piece.InnerApplyBack(piece));
        if pieces.Err? then Err(pieces.error)
        else Ok(State(ReplaceOperation.ApplyBack(state.image, operation.image), ReplaceOperation.ApplyBack(state.isPrivate, operation.isPrivate),
                      memo.value, name.value, pieces.value))
  }

  /** Applies a down-operation to a copy of the state. */
  method ApplyBack(text: TextOps, piece: PieceOps, state: State, operation: DownOperation) returns (r: Result<State>)
    ensures r.Ok? <==> AppliedBack(text, piece, state, operation).Ok?
    ensures r.Ok? ==> r == AppliedBack(text, piece, state, operation)
  {
    var result := state;
    if operation.image.Some? {
      result := result.(image := operation.image.value.oldValue);
    }
    if operation.isPrivate.Some? {
      result := result.(isPrivate := operation.isPrivate.value.oldValue);
    }
    if operation.memo.Some? {
      var valueResult := text.applyBack(state.memo, operation.memo.value);
      if valueResult.Err? {
        return Err(valueResult.error);
      }
      result := result.(memo := valueResult.value);
    }
    if operation.name.Some? {
      var valueResult := text.applyBack(state.name, operation.name.value);
      if valueResult.Err? {
        return Err(valueResult.error);
      }
      result := result.(name := valueResult.value);
    }
    var pieces := DK.ApplyBack(state.pieces, operation.pieces, Piece.InnerApplyBack(piece));
    if pieces.Err? {
      return Err(pieces.error);
    }
    result := result.(pieces := pieces.value);
    return Ok(result);
  }

  /** An optional up-operation; absent means no change. */
  ghost function ApplyOptional(text: TextOps, piece: PieceOps, state: State, operation: Option<UpOperation>): (r: Result<State>)
    ensures operation.None? ==> r == Ok(state)
  {
    if operation.None? then Ok(state) else Applied(text, piece, state, operation.value)
  }

  // ---------------------------------------------------------------------
  // composeDownOperation

  /** The specification of `composeDownOperation`: memo, name and pieces
      are composed in that order, each failure failing the whole; image and
      flag keep the earliest old value. */
  ghost function ComposedDown(text: TextOps, piece: PieceOps, first: DownOperation, second: DownOperation): (r: Result<DownOperation>)
    ensures r.Ok? <==> text.composeDown(first.memo, second.memo).Ok? && text.composeDown(first.name, second.name).Ok?
                       && DK.ComposedDown(first.pieces, second.pieces, Piece.InnerApplyBack(piece), Piece.InnerCompose(piece)).Ok?
    ensures r.Ok? ==> r.value == DownOperation(ReplaceOperation.ComposeDownOperation(first.image, second.image),
                                               ReplaceOperation.ComposeDownOperation(first.isPrivate, second.isPrivate),
                                               text.composeDown(first.memo, second.memo).value,
                                               text.composeDown(first.name, second.name).value,
                                               DK.ComposedDown(first.pieces, second.pieces, Piece.InnerApplyBack(piece), Piece.InnerCompose(piece)).value)
  {
    var memo := text.composeDown(first.memo, second.memo);
    if memo.Err? then Err(memo.error)
    else
      var name := text.composeDown(first.name, second.name);
      if name.Err? then Err(name.error)
      else
        var pieces := DK.ComposedDown(first.pieces, second.pieces, Piece.InnerApplyBack(piece), Piece.InnerCompose(piece));
        if pieces.Err? then Err(pieces.error)
        else Ok(DownOperation(ReplaceOperation.ComposeDownOperation(first.image, second.image),
                              ReplaceOperation.ComposeDownOperation(first.isPrivate, second.isPrivate),
                              memo.value, name.value, pieces.value))
  }

  method ComposeDownOperation(text: TextOps, piece: PieceOps, first: DownOperation, second: DownOperation) returns (r: Result<DownOperation>)
    ensures r.Ok? <==> ComposedDown(text, piece, first, second).Ok?
    ensures r.Ok? ==> r == ComposedDown(text, piece, first, second)
  {
    var memo := text.composeDown(first.memo, second.memo);
    if memo.Err? {
      return Err(memo.error);
    }
    var name := text.composeDown(first.name, second.name);
    if name.Err? {
      return Err(name.error);
    }
    var pieces := DK.ComposeDownOperation(first.pieces, second.pieces, Piece.InnerApplyBack(piece), Piece.InnerCompose(piece));
    if pieces.Err? {
      return Err(pieces.error);
    }
    return Ok(DownOperation(ReplaceOperation.ComposeDownOperation(first.image, second.image),
                            ReplaceOperation.ComposeDownOperation(first.isPrivate, second.isPrivate),
                            memo.value, name.value, pieces.value));
  }

  /** Under the string OT's and the pieces' composition laws, composition
      is sequential backward application wherever the two steps apply. */
  lemma ComposeDownIsSequentialApplyBack(text: TextOps, piece: PieceOps, state: State, first: DownOperation, second: DownOperation)
    requires TextOperation.ComposeDownLaw(text) && Piece.ComposeLaw(piece)
    requires AppliedBack(text, piece, state, second).Ok?
    requires AppliedBack(text, piece, AppliedBack(text, piece, state, second).value, first).Ok?
    ensures ComposedDown(text, piece, first, second).Ok?
    ensures AppliedBack(text, piece, state, ComposedDown(text, piece, first, second).value)
         == AppliedBack(text, piece, AppliedBack(text, piece, state, second).value, first)
  {
    var middle := AppliedBack(text, piece, state, second).value;
    assert TextOperation.ApplyBackOptional(text, state.memo, second.memo).Ok?;
    assert TextOperation.ApplyBackOptional(text, middle.memo, first.memo).Ok?;
    assert TextOperation.ApplyBackOptional(text, state.name, second.name).Ok?;
    assert TextOperation.ApplyBackOptional(text, middle.name, first.name).Ok?;
    Piece.ComposeLawLifts(piece);
    DK.ComposeDownIsSequentialApplyBack(state.pieces, first.pieces, second.pieces, Piece.InnerApplyBack(piece), Piece.InnerCompose(piece));
  }

  // ---------------------------------------------------------------------
  // restore

  /** The memo and name parts of `restore`, by the string OT's restore:
      the earlier string and the two-way part, or the failure. */
  function RestoreText(text: TextOps, nextState: string, downOperation: Option<TextOperation.DownOperation>)
    : (r: Result<(string, Option<TextOperation.TwoWayOperation>)>)
    ensures downOperation.None? ==> r == Ok((nextState, None))
    ensures downOperation.Some? ==> (r.Ok? <==> text.restore(nextState, downOperation.value).Ok?)
  {
    if downOperation.None? then Ok((nextState, None))
    else
      var restored := text.restore(nextState, downOperation.value);
      if restored.Err? then Err(restored.error)
      else Ok((restored.value.prevState, restored.value.twoWayOperation))
  }

  /** The specification of `restore`: the pieces first by the dual-key
      engine, then image and flag from the down-operation, then memo and
      name by the string OT's restore; each failure fails the whole. The
      two-way operation is not normalised: it is present whenever a
      down-operation is. */
  ghost function Restored(text: TextOps, piece: PieceOps, nextState: State, downOperation: Option<DownOperation>)
    : (r: Result<RestoreResult<State, TwoWayOperation>>)
    ensures downOperation.None? ==> r == Ok(RestoreResult(nextState, None))
    ensures downOperation.Some? ==>
      (r.Ok? <==> DK.Restored(nextState.pieces, downOperation.value.pieces, Piece.InnerRestore(piece), Piece.InnerDiff(piece)).Ok?
                  && RestoreText(text, nextState.memo, downOperation.value.memo).Ok?
                  && RestoreText(text, nextState.name, downOperation.value.name).Ok?)
    ensures downOperation.Some? && r.Ok? ==> r.value.twoWayOperation.Some?
    ensures downOperation.Some? && r.Ok? ==>
      r.value.prevState.image == ReplaceOperation.ApplyBack(nextState.image, downOperation.value.image)
      && r.value.prevState.isPrivate == ReplaceOperation.ApplyBack(nextState.isPrivate, downOperation.value.isPrivate)
      && (r.value.twoWayOperation.value.image.Some? <==> downOperation.value.image.Some?)
      && (r.value.twoWayOperation.value.isPrivate.Some? <==> downOperation.value.isPrivate.Some?)
  {
    if downOperation.None? then Ok(RestoreResult(nextState, None))
    else
      var d := downOperation.value;
      var pieces := DK.Restored(nextState.pieces, d.pieces, Piece.InnerRestore(piece), Piece.InnerDiff(piece));
      if pieces.Err? then Err(pieces.error)
      else
        var image := MapOption(d.image, (o: ReplaceOperation.DownOperation<Image>) => ReplaceOperation.TwoWayOperation(o.oldValue, nextState.image));
        var isPrivate := MapOption(d.isPrivate, (o: ReplaceOperation.DownOperation<bool>) => ReplaceOperation.TwoWayOperation(o.oldValue, nextState.isPrivate));
        var memo := RestoreText(text, nextState.memo, d.memo);
        if memo.Err? then Err(memo.error)
        else
          var name := RestoreText(text, nextState.name, d.name);
          if name.Err? then Err(name.error)
          else
            Ok(RestoreResult(State(ReplaceOperation.ApplyBack(nextState.image, d.image), ReplaceOperation.ApplyBack(nextState.isPrivate, d.isPrivate),
                                   memo.value.0, name.value.0, pieces.value.prevState),
                             Some(TwoWayOperation(image, isPrivate, memo.value.1, name.value.1, pieces.value.twoWayOperation))))
  }

  method Restore(text: TextOps, piece: PieceOps, nextState: State, downOperation: Option<DownOperation>)
    returns (r: Result<RestoreResult<State, TwoWayOperation>>)
    ensures r.Ok? <==> Restored(text, piece, nextState, downOperation).Ok?
    ensures r.Ok? ==> r == Restored(text, piece, nextState, downOperation)
  {
    if downOperation.None? {
      return Ok(RestoreResult(nextState, None));
    }
    var d := downOperation.value;
    var pieces := DK.Restore(nextState.pieces, d.pieces, Piece.InnerRestore(piece), Piece.InnerDiff(piece));
    if pieces.Err? {
      return Err(pieces.error);
    }
    var prevState := nextState.(pieces := pieces.value.prevState);
    var twoWayOperation := TwoWayOperation(None, None, None, None, pieces.value.twoWayOperation);
    if d.image.Some? {
      prevState := prevState.(image := d.image.value.oldValue);
      twoWayOperation := twoWayOperation.(image := Some(ReplaceOperation.TwoWayOperation(d.image.value.oldValue, nextState.image)));
    }
    if d.isPrivate.Some? {
      prevState := prevState.(isPrivate := d.isPrivate.value.oldValue);
      twoWayOperation := twoWayOperation.(isPrivate := Some(ReplaceOperation.TwoWayOperation(d.isPrivate.value.oldValue, nextState.isPrivate)));
    }
    if d.memo.Some? {
      var restored := text.restore(nextState.memo, d.memo.value);
      if restored.Err? {
        return Err(restored.error);
      }
      prevState := prevState.(memo := restored.value.prevState);
      twoWayOperation := twoWayOperation.(memo := restored.value.twoWayOperation);
    }
    if d.name.Some? {
      var restored := text.restore(nextState.name, d.name.value);
      if restored.Err? {
        return Err(restored.error);
      }
      prevState := prevState.(name := restored.value.prevState);
      twoWayOperation := twoWayOperation.(name := restored.value.twoWayOperation);
    }
    return Ok(RestoreResult(prevState, Some(twoWayOperation)));
  }

  /** Under the string OT's restore law, the text part of restore agrees
      with backward application and its two-way part leads back. */
  lemma RestoreTextIsApplyBack(text: TextOps, nextState: string, downOperation: Option<TextOperation.DownOperation>)
    requires TextOperation.RestoreLaw(text)
    ensures var r := RestoreText(text, nextState, downOperation);
      (r.Ok? <==> TextOperation.ApplyBackOptional(text, nextState, downOperation).Ok?)
      && (r.Ok? ==>
            Ok(r.value.0) == TextOperation.ApplyBackOptional(text, nextState, downOperation)
            && TextOperation.ApplyOptional(text, r.value.0, MapOption(r.value.1, text.toUp)) == Ok(nextState)
            && TextOperation.ApplyBackOptional(text, nextState, MapOption(r.value.1, text.toDown)) == Ok(r.value.0))
  {
    if downOperation.Some? {
      var restored := text.restore(nextState, downOperation.value);
      assert restored.Ok? <==> text.applyBack(nextState, downOperation.value).Ok?;
    }
  }

  /** Under the restore and diff laws of the string OT and the pieces,
      restore succeeds exactly when the backward application does, reaches
      its state, and its two-way operation leads from there to the given
      state and back. */
  lemma RestoreIsApplyBack(text: TextOps, piece: PieceOps, nextState: State, downOperation: DownOperation)
    requires TextOperation.RestoreLaw(text) && Piece.RestoreLaw(piece) && Piece.DiffLaw(piece)
    ensures var r := Restored(text, piece, nextState, Some(downOperation));
      (r.Ok? <==> AppliedBack(text, piece, nextState, downOperation).Ok?)
      && (r.Ok? ==>
            r.value.prevState == AppliedBack(text, piece, nextState, downOperation).value
            && Applied(text, piece, r.value.prevState, ToUpOperation(text, piece, r.value.twoWayOperation.value)) == Ok(nextState)
            && AppliedBack(text, piece, nextState, ToDownOperation(text, piece, r.value.twoWayOperation.value)) == Ok(r.value.prevState))
  {
    Piece.RestoreLawLifts(piece);
    Piece.DiffLawLifts(piece);
    DK.RestoreIsApplyBack(nextState.pieces, downOperation.pieces, Piece.InnerRestore(piece), Piece.InnerDiff(piece),
                          Piece.InnerApplyBack(piece), piece.toUp, piece.toDown, Piece.InnerApply(piece));
    var pieces := DK.Restored(nextState.pieces, downOperation.pieces, Piece.InnerRestore(piece), Piece.InnerDiff(piece));
    if pieces.Ok? {
      DK.RestoreTwoWayLeadsBack(nextState.pieces, downOperation.pieces, Piece.InnerRestore(piece), Piece.InnerDiff(piece),
                                Piece.InnerApplyBack(piece), piece.toUp, piece.toDown, Piece.InnerApply(piece));
    }
    RestoreTextIsApplyBack(text, nextState.memo, downOperation.memo);
    RestoreTextIsApplyBack(text, nextState.name, downOperation.name);
  }

  // ---------------------------------------------------------------------
  // diff

  /** The specification of `diff`: image and flag when they differ, the
      string OT's diffs of memo and name when they differ, and the dual-key
      diff of the pieces; no field at all gives no operation. */
  function Difference(text: TextOps, piece: PieceOps, prevState: State, nextState: State): (r: Option<TwoWayOperation>)
    ensures r.Some? ==> (r.value.image.Some? <==> prevState.image != nextState.image)
                        && (r.value.isPrivate.Some? <==> prevState.isPrivate != nextState.isPrivate)
    ensures r.Some? && r.value.image.Some? ==> r.value.image.value == ReplaceOperation.TwoWayOperation(prevState.image, nextState.image)
    ensures r.Some? && r.value.isPrivate.Some? ==> r.value.isPrivate.value == ReplaceOperation.TwoWayOperation(prevState.isPrivate, nextState.isPrivate)
    ensures r.Some? && r.value.memo.Some? ==> prevState.memo != nextState.memo && r.value.memo == text.diff(prevState.memo, nextState.memo)
    ensures r.Some? && r.value.name.Some? ==> prevState.name != nextState.name && r.value.name == text.diff(prevState.name, nextState.name)
    ensures r.Some? ==> r.value.pieces == DK.Difference(prevState.pieces, nextState.pieces, Piece.InnerDiff(piece))
  {
    NormalizeTwoWay(TwoWayOperation(
      if prevState.image != nextState.image then Some(ReplaceOperation.TwoWayOperation(prevState.image, nextState.image)) else None,
      if prevState.isPrivate != nextState.isPrivate then Some(ReplaceOperation.TwoWayOperation(prevState.isPrivate, nextState.isPrivate)) else None,
      if prevState.memo != nextState.memo then text.diff(prevState.memo, nextState.memo) else None,
      if prevState.name != nextState.name then text.diff(prevState.name, nextState.name) else None,
      DK.Difference(prevState.pieces, nextState.pieces, Piece.InnerDiff(piece))))
  }

  method Diff(text: TextOps, piece: PieceOps, prevState: State, nextState: State) returns (r: Option<TwoWayOperation>)
    ensures r == Difference(text, piece, prevState, nextState)
  {
    var pieces := DK.Diff(prevState.pieces, nextState.pieces, Piece.InnerDiff(piece));
    var result := TwoWayOperation(None, None, None, None, pieces);
    if prevState.image != nextState.image {
      result := result.(image := Some(ReplaceOperation.TwoWayOperation(prevState.image, nextState.image)));
    }
    if prevState.isPrivate != nextState.isPrivate {
      result := result.(isPrivate := Some(ReplaceOperation.TwoWayOperation(prevState.isPrivate, nextState.isPrivate)));
    }
    if prevState.memo != nextState.memo {
      result := result.(memo := text.diff(prevState.memo, nextState.memo));
    }
    if prevState.name != nextState.name {
      result := result.(name := text.diff(prevState.name, nextState.name));
    }
    if IsIdTwoWay(result) {
      return None;
    }
    return Some(result);
  }

  /** The part of the diff for one text field (memo or name) leads from
      the first string to the second and back. */
  lemma TextDiffLeads(text: TextOps, prev: string, next: string)
    requires TextOperation.DiffLaw(text)
    ensures var d := if prev != next then text.diff(prev, next) else None;
      (d.None? <==> prev == next)
      && TextOperation.ApplyOptional(text, prev, MapOption(d, text.toUp)) == Ok(next)
      && TextOperation.ApplyBackOptional(text, next, MapOption(d, text.toDown)) == Ok(prev)
  {
    if prev != next {
      assert text.diff(prev, next).Some?;
    }
  }

  /** Under the diff laws, the diff is empty exactly between equal states. */
  lemma DiffIsNoneIffEqual(text: TextOps, piece: PieceOps, prevState: State, nextState: State)
    requires TextOperation.DiffLaw(text) && Piece.DiffLaw(piece)
    ensures Difference(text, piece, prevState, nextState).None? <==> prevState == nextState
  {
    Piece.DiffLawLifts(piece);
    DK.DiffIsNoneIffEqual(prevState.pieces, nextState.pieces, Piece.InnerDiff(piece), piece.toUp, piece.toDown,
                          Piece.InnerApply(piece), Piece.InnerApplyBack(piece));
    TextDiffLeads(text, prevState.memo, nextState.memo);
    TextDiffLeads(text, prevState.name, nextState.name);
  }

  /** Under the diff laws, the diff leads from the first state to the second. */
  lemma DiffLeadsForward(text: TextOps, piece: PieceOps, prevState: State, nextState: State)
    requires TextOperation.DiffLaw(text) && Piece.DiffLaw(piece)
    requires Difference(text, piece, prevState, nextState).Some?
    ensures Applied(text, piece, prevState, ToUpOperation(text, piece, Difference(text, piece, prevState, nextState).value)) == Ok(nextState)
  {
    Piece.DiffLawLifts(piece);
    DK.DiffRoundTrip(prevState.pieces, nextState.pieces, Piece.InnerDiff(piece), piece.toUp, piece.toDown,
                     Piece.InnerApply(piece), Piece.InnerApplyBack(piece));
    TextDiffLeads(text, prevState.memo, nextState.memo);
    TextDiffLeads(text, prevState.name, nextState.name);
    var up := ToUpOperation(text, piece, Difference(text, piece, prevState, nextState).value);
    assert DK.Applied(prevState.pieces, up.pieces, Piece.InnerApply(piece)) == Ok(nextState.pieces);
  }

  /** Under the diff laws, the diff leads from the second state back to the first. */
  lemma DiffLeadsBack(text: TextOps, piece: PieceOps, prevState: State, nextState: State)
    requires TextOperation.DiffLaw(text) && Piece.DiffLaw(piece)
    requires Difference(text, piece, prevState, nextState).Some?
    ensures AppliedBack(text, piece, nextState, ToDownOperation(text, piece, Difference(text, piece, prevState, nextState).value)) == Ok(prevState)
  {
    Piece.DiffLawLifts(piece);
    DK.DiffRoundTrip(prevState.pieces, nextState.pieces, Piece.InnerDiff(piece), piece.toUp, piece.toDown,
                     Piece.InnerApply(piece), Piece.InnerApplyBack(piece));
    TextDiffLeads(text, prevState.memo, nextState.memo);
    TextDiffLeads(text, prevState.name, nextState.name);
    var down := ToDownOperation(text, piece, Difference(text, piece, prevState, nextState).value);
    assert DK.AppliedBack(nextState.pieces, down.pieces, Piece.InnerApplyBack(piece)) == Ok(prevState.pieces);
  }

  /** Under the diff laws of the string OT and the pieces, the diff is
      empty exactly between equal states, and leads from the first to the
      second and back. */
  lemma DiffRoundTrip(text: TextOps, piece: PieceOps, prevState: State, nextState: State)
    requires TextOperation.DiffLaw(text) && Piece.DiffLaw(piece)
    ensures Difference(text, piece, prevState, nextState).None? <==> prevState == nextState
    ensures var d := Difference(text, piece, prevState, nextState);
      d.Some? ==>
        Applied(text, piece, prevState, ToUpOperation(text, piece, d.value)) == Ok(nextState)
        && AppliedBack(text, piece, nextState, ToDownOperation(text, piece, d.value)) == Ok(prevState)
  {
    DiffIsNoneIffEqual(text, piece, prevState, nextState);
    if Difference(text, piece, prevState, nextState).Some? {
      DiffLeadsForward(text, piece, prevState, nextState);
      DiffLeadsBack(text, piece, prevState, nextState);
    }
  }

  // ---------------------------------------------------------------------
  // serverTransform

  /** The server's own field operations, absent when the server has none. */
  function ServerPieces(serverOperation: Option<TwoWayOperation>): Option<Piece.PiecesTwoWay> {
    if serverOperation.Some? then serverOperation.value.pieces else None
  }

  function ServerMemo(serverOperation: Option<TwoWayOperation>): Option<TextOperation.TwoWayOperation> {
    if serverOperation.Some? then serverOperation.value.memo else None
  }

  function ServerName(serverOperation: Option<TwoWayOperation>): Option<TextOperation.TwoWayOperation> {
    if serverOperation.Some? then serverOperation.value.name else None
  }

  /** The specification of `serverTransform`: the pieces by the dual-key
      engine under the piece cancellation policy, image and flag by
      server-wins, memo and name by the string OT; each failure fails the
      whole, and no field at all gives no operation. */
  ghost function ServerTransformed(text: TextOps, piece: PieceOps, isAuthorized: bool, prevState: State, currentState: State,
                                   serverOperation: Option<TwoWayOperation>, clientOperation: UpOperation)
    : (r: Result<Option<TwoWayOperation>>)
    ensures r.Ok? <==> DK.ServerTransformed(prevState.pieces, currentState.pieces, ServerPieces(serverOperation), clientOperation.pieces,
                                            Piece.InnerServerTransform(piece), Piece.ToServerState(), Piece.Policy(piece, isAuthorized)).Ok?
                       && text.serverTransform(ServerMemo(serverOperation), clientOperation.memo, prevState.memo).Ok?
                       && text.serverTransform(ServerName(serverOperation), clientOperation.name, prevState.name).Ok?
    ensures r.Ok? && r.value.Some? ==> !IsIdTwoWay(r.value.value)
    ensures r.Ok? ==>
      (r.value.None? <==>
         !ReplaceOperation.Accepts(if serverOperation.Some? then serverOperation.value.image else None, clientOperation.image, prevState.image)
         && !ReplaceOperation.Accepts(if serverOperation.Some? then serverOperation.value.isPrivate else None, clientOperation.isPrivate, prevState.isPrivate)
         && text.serverTransform(ServerMemo(serverOperation), clientOperation.memo, prevState.memo).value.None?
         && text.serverTransform(ServerName(serverOperation), clientOperation.name, prevState.name).value.None?
         && DK.ServerTransformed(prevState.pieces, currentState.pieces, ServerPieces(serverOperation), clientOperation.pieces,
                                 Piece.InnerServerTransform(piece), Piece.ToServerState(), Piece.Policy(piece, isAuthorized)).value.None?)
    ensures r.Ok? && r.value.Some? ==>
      r.value.value.image == ReplaceOperation.ServerTransform(if serverOperation.Some? then serverOperation.value.image else None, clientOperation.image, prevState.image)
      && r.value.value.isPrivate == ReplaceOperation.ServerTransform(if serverOperation.Some? then serverOperation.value.isPrivate else None, clientOperation.isPrivate, prevState.isPrivate)
      && r.value.value.memo == text.serverTransform(ServerMemo(serverOperation), clientOperation.memo, prevState.memo).value
      && r.value.value.name == text.serverTransform(ServerName(serverOperation), clientOperation.name, prevState.name).value
      && r.value.value.pieces == DK.ServerTransformed(prevState.pieces, currentState.pieces, ServerPieces(serverOperation), clientOperation.pieces,
                                                      Piece.InnerServerTransform(piece), Piece.ToServerState(), Piece.Policy(piece, isAuthorized)).value
  {
    var pieces := DK.ServerTransformed(prevState.pieces, currentState.pieces, ServerPieces(serverOperation), clientOperation.pieces,
                                       Piece.InnerServerTransform(piece), Piece.ToServerState(), Piece.Policy(piece, isAuthorized));
    if pieces.Err? then Err(pieces.error)
    else
      var image := ReplaceOperation.ServerTransform(if serverOperation.Some? then serverOperation.value.image else None, clientOperation.image, prevState.image);
      var isPrivate := ReplaceOperation.ServerTransform(if serverOperation.Some? then serverOperation.value.isPrivate else None, clientOperation.isPrivate, prevState.isPrivate);
      var memo := text.serverTransform(ServerMemo(serverOperation), clientOperation.memo, prevState.memo);
      if memo.Err? then Err(memo.error)
      else
        var name := text.serverTransform(ServerName(serverOperation), clientOperation.name, prevState.name);
        if name.Err? then Err(name.error)
        else Ok(NormalizeTwoWay(TwoWayOperation(image, isPrivate, memo.value, name.value, pieces.value)))
  }

  method ServerTransform(text: TextOps, piece: PieceOps, isAuthorized: bool, prevState: State, currentState: State,
                         serverOperation: Option<TwoWayOperation>, clientOperation: UpOperation)
    returns (r: Result<Option<TwoWayOperation>>)
    ensures r.Ok? <==> ServerTransformed(text, piece, isAuthorized, prevState, currentState, serverOperation, clientOperation).Ok?
    ensures r.Ok? ==> r == ServerTransformed(text, piece, isAuthorized, prevState, currentState, serverOperation, clientOperation)
  {
    var pieces := DK.ServerTransform(prevState.pieces, currentState.pieces, ServerPieces(serverOperation), clientOperation.pieces,
                                     Piece.InnerServerTransform(piece), Piece.ToServerState(), Piece.Policy(piece, isAuthorized));
    if pieces.Err? {
      return Err(pieces.error);
    }
    var twoWayOperation := TwoWayOperation(None, None, None, None, pieces.value);
    twoWayOperation := twoWayOperation.(image := ReplaceOperation.ServerTransform(
      if serverOperation.Some? then serverOperation.value.image else None, clientOperation.image, prevState.image));
    twoWayOperation := twoWayOperation.(isPrivate := ReplaceOperation.ServerTransform(
      if serverOperation.Some? then serverOperation.value.isPrivate else None, clientOperation.isPrivate, prevState.isPrivate));
    var transformedMemo := text.serverTransform(ServerMemo(serverOperation), clientOperation.memo, prevState.memo);
    if transformedMemo.Err? {
      return Err(transformedMemo.error);
    }
    twoWayOperation := twoWayOperation.(memo := transformedMemo.value);
    var transformedName := text.serverTransform(ServerName(serverOperation), clientOperation.name, prevState.name);
    if transformedName.Err? {
      return Err(transformedName.error);
    }
    twoWayOperation := twoWayOperation.(name := transformedName.value);
    if IsIdTwoWay(twoWayOperation) {
      return Ok(None);
    }
    return Ok(Some(twoWayOperation));
  }

  /** The server's answer respects its state: an image or flag it changed
      itself is not changed by the client, and the pieces part is
      consistent with the server's current pieces. */
  lemma ServerTransformRespectsServer(text: TextOps, piece: PieceOps, isAuthorized: bool, prevState: State, currentState: State,
                                      serverOperation: Option<TwoWayOperation>, clientOperation: UpOperation)
    requires ServerTransformed(text, piece, isAuthorized, prevState, currentState, serverOperation, clientOperation).Ok?
    ensures var r := ServerTransformed(text, piece, isAuthorized, prevState, currentState, serverOperation, clientOperation).value;
      r.Some? ==>
        (serverOperation.Some? && serverOperation.value.image.Some? ==> r.value.image.None?)
        && (serverOperation.Some? && serverOperation.value.isPrivate.Some? ==> r.value.isPrivate.None?)
        && (r.value.pieces.Some? ==> DK.ConsistentWith(currentState.pieces, r.value.pieces.value))
  {
    DK.ServerTransformConsistent(prevState.pieces, currentState.pieces, ServerPieces(serverOperation), clientOperation.pieces,
                                 Piece.InnerServerTransform(piece), Piece.ToServerState(), Piece.Policy(piece, isAuthorized));
  }

  /** What an unauthorised requester may do to the pieces at key `k`:
      nothing to a piece that is private on the server now, and never
      create one; only removals and updates of public pieces pass. */
  ghost predicate PermittedForUnauthorized(piece: PieceOps, currentPieces: Piece.Pieces, k: Piece.DualKey,
                                           e: DK.TwoWayElement<Piece.State, Piece.TwoWayOperation>)
  {
    k in currentPieces && !piece.isPrivate(currentPieces[k]) && (e.Replace? ==> e.replace.newValue.None?)
  }

  /** The cancellation policy confines an unauthorised requester: every
      pieces entry of the server's answer is permitted to them. */
  lemma UnauthorizedRequesterIsConfined(text: TextOps, piece: PieceOps, prevState: State, currentState: State,
                                        serverOperation: Option<TwoWayOperation>, clientOperation: UpOperation)
    requires ServerTransformed(text, piece, false, prevState, currentState, serverOperation, clientOperation).Ok?
    ensures var r := ServerTransformed(text, piece, false, prevState, currentState, serverOperation, clientOperation).value;
      r.Some? && r.value.pieces.Some? ==>
        forall k :: k in r.value.pieces.value ==> PermittedForUnauthorized(piece, currentState.pieces, k, r.value.pieces.value[k])
  {
    var policy := Piece.Policy(piece, false);
    var pieces := DK.ServerTransformed(prevState.pieces, currentState.pieces, ServerPieces(serverOperation), clientOperation.pieces,
                                       Piece.InnerServerTransform(piece), Piece.ToServerState(), policy).value;
    DK.ServerTransformAccepted(prevState.pieces, currentState.pieces, ServerPieces(serverOperation), clientOperation.pieces,
                               Piece.InnerServerTransform(piece), Piece.ToServerState(), policy);
    if pieces.Some? {
      forall k | k in pieces.value
        ensures PermittedForUnauthorized(piece, currentState.pieces, k, pieces.value[k])
      {
        assert DK.AcceptedEntry(prevState.pieces, currentState.pieces, ServerPieces(serverOperation), k, clientOperation.pieces.value[k], pieces.value[k],
                                Piece.InnerServerTransform(piece), Piece.ToServerState(), policy);
      }
    }
  }

  // ---------------------------------------------------------------------
  // clientTransform

  /** The specification of `clientTransform`: image and flag by
      first-wins, memo and name by the string OT, then the pieces by the
      dual-key engine; each failure fails the whole, and each prime is no
      operation when it has no field. */
  ghost function ClientTransformed(text: TextOps, piece: PieceOps, first: UpOperation, second: UpOperation)
    : (r: Result<Primes<UpOperation, UpOperation>>)
    ensures r.Ok? <==> text.clientTransform(first.memo, second.memo).Ok? && text.clientTransform(first.name, second.name).Ok?
                       && DK.ClientTransformed(first.pieces, second.pieces, piece.clientTransform, Piece.ClientDiff(piece)).Ok?
    ensures r.Ok? ==>
      var image := ReplaceOperation.ClientTransform(first.image, second.image);
      var isPrivate := ReplaceOperation.ClientTransform(first.isPrivate, second.isPrivate);
      var memo := text.clientTransform(first.memo, second.memo).value;
      var name := text.clientTransform(first.name, second.name).value;
      var pieces := DK.ClientTransformed(first.pieces, second.pieces, piece.clientTransform, Piece.ClientDiff(piece)).value;
      r.value.firstPrime == NormalizeUp(UpOperation(image.firstPrime, isPrivate.firstPrime, memo.firstPrime, name.firstPrime, pieces.firstPrime))
      && r.value.secondPrime == NormalizeUp(UpOperation(image.secondPrime, isPrivate.secondPrime, memo.secondPrime, name.secondPrime, pieces.secondPrime))
  {
    var image := ReplaceOperation.ClientTransform(first.image, second.image);
    var isPrivate := ReplaceOperation.ClientTransform(first.isPrivate, second.isPrivate);
    var memo := text.clientTransform(first.memo, second.memo);
    if memo.Err? then Err(memo.error)
    else
      var name := text.clientTransform(first.name, second.name);
      if name.Err? then Err(name.error)
      else
        var pieces := DK.ClientTransformed(first.pieces, second.pieces, piece.clientTransform, Piece.ClientDiff(piece));
        if pieces.Err? then Err(pieces.error)
        else
          Ok(Primes(NormalizeUp(UpOperation(image.firstPrime, isPrivate.firstPrime, memo.value.firstPrime, name.value.firstPrime, pieces.value.firstPrime)),
                    NormalizeUp(UpOperation(image.secondPrime, isPrivate.secondPrime, memo.value.secondPrime, name.value.secondPrime, pieces.value.secondPrime))))
  }

  method ClientTransform(text: TextOps, piece: PieceOps, first: UpOperation, second: UpOperation)
    returns (r: Result<Primes<UpOperation, UpOperation>>)
    ensures r.Ok? <==> ClientTransformed(text, piece, first, second).Ok?
    ensures r.Ok? ==> r == ClientTransformed(text, piece, first, second)
  {
    var image := ReplaceOperation.ClientTransform(first.image, second.image);
    var isPrivate := ReplaceOperation.ClientTransform(first.isPrivate, second.isPrivate);
    var memo := text.clientTransform(first.memo, second.memo);
    if memo.Err? {
      return Err(memo.error);
    }
    var name := text.clientTransform(first.name, second.name);
    if name.Err? {
      return Err(name.error);
    }
    var pieces := DK.ClientTransform(first.pieces, second.pieces, piece.clientTransform, Piece.ClientDiff(piece));
    if pieces.Err? {
      return Err(pieces.error);
    }
    var firstPrime := UpOperation(image.firstPrime, isPrivate.firstPrime, memo.value.firstPrime, name.value.firstPrime, pieces.value.firstPrime);
    var secondPrime := UpOperation(image.secondPrime, isPrivate.secondPrime, memo.value.secondPrime, name.value.secondPrime, pieces.value.secondPrime);
    return Ok(Primes(if IsIdUp(firstPrime) then None else Some(firstPrime),
                     if IsIdUp(secondPrime) then None else Some(secondPrime)));
  }

  /** A prime that is no operation changes nothing, like its fields. */
  lemma ApplyNormalized(text: TextOps, piece: PieceOps, state: State, operation: UpOperation)
    ensures ApplyOptional(text, piece, state, NormalizeUp(operation)) == Applied(text, piece, state, operation)
  {
  }

  /** Under the convergence laws of the string OT and the pieces, the peer
      transform of two operations that make sense on the state converges
      (TP1): both orders of application reach the same state. */
  lemma ClientTransformConverges(text: TextOps, piece: PieceOps, state: State, first: UpOperation, second: UpOperation)
    requires TextOperation.ClientTransformLaw(text) && Piece.ClientTransformLaw(piece) && Piece.DiffLaw(piece)
    requires DK.WellFormedOn(state.pieces, first.pieces) && DK.WellFormedOn(state.pieces, second.pieces)
    requires Applied(text, piece, state, first).Ok? && Applied(text, piece, state, second).Ok?
    requires ClientTransformed(text, piece, first, second).Ok?
    ensures var p := ClientTransformed(text, piece, first, second).value;
      ApplyOptional(text, piece, Applied(text, piece, state, first).value, p.secondPrime).Ok?
      && ApplyOptional(text, piece, Applied(text, piece, state, first).value, p.secondPrime)
         == ApplyOptional(text, piece, Applied(text, piece, state, second).value, p.firstPrime)
  {
    Piece.ClientLawsLift(piece);
    DK.ClientTransformConverges(state.pieces, first.pieces, second.pieces, piece.clientTransform, Piece.ClientDiff(piece), Piece.InnerApply(piece));
    assert TextOperation.ApplyOptional(text, state.memo, first.memo).Ok?;
    assert TextOperation.ApplyOptional(text, state.memo, second.memo).Ok?;
    assert TextOperation.ApplyOptional(text, state.name, first.name).Ok?;
    assert TextOperation.ApplyOptional(text, state.name, second.name).Ok?;
    var image := ReplaceOperation.ClientTransform(first.image, second.image);
    var isPrivate := ReplaceOperation.ClientTransform(first.isPrivate, second.isPrivate);
    var memo := text.clientTransform(first.memo, second.memo).value;
    var name := text.clientTransform(first.name, second.name).value;
    var pieces := DK.ClientTransformed(first.pieces, second.pieces, piece.clientTransform, Piece.ClientDiff(piece)).value;
    ApplyNormalized(text, piece, Applied(text, piece, state, first).value,
                    UpOperation(image.secondPrime, isPrivate.secondPrime, memo.secondPrime, name.secondPrime, pieces.secondPrime));
    ApplyNormalized(text, piece, Applied(text, piece, state, second).value,
                    UpOperation(image.firstPrime, isPrivate.firstPrime, memo.firstPrime, name.firstPrime, pieces.firstPrime));
  }
}
