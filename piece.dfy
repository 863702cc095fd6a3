/** The element type of the `pieces` collections: a piece placed on a
    board. Its implementation (`piece/functions`) is not part of this model:
    the types are opaque, the operations a bundle of functions, and what the
    entities rely on is stated as laws. This module also adapts the piece
    operations to the keyed callbacks of the dual-key engine and carries the
    piece laws over to the engine's laws. */
module Piece {
  import opened Wrappers
  import DualKeyRecordOperation

  type State(!new)
  type UpOperation(!new)
  type DownOperation(!new)
  type TwoWayOperation(!new)

  type DualKey = DualKeyRecordOperation.DualKey

  /** A collection of pieces keyed by board, and its operations. */
  type Pieces = map<DualKey, State>
  type PiecesUp = map<DualKey, DualKeyRecordOperation.UpElement<State, UpOperation>>
  type PiecesDown = map<DualKey, DualKeyRecordOperation.DownElement<State, DownOperation>>
  type PiecesTwoWay = map<DualKey, DualKeyRecordOperation.TwoWayElement<State, TwoWayOperation>>

  /** The operations of a piece, as the entities call them. */
  datatype PieceOps = PieceOps(
    isPrivate: State -> bool,
    apply: (State, UpOperation) -> Result<State>,
    applyBack: (State, DownOperation) -> Result<State>,
    /** composition of two down-operations, `first` earlier */
    composeDown: (DownOperation, DownOperation) -> Result<Option<DownOperation>>,
    restore: (State, DownOperation) -> Result<RestoreResult<State, TwoWayOperation>>,
    diff: (State, State) -> Option<TwoWayOperation>,
    /** the client's revision, the server's current state, the server's own
        operation and the client's operation */
    serverTransform: (State, State, Option<TwoWayOperation>, UpOperation) -> Result<Option<TwoWayOperation>>,
    clientTransform: (UpOperation, UpOperation) -> Result<Primes<UpOperation, UpOperation>>,
    toUp: TwoWayOperation -> UpOperation,
    toDown: TwoWayOperation -> DownOperation)

  // The keyed callbacks handed to the dual-key engine; the key is ignored.

  function InnerApply(piece: PieceOps): (DualKey, UpOperation, State) -> Result<State> {
    (k: DualKey, u: UpOperation, s: State) => piece.apply(s, u)
  }

  function InnerApplyBack(piece: PieceOps): (DualKey, DownOperation, State) -> Result<State> {
    (k: DualKey, d: DownOperation, s: State) => piece.applyBack(s, d)
  }

  function InnerCompose(piece: PieceOps): (DualKey, DownOperation, DownOperation) -> Result<Option<DownOperation>> {
    (k: DualKey, d1: DownOperation, d2: DownOperation) => piece.composeDown(d1, d2)
  }

  function InnerRestore(piece: PieceOps): (DualKey, DownOperation, State) -> Result<RestoreResult<State, TwoWayOperation>> {
    (k: DualKey, d: DownOperation, s: State) => piece.restore(s, d)
  }

  function InnerDiff(piece: PieceOps): (DualKey, State, State) -> Option<TwoWayOperation> {
    (k: DualKey, a: State, b: State) => piece.diff(a, b)
  }

  /** The peer transform's diff: the two-way diff read as an up-operation
      (the source passes the two-way result where an up-operation is
      expected, relying on structural typing). */
  function ClientDiff(piece: PieceOps): (State, State) -> Option<UpOperation> {
    (a: State, b: State) => MapOption(piece.diff(a, b), piece.toUp)
  }

  function InnerServerTransform(piece: PieceOps): (DualKey, Option<TwoWayOperation>, UpOperation, State, State) -> Result<Option<TwoWayOperation>> {
    (k: DualKey, first: Option<TwoWayOperation>, second: UpOperation, prevState: State, nextState: State) =>
      piece.serverTransform(prevState, nextState, first, second)
  }

  /** The cancellation policy both piece-holding entities install: an
      unauthorised requester may not create pieces, remove a private piece
      or update a piece that is private now. */
  function Policy(piece: PieceOps, isAuthorized: bool): DualKeyRecordOperation.CancellationPolicy<State> {
    DualKeyRecordOperation.CancellationPolicy(
      Some((k: DualKey, s: State) => !isAuthorized && piece.isPrivate(s)),
      Some((k: DualKey, prevState: State, nextState: State) => !isAuthorized && piece.isPrivate(nextState)),
      Some((k: DualKey, s: State) => !isAuthorized))
  }

  /** Pieces are stored by value; the server keeps the client's piece as is. */
  function ToServerState(): (State, DualKey) -> State {
    (s: State, k: DualKey) => s
  }

  // ---------------------------------------------------------------------
  // laws assumed of the piece operations

  /** The diff is empty exactly between equal pieces, and a non-empty diff
      leads from one to the other in both directions. */
  ghost predicate DiffLaw(piece: PieceOps) {
    forall a, b :: (piece.diff(a, b).None? <==> a == b)
      && (piece.diff(a, b).Some? ==>
            piece.apply(a, piece.toUp(piece.diff(a, b).value)) == Ok(b)
            && piece.applyBack(b, piece.toDown(piece.diff(a, b).value)) == Ok(a))
  }

  /** Restore agrees with backward application, and its two-way operation
      leads back to the given piece. */
  ghost predicate RestoreLaw(piece: PieceOps) {
    forall s, d :: (piece.restore(s, d).Ok? <==> piece.applyBack(s, d).Ok?)
      && (piece.restore(s, d).Ok? ==>
            piece.restore(s, d).value.prevState == piece.applyBack(s, d).value
            && (piece.restore(s, d).value.twoWayOperation.None? ==> piece.restore(s, d).value.prevState == s)
            && (piece.restore(s, d).value.twoWayOperation.Some? ==>
                  piece.apply(piece.restore(s, d).value.prevState, piece.toUp(piece.restore(s, d).value.twoWayOperation.value)) == Ok(s)
                  && piece.applyBack(s, piece.toDown(piece.restore(s, d).value.twoWayOperation.value)) == Ok(piece.restore(s, d).value.prevState)))
  }

  /** Down-composition of two applicable operations succeeds and is
      sequential backward application; an empty composition means the two
      cancel out. */
  ghost predicate ComposeLaw(piece: PieceOps) {
    forall d1, d2, x :: piece.applyBack(x, d2).Ok? && piece.applyBack(piece.applyBack(x, d2).value, d1).Ok? ==>
      piece.composeDown(d1, d2).Ok?
      && (piece.composeDown(d1, d2).value.None? ==> piece.applyBack(piece.applyBack(x, d2).value, d1).value == x)
      && (piece.composeDown(d1, d2).value.Some? ==> piece.applyBack(x, piece.composeDown(d1, d2).value.value) == piece.applyBack(piece.applyBack(x, d2).value, d1))
  }

  /** The peer transform converges (TP1). */
  ghost predicate ClientTransformLaw(piece: PieceOps) {
    forall x, u1, u2 :: piece.apply(x, u1).Ok? && piece.apply(x, u2).Ok? && piece.clientTransform(u1, u2).Ok? ==>
      ApplyOptional(piece, piece.apply(x, u1).value, piece.clientTransform(u1, u2).value.secondPrime).Ok?
      && ApplyOptional(piece, piece.apply(x, u1).value, piece.clientTransform(u1, u2).value.secondPrime)
         == ApplyOptional(piece, piece.apply(x, u2).value, piece.clientTransform(u1, u2).value.firstPrime)
  }

  function ApplyOptional(piece: PieceOps, state: State, u: Option<UpOperation>): Result<State> {
    if u.None? then Ok(state) else piece.apply(state, u.value)
  }

  // ---------------------------------------------------------------------
  // the piece laws give the engine's laws

  lemma DiffLawLifts(piece: PieceOps)
    requires DiffLaw(piece)
    ensures DualKeyRecordOperation.DiffLaw(InnerDiff(piece), piece.toUp, piece.toDown, InnerApply(piece), InnerApplyBack(piece))
  {
    forall k: DualKey, a: State, b: State
      ensures (InnerDiff(piece)(k, a, b).None? <==> a == b)
              && (InnerDiff(piece)(k, a, b).Some? ==>
                    (InnerApply(piece)(k, piece.toUp(InnerDiff(piece)(k, a, b).value), a) == Ok(b)
                     && InnerApplyBack(piece)(k, piece.toDown(InnerDiff(piece)(k, a, b).value), b) == Ok(a)))
    {
      assert InnerDiff(piece)(k, a, b) == piece.diff(a, b);
    }
  }

  lemma RestoreLawLifts(piece: PieceOps)
    requires RestoreLaw(piece)
    ensures DualKeyRecordOperation.RestoreLaw(InnerRestore(piece), InnerApplyBack(piece), piece.toUp, piece.toDown, InnerApply(piece))
  {
    forall k: DualKey, d: DownOperation, s: State
      ensures InnerRestore(piece)(k, d, s) == piece.restore(s, d) && InnerApplyBack(piece)(k, d, s) == piece.applyBack(s, d)
    {
    }
  }

  lemma ComposeLawLifts(piece: PieceOps)
    requires ComposeLaw(piece)
    ensures DualKeyRecordOperation.ComposeLaw(InnerCompose(piece), InnerApplyBack(piece))
  {
    forall k: DualKey, d1: DownOperation, d2: DownOperation, x: State
      ensures InnerCompose(piece)(k, d1, d2) == piece.composeDown(d1, d2)
              && InnerApplyBack(piece)(k, d2, x) == piece.applyBack(x, d2)
    {
    }
  }

  lemma ClientLawsLift(piece: PieceOps)
    requires ClientTransformLaw(piece) && DiffLaw(piece)
    ensures DualKeyRecordOperation.ClientTransformLaw(piece.clientTransform, InnerApply(piece))
    ensures DualKeyRecordOperation.ClientDiffLaw(ClientDiff(piece), InnerApply(piece))
  {
    forall k: DualKey, x: State, u: Option<UpOperation>
      ensures DualKeyRecordOperation.ApplyOptional(k, x, u, InnerApply(piece)) == ApplyOptional(piece, x, u)
    {
    }
    forall a: State, b: State ensures ClientDiff(piece)(a, b) == MapOption(piece.diff(a, b), piece.toUp) {
    }
  }
}
