/** The log record kept for a change of a number piece value: which of its
    scalar fields the change really altered, and the piece operations as
    they were. */
module NumberPieceValueLog {
  import opened Wrappers
  import ReplaceOperation
  import Piece

  /** The number value's two-way operation: a privacy flag and a number
      replaced as a whole, and its pieces. The number is a `real` (the
      source's `number`, only compared here). */
  datatype TwoWayOperation = TwoWayOperation(
    isValuePrivate: Option<ReplaceOperation.TwoWayOperation<bool>>,
    value: Option<ReplaceOperation.TwoWayOperation<real>>,
    pieces: Option<Piece.PiecesTwoWay>)

  /** A log record: a creation, a deletion, or an update saying whether the
      number and the flag changed, with the piece operations. */
  datatype Log =
    | Create
    | Delete
    | Update(value: bool, isValuePrivate: bool, pieces: Option<Piece.PiecesTwoWay>)

  /** A scalar part of an operation really changes its field. */
  predicate Changes<T(==)>(op: Option<ReplaceOperation.TwoWayOperation<T>>) {
    op.Some? && op.value.oldValue != op.value.newValue
  }

  /** `ofOperation`: the update record of a two-way operation. */
  function OfOperation(source: TwoWayOperation): (r: Log)
    ensures r.Update?
    ensures r.value <==> source.value.Some? && source.value.value.oldValue != source.value.value.newValue
    ensures r.isValuePrivate <==> source.isValuePrivate.Some? && source.isValuePrivate.value.oldValue != source.isValuePrivate.value.newValue
    ensures r.pieces == source.pieces
  {
    Update(Changes(source.value), Changes(source.isValuePrivate), source.pieces)
  }

  /** A flag of the record is raised exactly when undoing the operation's
      part from the field's new value gives a different value, so the
      record tells whether the step is visible in the history. */
  lemma FlagsMeanVisibleChange(source: TwoWayOperation)
    ensures OfOperation(source).value <==>
      source.value.Some?
      && ReplaceOperation.ApplyBack(source.value.value.newValue, MapOption(source.value, ReplaceOperation.ToDownOperation)) != source.value.value.newValue
    ensures OfOperation(source).isValuePrivate <==>
      source.isValuePrivate.Some?
      && ReplaceOperation.ApplyBack(source.isValuePrivate.value.newValue, MapOption(source.isValuePrivate, ReplaceOperation.ToDownOperation)) != source.isValuePrivate.value.newValue
  {
  }

  /** A number change the server accepted is always logged as a change:
      the server transform never produces a replace to the same value. */
  lemma AcceptedChangeIsLogged(first: Option<ReplaceOperation.TwoWayOperation<real>>, second: Option<ReplaceOperation.UpOperation<real>>,
                               prevState: real, isValuePrivate: Option<ReplaceOperation.TwoWayOperation<bool>>, pieces: Option<Piece.PiecesTwoWay>)
    ensures var transformed := ReplaceOperation.ServerTransform(first, second, prevState);
      OfOperation(TwoWayOperation(isValuePrivate, transformed, pieces)).value <==> transformed.Some?
  {
  }
}
