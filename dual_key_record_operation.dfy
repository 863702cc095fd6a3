/** The OT engine for a collection keyed by a pair of strings (for example
    the pieces of a character, keyed by board and by piece id). Each entry of
    an operation either replaces the whole element (creation or deletion) or
    updates it in place through the element's own operations, which are
    passed in as functions.

    Every imperative entry point of the source (a loop that fills a map) is a
    method here, proved equal to a specification function that says, key by
    key, what the result holds. When several keys fail, the source returns
    the error of the first failing key in its iteration order; the model
    only promises the error of some failing key. */
module DualKeyRecordOperation {
  import opened Wrappers
  import KeyValidation

  /** The ordered pair (first key, second key). */
  type DualKey = (string, string)

  /** An entry of an operation: a whole-element replacement or an in-place update. */
  datatype RecordElement<R, U> = Replace(replace: R) | Update(update: U)

  /** Payload of a replacement in an up-operation: absent means deletion. */
  datatype NewValue<S> = NewValue(newValue: Option<S>)
  /** Payload of a replacement in a down-operation: absent means the element did not exist. */
  datatype OldValue<S> = OldValue(oldValue: Option<S>)
  /** Payload of a replacement in a two-way operation. */
  datatype OldNewValue<S> = OldNewValue(oldValue: Option<S>, newValue: Option<S>)

  type UpElement<S, U> = RecordElement<NewValue<S>, U>
  type DownElement<S, D> = RecordElement<OldValue<S>, D>
  type TwoWayElement<S, T> = RecordElement<OldNewValue<S>, T>

  /** Authorisation hooks of the server transform; an absent hook never cancels. */
  datatype CancellationPolicy<!S> = CancellationPolicy(
    cancelRemove: Option<(DualKey, S) -> bool>,
    cancelUpdate: Option<(DualKey, S, S) -> bool>,
    cancelCreate: Option<(DualKey, S) -> bool>)

  /** An operation whose map is empty is normalised to "no operation". */
  function AsOperation<X>(m: map<DualKey, X>): (r: Option<map<DualKey, X>>)
    ensures r.None? <==> m == map[]
    ensures r.Some? ==> r.value == m
  {
    if m == map[] then None else Some(m)
  }

  // ---------------------------------------------------------------------
  // toClientState

  /** Projects the server's collection for a client: private entries are
      left out, the others are converted one by one. */
  method ToClientState<S, C>(serverState: map<DualKey, S>, isPrivate: (S, DualKey) -> bool, toClientState: (S, DualKey) -> C)
    returns (r: map<DualKey, C>)
    ensures forall k :: k in r <==> k in serverState && !isPrivate(serverState[k], k)
    ensures forall k :: k in r ==> r[k] == toClientState(serverState[k], k)
  {
    r := map[];
    var todo := serverState.Keys;
    while todo != {}
      invariant todo <= serverState.Keys
      invariant forall k :: k in r <==> k in serverState && k !in todo && !isPrivate(serverState[k], k)
      invariant forall k :: k in r ==> r[k] == toClientState(serverState[k], k)
      decreases todo
    {
      var k :| k in todo;
      if !isPrivate(serverState[k], k) {
        r := r[k := toClientState(serverState[k], k)];
      }
      todo := todo - {k};
    }
  }

  // ---------------------------------------------------------------------
  // apply

  /** What one entry of an up-operation leaves at its key: a replacement
      leaves its new value, an update the inner result, and an update of a
      missing key fails. */
  function ApplyAt<S, U>(prevState: map<DualKey, S>, k: DualKey, e: UpElement<S, U>, innerApply: (DualKey, U, S) -> Result<S>)
    : Result<Option<S>>
  {
    match e
    case Replace(r) => Ok(r.newValue)
    case Update(u) =>
      if k !in prevState then Err(MissingKey)
      else
        match innerApply(k, u, prevState[k])
        case Ok(v) => Ok(Some(v))
        case Err(e) => Err(e)
  }

  /** The slot of key `k` after applying `op`. */
  function ApplySlot<S, U>(prevState: map<DualKey, S>, op: map<DualKey, UpElement<S, U>>, innerApply: (DualKey, U, S) -> Result<S>, k: DualKey)
    : Option<S>
  {
    if k in op && ApplyAt(prevState, k, op[k], innerApply).Ok? then ApplyAt(prevState, k, op[k], innerApply).value
    else Get(prevState, k)
  }

  function AppliedMap<S, U>(prevState: map<DualKey, S>, op: map<DualKey, UpElement<S, U>>, innerApply: (DualKey, U, S) -> Result<S>)
    : (r: map<DualKey, S>)
    ensures forall k :: Get(r, k) == ApplySlot(prevState, op, innerApply, k)
  {
    map k | k in prevState.Keys + op.Keys && ApplySlot(prevState, op, innerApply, k).Some? :: ApplySlot(prevState, op, innerApply, k).value
  }

  /** The specification of `apply`. An absent operation leaves the
      collection alone; otherwise the result fails exactly when some entry
      fails, and then with the error of a failing entry; on success every
      mentioned key holds what its entry leaves and every other key is
      unchanged. */
  ghost function Applied<S, U>(prevState: map<DualKey, S>, operation: Option<map<DualKey, UpElement<S, U>>>, innerApply: (DualKey, U, S) -> Result<S>)
    : (r: Result<map<DualKey, S>>)
    ensures operation.None? ==> r == Ok(prevState)
    ensures operation.Some? ==> (r.Err? <==> exists k :: k in operation.value && ApplyAt(prevState, k, operation.value[k], innerApply).Err?)
    ensures r.Err? ==> operation.Some? && exists k :: k in operation.value && ApplyAt(prevState, k, operation.value[k], innerApply) == Err(r.error)
    ensures operation.Some? && r.Ok? ==> forall k :: Get(r.value, k) == ApplySlot(prevState, operation.value, innerApply, k)
    ensures operation.Some? && r.Ok? ==> forall k :: k in operation.value && operation.value[k].Replace? ==> Get(r.value, k) == operation.value[k].replace.newValue
    ensures operation.Some? && r.Ok? ==> forall k :: k in operation.value && operation.value[k].Update? ==> k in prevState && k in r.value && innerApply(k, operation.value[k].update, prevState[k]) == Ok(r.value[k])
    ensures operation.Some? && r.Ok? ==> forall k :: k !in operation.value ==> Get(r.value, k) == Get(prevState, k)
  {
    if operation.None? then Ok(prevState)
    else if exists k :: k in operation.value && ApplyAt(prevState, k, operation.value[k], innerApply).Err? then
      var k :| k in operation.value && ApplyAt(prevState, k, operation.value[k], innerApply).Err?;
      Err(ApplyAt(prevState, k, operation.value[k], innerApply).error)
    else
      Ok(AppliedMap(prevState, operation.value, innerApply))
  }

  /** Applies an up-operation entry by entry to a copy of the collection. */
  method Apply<S, U>(prevState: map<DualKey, S>, operation: Option<map<DualKey, UpElement<S, U>>>, innerApply: (DualKey, U, S) -> Result<S>)
    returns (r: Result<map<DualKey, S>>)
    ensures r.Ok? <==> Applied(prevState, operation, innerApply).Ok?
    ensures r.Ok? ==> r == Applied(prevState, operation, innerApply)
    ensures r.Err? ==> operation.Some? && exists k :: k in operation.value && ApplyAt(prevState, k, operation.value[k], innerApply) == Err(r.error)
  {
    if operation.None? {
      return Ok(prevState);
    }
    var op := operation.value;
    var nextState := prevState;
    var todo := op.Keys;
    while todo != {}
      invariant todo <= op.Keys
      invariant forall k :: k in op && k !in todo ==> ApplyAt(prevState, k, op[k], innerApply).Ok?
      invariant forall k :: Get(nextState, k) ==
                            (if k in op && k !in todo then ApplyAt(prevState, k, op[k], innerApply).value else Get(prevState, k))
      decreases todo
    {
      var k :| k in todo;
      match op[k] {
        case Replace(replace) =>
          if replace.newValue.None? {
            nextState := nextState - {k};
          } else {
            nextState := nextState[k := replace.newValue.value];
          }
        case Update(update) =>
          if k !in prevState {
            return Err(MissingKey);
          }
          var newValue := innerApply(k, update, prevState[k]);
          if newValue.Err? {
            return Err(newValue.error);
          }
          nextState := nextState[k := newValue.value];
      }
      todo := todo - {k};
    }
    GetExtensional(nextState, AppliedMap(prevState, op, innerApply));
    return Ok(nextState);
  }

  // ---------------------------------------------------------------------
  // applyBack

  /** What one entry of a down-operation leaves at its key: a replacement
      leaves its old value, an update the inner backward result, and an
      update of a key missing from the later state fails. */
  function ApplyBackAt<S, D>(nextState: map<DualKey, S>, k: DualKey, e: DownElement<S, D>, innerApplyBack: (DualKey, D, S) -> Result<S>)
    : Result<Option<S>>
  {
    match e
    case Replace(r) => Ok(r.oldValue)
    case Update(d) =>
      if k !in nextState then Err(MissingKey)
      else
        match innerApplyBack(k, d, nextState[k])
        case Ok(v) => Ok(Some(v))
        case Err(e) => Err(e)
  }

  /** The slot of key `k` after applying `op` backwards. */
  function ApplyBackSlot<S, D>(nextState: map<DualKey, S>, op: map<DualKey, DownElement<S, D>>, innerApplyBack: (DualKey, D, S) -> Result<S>, k: DualKey)
    : Option<S>
  {
    if k in op && ApplyBackAt(nextState, k, op[k], innerApplyBack).Ok? then ApplyBackAt(nextState, k, op[k], innerApplyBack).value
    else Get(nextState, k)
  }

  function AppliedBackMap<S, D>(nextState: map<DualKey, S>, op: map<DualKey, DownElement<S, D>>, innerApplyBack: (DualKey, D, S) -> Result<S>)
    : (r: map<DualKey, S>)
    ensures forall k :: Get(r, k) == ApplyBackSlot(nextState, op, innerApplyBack, k)
  {
    map k | k in nextState.Keys + op.Keys && ApplyBackSlot(nextState, op, innerApplyBack, k).Some? :: ApplyBackSlot(nextState, op, innerApplyBack, k).value
  }

  /** The specification of `applyBack`, the mirror of `Applied`. */
  ghost function AppliedBack<S, D>(nextState: map<DualKey, S>, operation: Option<map<DualKey, DownElement<S, D>>>, innerApplyBack: (DualKey, D, S) -> Result<S>)
    : (r: Result<map<DualKey, S>>)
    ensures operation.None? ==> r == Ok(nextState)
    ensures operation.Some? ==> (r.Err? <==> exists k :: k in operation.value && ApplyBackAt(nextState, k, operation.value[k], innerApplyBack).Err?)
    ensures r.Err? ==> operation.Some? && exists k :: k in operation.value && ApplyBackAt(nextState, k, operation.value[k], innerApplyBack) == Err(r.error)
    ensures operation.Some? && r.Ok? ==> forall k :: Get(r.value, k) == ApplyBackSlot(nextState, operation.value, innerApplyBack, k)
    ensures operation.Some? && r.Ok? ==> forall k :: k in operation.value && operation.value[k].Replace? ==> Get(r.value, k) == operation.value[k].replace.oldValue
    ensures operation.Some? && r.Ok? ==> forall k :: k in operation.value && operation.value[k].Update? ==> k in nextState && k in r.value && innerApplyBack(k, operation.value[k].update, nextState[k]) == Ok(r.value[k])
    ensures operation.Some? && r.Ok? ==> forall k :: k !in operation.value ==> Get(r.value, k) == Get(nextState, k)
  {
    if operation.None? then Ok(nextState)
    else if exists k :: k in operation.value && ApplyBackAt(nextState, k, operation.value[k], innerApplyBack).Err? then
      var k :| k in operation.value && ApplyBackAt(nextState, k, operation.value[k], innerApplyBack).Err?;
      Err(ApplyBackAt(nextState, k, operation.value[k], innerApplyBack).error)
    else
      Ok(AppliedBackMap(nextState, operation.value, innerApplyBack))
  }

  /** Applies a down-operation entry by entry to a copy of the collection. */
  method ApplyBack<S, D>(nextState: map<DualKey, S>, operation: Option<map<DualKey, DownElement<S, D>>>, innerApplyBack: (DualKey, D, S) -> Result<S>)
    returns (r: Result<map<DualKey, S>>)
    ensures r.Ok? <==> AppliedBack(nextState, operation, innerApplyBack).Ok?
    ensures r.Ok? ==> r == AppliedBack(nextState, operation, innerApplyBack)
    ensures r.Err? ==> operation.Some? && exists k :: k in operation.value && ApplyBackAt(nextState, k, operation.value[k], innerApplyBack) == Err(r.error)
  {
    if operation.None? {
      return Ok(nextState);
    }
    var op := operation.value;
    var prevState := nextState;
    var todo := op.Keys;
    while todo != {}
      invariant todo <= op.Keys
      invariant forall k :: k in op && k !in todo ==> ApplyBackAt(nextState, k, op[k], innerApplyBack).Ok?
      invariant forall k :: Get(prevState, k) ==
                            (if k in op && k !in todo then ApplyBackAt(nextState, k, op[k], innerApplyBack).value else Get(nextState, k))
      decreases todo
    {
      var k :| k in todo;
      match op[k] {
        case Replace(replace) =>
          if replace.oldValue.None? {
            prevState := prevState - {k};
          } else {
            prevState := prevState[k := replace.oldValue.value];
          }
        case Update(update) =>
          if k !in nextState {
            return Err(MissingKey);
          }
          var oldValue := innerApplyBack(k, update, nextState[k]);
          if oldValue.Err? {
            return Err(oldValue.error);
          }
          prevState := prevState[k := oldValue.value];
      }
      todo := todo - {k};
    }
    GetExtensional(prevState, AppliedBackMap(nextState, op, innerApplyBack));
    return Ok(prevState);
  }

  // ---------------------------------------------------------------------
  // diff, and the two-way entry between two slots

  /** The two-way entry leading from slot `oldValue` to slot `newValue`:
      nothing when both are empty, a replacement when exactly one is, and
      otherwise the inner diff as an update, or nothing when that is empty.
      `diff` builds its entries this way, and so does `restore` for a
      replacement. */
  function SlotDiff<S, T>(k: DualKey, oldValue: Option<S>, newValue: Option<S>, innerDiff: (DualKey, S, S) -> Option<T>)
    : Option<TwoWayElement<S, T>>
  {
    if oldValue.None? && newValue.None? then None
    else if oldValue.None? || newValue.None? then Some(Replace(OldNewValue(oldValue, newValue)))
    else
      match innerDiff(k, oldValue.value, newValue.value)
      case None => None
      case Some(t) => Some(Update(t))
  }

  function DiffMap<S, T>(prevState: map<DualKey, S>, nextState: map<DualKey, S>, innerDiff: (DualKey, S, S) -> Option<T>)
    : (r: map<DualKey, TwoWayElement<S, T>>)
    ensures forall k :: Get(r, k) == SlotDiff(k, Get(prevState, k), Get(nextState, k), innerDiff)
  {
    map k | k in prevState.Keys + nextState.Keys && SlotDiff(k, Get(prevState, k), Get(nextState, k), innerDiff).Some?
      :: SlotDiff(k, Get(prevState, k), Get(nextState, k), innerDiff).value
  }

  /** The specification of `diff`: the entries that lead from `prevState`
      to `nextState`, normalised to no operation when there are none. */
  function Difference<S, T>(prevState: map<DualKey, S>, nextState: map<DualKey, S>, innerDiff: (DualKey, S, S) -> Option<T>)
    : (r: Option<map<DualKey, TwoWayElement<S, T>>>)
    ensures r.Some? ==> r.value != map[]
    ensures forall k :: k in prevState && k !in nextState ==> r.Some? && k in r.value && r.value[k] == Replace(OldNewValue(Some(prevState[k]), None))
    ensures forall k :: k !in prevState && k in nextState ==> r.Some? && k in r.value && r.value[k] == Replace(OldNewValue(None, Some(nextState[k])))
    ensures forall k :: k in prevState && k in nextState ==>
      match innerDiff(k, prevState[k], nextState[k])
      case None => r.None? || k !in r.value
      case Some(t) => r.Some? && k in r.value && r.value[k] == Update(t)
    ensures r.Some? ==> forall k :: k in r.value ==> k in prevState || k in nextState
  {
    AsOperation(DiffMap(prevState, nextState, innerDiff))
  }

  /** Builds the two-way operation between two collections key by key. */
  method Diff<S, T>(prevState: map<DualKey, S>, nextState: map<DualKey, S>, innerDiff: (DualKey, S, S) -> Option<T>)
    returns (r: Option<map<DualKey, TwoWayElement<S, T>>>)
    ensures r == Difference(prevState, nextState, innerDiff)
  {
    var result: map<DualKey, TwoWayElement<S, T>> := map[];
    var todo := prevState.Keys + nextState.Keys;
    while todo != {}
      invariant todo <= prevState.Keys + nextState.Keys
      invariant forall k :: Get(result, k) ==
                            (if k !in todo then SlotDiff(k, Get(prevState, k), Get(nextState, k), innerDiff) else None)
      decreases todo
    {
      var k :| k in todo;
      if k in prevState && k !in nextState {
        result := result[k := Replace(OldNewValue(Some(prevState[k]), None))];
      } else if k !in prevState && k in nextState {
        result := result[k := Replace(OldNewValue(None, Some(nextState[k])))];
      } else {
        var diffResult := innerDiff(k, prevState[k], nextState[k]);
        if diffResult.Some? {
          result := result[k := Update(diffResult.value)];
        }
      }
      todo := todo - {k};
    }
    GetExtensional(result, DiffMap(prevState, nextState, innerDiff));
    if result == map[] {
      return None;
    }
    return Some(result);
  }

  // ---------------------------------------------------------------------
  // two-way operations read as up- or down-operations

  /** A two-way entry read as an up-entry: its new value, or its update
      converted by `toUp`. */
  function ToUpElement<S, T, U>(e: TwoWayElement<S, T>, toUp: T -> U): UpElement<S, U> {
    match e
    case Replace(r) => Replace(NewValue(r.newValue))
    case Update(t) => Update(toUp(t))
  }

  /** A two-way entry read as a down-entry. */
  function ToDownElement<S, T, D>(e: TwoWayElement<S, T>, toDown: T -> D): DownElement<S, D> {
    match e
    case Replace(r) => Replace(OldValue(r.oldValue))
    case Update(t) => Update(toDown(t))
  }

  function ToUpOperation<S, T, U>(op: Option<map<DualKey, TwoWayElement<S, T>>>, toUp: T -> U)
    : (r: Option<map<DualKey, UpElement<S, U>>>)
    ensures r.Some? <==> op.Some?
    ensures r.Some? ==> r.value.Keys == op.value.Keys && forall k :: k in r.value ==> r.value[k] == ToUpElement(op.value[k], toUp)
  {
    if op.None? then None else Some(map k | k in op.value :: ToUpElement(op.value[k], toUp))
  }

  function ToDownOperation<S, T, D>(op: Option<map<DualKey, TwoWayElement<S, T>>>, toDown: T -> D)
    : (r: Option<map<DualKey, DownElement<S, D>>>)
    ensures r.Some? <==> op.Some?
    ensures r.Some? ==> r.value.Keys == op.value.Keys && forall k :: k in r.value ==> r.value[k] == ToDownElement(op.value[k], toDown)
  {
    if op.None? then None else Some(map k | k in op.value :: ToDownElement(op.value[k], toDown))
  }

  // ---------------------------------------------------------------------
  // laws assumed of the element operations

  /** The element diff is empty exactly between equal elements, and a
      non-empty diff leads from one element to the other in both
      directions. */
  ghost predicate DiffLaw<S(!new), T, U, D>(innerDiff: (DualKey, S, S) -> Option<T>, toUp: T -> U, toDown: T -> D,
                                      innerApply: (DualKey, U, S) -> Result<S>, innerApplyBack: (DualKey, D, S) -> Result<S>)
  {
    forall k, a, b :: (innerDiff(k, a, b).None? <==> a == b)
      && (innerDiff(k, a, b).Some? ==>
            (innerApply(k, toUp(innerDiff(k, a, b).value), a) == Ok(b) && innerApplyBack(k, toDown(innerDiff(k, a, b).value), b) == Ok(a)))
  }

  /** Per key: the slot diff, read forwards, leads from the old slot to the new one. */
  lemma SlotDiffApplies<S(!new), T, U, D>(k: DualKey, prevState: map<DualKey, S>, nextState: map<DualKey, S>,
                                    innerDiff: (DualKey, S, S) -> Option<T>, toUp: T -> U, toDown: T -> D,
                                    innerApply: (DualKey, U, S) -> Result<S>, innerApplyBack: (DualKey, D, S) -> Result<S>)
    requires DiffLaw(innerDiff, toUp, toDown, innerApply, innerApplyBack)
    ensures var e := SlotDiff(k, Get(prevState, k), Get(nextState, k), innerDiff);
      if e.Some? then ApplyAt(prevState, k, ToUpElement(e.value, toUp), innerApply) == Ok(Get(nextState, k))
                      && ApplyBackAt(nextState, k, ToDownElement(e.value, toDown), innerApplyBack) == Ok(Get(prevState, k))
      else Get(prevState, k) == Get(nextState, k)
  {
    if k in prevState && k in nextState {
      var d := innerDiff(k, prevState[k], nextState[k]);
      assert d.None? <==> prevState[k] == nextState[k];
    }
  }

  /** The diff of two collections, applied to the first, gives the second. */
  lemma DiffLeadsForward<S(!new), T, U, D>(prevState: map<DualKey, S>, nextState: map<DualKey, S>,
                                     innerDiff: (DualKey, S, S) -> Option<T>, toUp: T -> U, toDown: T -> D,
                                     innerApply: (DualKey, U, S) -> Result<S>, innerApplyBack: (DualKey, D, S) -> Result<S>)
    requires DiffLaw(innerDiff, toUp, toDown, innerApply, innerApplyBack)
    ensures Applied(prevState, ToUpOperation(Difference(prevState, nextState, innerDiff), toUp), innerApply) == Ok(nextState)
  {
    var m := DiffMap(prevState, nextState, innerDiff);
    forall k ensures var e := SlotDiff(k, Get(prevState, k), Get(nextState, k), innerDiff);
      if e.Some? then ApplyAt(prevState, k, ToUpElement(e.value, toUp), innerApply) == Ok(Get(nextState, k))
      else Get(prevState, k) == Get(nextState, k)
    {
      SlotDiffApplies(k, prevState, nextState, innerDiff, toUp, toDown, innerApply, innerApplyBack);
    }
    if m == map[] {
      forall k ensures Get(prevState, k) == Get(nextState, k) {
        assert Get(m, k).None?;
      }
      GetExtensional(prevState, nextState);
    } else {
      var up := ToUpOperation(Some(m), toUp).value;
      assert forall k :: k in up ==> ApplyAt(prevState, k, up[k], innerApply) == Ok(Get(nextState, k)) by {
        forall k | k in up ensures ApplyAt(prevState, k, up[k], innerApply) == Ok(Get(nextState, k)) {
          assert Get(m, k).Some?;
        }
      }
      var a := Applied(prevState, Some(up), innerApply);
      forall k ensures Get(a.value, k) == Get(nextState, k) {
        if k !in up { assert Get(m, k).None?; }
      }
      GetExtensional(a.value, nextState);
    }
  }

  /** The diff of two collections, applied backwards to the second, gives the first. */
  lemma DiffLeadsBack<S(!new), T, U, D>(prevState: map<DualKey, S>, nextState: map<DualKey, S>,
                                  innerDiff: (DualKey, S, S) -> Option<T>, toUp: T -> U, toDown: T -> D,
                                  innerApply: (DualKey, U, S) -> Result<S>, innerApplyBack: (DualKey, D, S) -> Result<S>)
    requires DiffLaw(innerDiff, toUp, toDown, innerApply, innerApplyBack)
    ensures AppliedBack(nextState, ToDownOperation(Difference(prevState, nextState, innerDiff), toDown), innerApplyBack) == Ok(prevState)
  {
    var m := DiffMap(prevState, nextState, innerDiff);
    forall k ensures var e := SlotDiff(k, Get(prevState, k), Get(nextState, k), innerDiff);
      if e.Some? then ApplyBackAt(nextState, k, ToDownElement(e.value, toDown), innerApplyBack) == Ok(Get(prevState, k))
      else Get(prevState, k) == Get(nextState, k)
    {
      SlotDiffApplies(k, prevState, nextState, innerDiff, toUp, toDown, innerApply, innerApplyBack);
    }
    if m == map[] {
      forall k ensures Get(prevState, k) == Get(nextState, k) {
        assert Get(m, k).None?;
      }
      GetExtensional(prevState, nextState);
    } else {
      var down := ToDownOperation(Some(m), toDown).value;
      assert forall k :: k in down ==> ApplyBackAt(nextState, k, down[k], innerApplyBack) == Ok(Get(prevState, k)) by {
        forall k | k in down ensures ApplyBackAt(nextState, k, down[k], innerApplyBack) == Ok(Get(prevState, k)) {
          assert Get(m, k).Some?;
        }
      }
      var b := AppliedBack(nextState, Some(down), innerApplyBack);
      forall k ensures Get(b.value, k) == Get(prevState, k) {
        if k !in down { assert Get(m, k).None?; }
      }
      GetExtensional(b.value, prevState);
    }
  }

  /** Round trip: the diff of two collections, applied to the first, gives
      the second, and applied backwards to the second gives the first. */
  lemma DiffRoundTrip<S(!new), T, U, D>(prevState: map<DualKey, S>, nextState: map<DualKey, S>,
                                  innerDiff: (DualKey, S, S) -> Option<T>, toUp: T -> U, toDown: T -> D,
                                  innerApply: (DualKey, U, S) -> Result<S>, innerApplyBack: (DualKey, D, S) -> Result<S>)
    requires DiffLaw(innerDiff, toUp, toDown, innerApply, innerApplyBack)
    ensures Applied(prevState, ToUpOperation(Difference(prevState, nextState, innerDiff), toUp), innerApply) == Ok(nextState)
    ensures AppliedBack(nextState, ToDownOperation(Difference(prevState, nextState, innerDiff), toDown), innerApplyBack) == Ok(prevState)
  {
    DiffLeadsForward(prevState, nextState, innerDiff, toUp, toDown, innerApply, innerApplyBack);
    DiffLeadsBack(prevState, nextState, innerDiff, toUp, toDown, innerApply, innerApplyBack);
  }

  /** The diff is empty exactly when the collections are equal. */
  lemma DiffIsNoneIffEqual<S(!new), T, U, D>(prevState: map<DualKey, S>, nextState: map<DualKey, S>,
                                       innerDiff: (DualKey, S, S) -> Option<T>, toUp: T -> U, toDown: T -> D,
                                       innerApply: (DualKey, U, S) -> Result<S>, innerApplyBack: (DualKey, D, S) -> Result<S>)
    requires DiffLaw(innerDiff, toUp, toDown, innerApply, innerApplyBack)
    ensures Difference(prevState, nextState, innerDiff).None? <==> prevState == nextState
  {
    var m := DiffMap(prevState, nextState, innerDiff);
    if prevState == nextState {
      forall k ensures k !in m {
        assert Get(m, k) == SlotDiff(k, Get(prevState, k), Get(nextState, k), innerDiff);
      }
    } else {
      DiffRoundTrip(prevState, nextState, innerDiff, toUp, toDown, innerApply, innerApplyBack);
    }
  }

  // ---------------------------------------------------------------------
  // restore

  /** What one entry of a down-operation contributes to `restore`: the
      earlier slot of its key and the two-way entry leading from that slot
      to the given state. A replacement leaves its old value and the slot
      diff; an update of a key missing from the later state fails, and
      otherwise the inner restore decides, its error propagating. */
  function RestoreAt<S, D, T>(nextState: map<DualKey, S>, k: DualKey, e: DownElement<S, D>,
                              innerRestore: (DualKey, D, S) -> Result<RestoreResult<S, T>>, innerDiff: (DualKey, S, S) -> Option<T>)
    : Result<(Option<S>, Option<TwoWayElement<S, T>>)>
  {
    match e
    case Replace(r) => Ok((r.oldValue, SlotDiff(k, r.oldValue, Get(nextState, k), innerDiff)))
    case Update(d) =>
      if k !in nextState then Err(MissingKey)
      else
        match innerRestore(k, d, nextState[k])
        case Err(e) => Err(e)
        case Ok(restored) =>
          Ok((Some(restored.prevState), if restored.twoWayOperation.Some? then Some(Update(restored.twoWayOperation.value)) else None))
  }

  function RestoredState<S, D, T>(nextState: map<DualKey, S>, op: map<DualKey, DownElement<S, D>>,
                                  innerRestore: (DualKey, D, S) -> Result<RestoreResult<S, T>>, innerDiff: (DualKey, S, S) -> Option<T>)
    : (r: map<DualKey, S>)
    ensures forall k :: Get(r, k) == (if k in op && RestoreAt(nextState, k, op[k], innerRestore, innerDiff).Ok? then RestoreAt(nextState, k, op[k], innerRestore, innerDiff).value.0 else Get(nextState, k))
  {
    map k | k in nextState.Keys + op.Keys
              && (if k in op && RestoreAt(nextState, k, op[k], innerRestore, innerDiff).Ok? then RestoreAt(nextState, k, op[k], innerRestore, innerDiff).value.0 else Get(nextState, k)).Some?
      :: (if k in op && RestoreAt(nextState, k, op[k], innerRestore, innerDiff).Ok? then RestoreAt(nextState, k, op[k], innerRestore, innerDiff).value.0 else Get(nextState, k)).value
  }

  function RestoredTwoWay<S, D, T>(nextState: map<DualKey, S>, op: map<DualKey, DownElement<S, D>>,
                                   innerRestore: (DualKey, D, S) -> Result<RestoreResult<S, T>>, innerDiff: (DualKey, S, S) -> Option<T>)
    : (r: map<DualKey, TwoWayElement<S, T>>)
    ensures forall k :: Get(r, k) == (if k in op && RestoreAt(nextState, k, op[k], innerRestore, innerDiff).Ok? then RestoreAt(nextState, k, op[k], innerRestore, innerDiff).value.1 else None)
  {
    map k | k in op && RestoreAt(nextState, k, op[k], innerRestore, innerDiff).Ok? && RestoreAt(nextState, k, op[k], innerRestore, innerDiff).value.1.Some?
      :: RestoreAt(nextState, k, op[k], innerRestore, innerDiff).value.1.value
  }

  /** The specification of `restore`. An absent down-operation gives the
      given state and no two-way operation. Otherwise the result fails
      exactly when some entry fails; on success the earlier state holds each
      entry's earlier slot, and the two-way operation, always present and
      never normalised, holds the entries' two-way parts. */
  ghost function Restored<S, D, T>(nextState: map<DualKey, S>, downOperation: Option<map<DualKey, DownElement<S, D>>>,
                                   innerRestore: (DualKey, D, S) -> Result<RestoreResult<S, T>>, innerDiff: (DualKey, S, S) -> Option<T>)
    : (r: Result<RestoreResult<map<DualKey, S>, map<DualKey, TwoWayElement<S, T>>>>)
    ensures downOperation.None? ==> r == Ok(RestoreResult(nextState, None))
    ensures downOperation.Some? ==> (r.Err? <==> exists k :: k in downOperation.value && RestoreAt(nextState, k, downOperation.value[k], innerRestore, innerDiff).Err?)
    ensures r.Err? ==> downOperation.Some? && exists k :: k in downOperation.value && RestoreAt(nextState, k, downOperation.value[k], innerRestore, innerDiff) == Err(r.error)
    ensures downOperation.Some? && r.Ok? ==> r.value.twoWayOperation.Some?
    ensures downOperation.Some? && r.Ok? ==> forall k :: k in downOperation.value ==>
      Get(r.value.prevState, k) == RestoreAt(nextState, k, downOperation.value[k], innerRestore, innerDiff).value.0
      && Get(r.value.twoWayOperation.value, k) == RestoreAt(nextState, k, downOperation.value[k], innerRestore, innerDiff).value.1
    ensures downOperation.Some? && r.Ok? ==> forall k :: k !in downOperation.value ==>
      Get(r.value.prevState, k) == Get(nextState, k) && k !in r.value.twoWayOperation.value
    ensures downOperation.Some? && r.Ok? ==> forall k :: k in downOperation.value && downOperation.value[k].Replace? ==>
      Get(r.value.prevState, k) == downOperation.value[k].replace.oldValue
  {
    if downOperation.None? then Ok(RestoreResult(nextState, None))
    else if exists k :: k in downOperation.value && RestoreAt(nextState, k, downOperation.value[k], innerRestore, innerDiff).Err? then
      var k :| k in downOperation.value && RestoreAt(nextState, k, downOperation.value[k], innerRestore, innerDiff).Err?;
      Err(RestoreAt(nextState, k, downOperation.value[k], innerRestore, innerDiff).error)
    else
      Ok(RestoreResult(RestoredState(nextState, downOperation.value, innerRestore, innerDiff),
                       Some(RestoredTwoWay(nextState, downOperation.value, innerRestore, innerDiff))))
  }

  /** Rebuilds the earlier collection and the two-way operation from a
      down-operation, entry by entry. */
  method Restore<S, D, T>(nextState: map<DualKey, S>, downOperation: Option<map<DualKey, DownElement<S, D>>>,
                          innerRestore: (DualKey, D, S) -> Result<RestoreResult<S, T>>, innerDiff: (DualKey, S, S) -> Option<T>)
    returns (r: Result<RestoreResult<map<DualKey, S>, map<DualKey, TwoWayElement<S, T>>>>)
    ensures r.Ok? <==> Restored(nextState, downOperation, innerRestore, innerDiff).Ok?
    ensures r.Ok? ==> r == Restored(nextState, downOperation, innerRestore, innerDiff)
    ensures r.Err? ==> downOperation.Some? && exists k :: k in downOperation.value && RestoreAt(nextState, k, downOperation.value[k], innerRestore, innerDiff) == Err(r.error)
  {
    if downOperation.None? {
      return Ok(RestoreResult(nextState, None));
    }
    var op := downOperation.value;
    var prevState := nextState;
    var twoWayOperation: map<DualKey, TwoWayElement<S, T>> := map[];
    var todo := op.Keys;
    while todo != {}
      invariant todo <= op.Keys
      invariant forall k :: k in op && k !in todo ==> RestoreAt(nextState, k, op[k], innerRestore, innerDiff).Ok?
      invariant forall k :: Get(prevState, k) ==
                            (if k in op && k !in todo then RestoreAt(nextState, k, op[k], innerRestore, innerDiff).value.0 else Get(nextState, k))
      invariant forall k :: Get(twoWayOperation, k) ==
                            (if k in op && k !in todo then RestoreAt(nextState, k, op[k], innerRestore, innerDiff).value.1 else None)
      decreases todo
    {
      var k :| k in todo;
      var entry := RestoreEntry(nextState, k, op[k], innerRestore, innerDiff);
      if entry.Err? {
        return Err(entry.error);
      }
      if entry.value.0.None? {
        prevState := prevState - {k};
      } else {
        prevState := prevState[k := entry.value.0.value];
      }
      if entry.value.1.Some? {
        twoWayOperation := twoWayOperation[k := entry.value.1.value];
      }
      todo := todo - {k};
    }
    RestoredFromEntries(nextState, op, prevState, twoWayOperation, innerRestore, innerDiff);
    return Ok(RestoreResult(prevState, Some(twoWayOperation)));
  }

  /** One entry of `restore`, in the source's order of checks: a
      replacement restores its old value, and its two-way entry is the slot
      diff towards the given state; an update needs its key in the given
      state and the inner restore. */
  method RestoreEntry<S, D, T>(nextState: map<DualKey, S>, k: DualKey, e: DownElement<S, D>,
                               innerRestore: (DualKey, D, S) -> Result<RestoreResult<S, T>>, innerDiff: (DualKey, S, S) -> Option<T>)
    returns (r: Result<(Option<S>, Option<TwoWayElement<S, T>>)>)
    ensures r == RestoreAt(nextState, k, e, innerRestore, innerDiff)
  {
    match e {
      case Replace(replace) =>
        var oldValue := replace.oldValue;
        var newValue := Get(nextState, k);
        var twoWay: Option<TwoWayElement<S, T>> := None;
        if oldValue.None? {
          if newValue.Some? {
            twoWay := Some(Replace(OldNewValue(oldValue, newValue)));
          }
        } else if newValue.None? {
          twoWay := Some(Replace(OldNewValue(oldValue, None)));
        } else {
          var diff := innerDiff(k, oldValue.value, newValue.value);
          if diff.Some? {
            twoWay := Some(Update(diff.value));
          }
        }
        return Ok((oldValue, twoWay));
      case Update(update) =>
        if k !in nextState {
          return Err(MissingKey);
        }
        var restored := innerRestore(k, update, nextState[k]);
        if restored.Err? {
          return Err(restored.error);
        }
        var twoWay: Option<TwoWayElement<S, T>> := None;
        if restored.value.twoWayOperation.Some? {
          twoWay := Some(Update(restored.value.twoWayOperation.value));
        }
        return Ok((Some(restored.value.prevState), twoWay));
    }
  }

  /** When every entry succeeds, the specification's result is the
      collection of the entries' earlier slots and the operation of their
      two-way entries. */
  lemma RestoredFromEntries<S, D, T>(nextState: map<DualKey, S>, op: map<DualKey, DownElement<S, D>>,
                                     prevState: map<DualKey, S>, twoWayOperation: map<DualKey, TwoWayElement<S, T>>,
                                     innerRestore: (DualKey, D, S) -> Result<RestoreResult<S, T>>, innerDiff: (DualKey, S, S) -> Option<T>)
    requires forall k :: k in op ==> RestoreAt(nextState, k, op[k], innerRestore, innerDiff).Ok?
    requires forall k :: Get(prevState, k) == (if k in op then RestoreAt(nextState, k, op[k], innerRestore, innerDiff).value.0 else Get(nextState, k))
    requires forall k :: Get(twoWayOperation, k) == (if k in op then RestoreAt(nextState, k, op[k], innerRestore, innerDiff).value.1 else None)
    ensures Restored(nextState, Some(op), innerRestore, innerDiff) == Ok(RestoreResult(prevState, Some(twoWayOperation)))
  {
    GetExtensional(prevState, RestoredState(nextState, op, innerRestore, innerDiff));
    GetExtensional(twoWayOperation, RestoredTwoWay(nextState, op, innerRestore, innerDiff));
  }

  /** The element restore succeeds exactly when the element's backward
      application does and then agrees with it; its two-way part is absent
      only when the element is unchanged, and otherwise leads from the
      earlier element to the later one in both directions. */
  ghost predicate RestoreLaw<S(!new), D(!new), T, U>(innerRestore: (DualKey, D, S) -> Result<RestoreResult<S, T>>, innerApplyBack: (DualKey, D, S) -> Result<S>,
                                                     toUp: T -> U, toDown: T -> D, innerApply: (DualKey, U, S) -> Result<S>)
  {
    forall k, d, s :: (innerRestore(k, d, s).Ok? <==> innerApplyBack(k, d, s).Ok?)
      && (innerRestore(k, d, s).Ok? ==> RestoredElementLeadsTo(k, innerRestore(k, d, s).value, s, innerApplyBack(k, d, s).value, toUp, toDown, innerApply, innerApplyBack))
  }

  ghost predicate RestoredElementLeadsTo<S, D, T, U>(k: DualKey, restored: RestoreResult<S, T>, nextState: S, applyBackResult: S,
                                                     toUp: T -> U, toDown: T -> D, innerApply: (DualKey, U, S) -> Result<S>, innerApplyBack: (DualKey, D, S) -> Result<S>)
  {
    restored.prevState == applyBackResult
    && (restored.twoWayOperation.None? ==> restored.prevState == nextState)
    && (restored.twoWayOperation.Some? ==>
          innerApply(k, toUp(restored.twoWayOperation.value), restored.prevState) == Ok(nextState)
          && innerApplyBack(k, toDown(restored.twoWayOperation.value), nextState) == Ok(restored.prevState))
  }

  /** `restore` computes the earlier state that `applyBack` computes, and
      fails exactly when `applyBack` fails. */
  lemma RestoreIsApplyBack<S(!new), D(!new), T, U>(nextState: map<DualKey, S>, downOperation: Option<map<DualKey, DownElement<S, D>>>,
                                                   innerRestore: (DualKey, D, S) -> Result<RestoreResult<S, T>>, innerDiff: (DualKey, S, S) -> Option<T>,
                                                   innerApplyBack: (DualKey, D, S) -> Result<S>, toUp: T -> U, toDown: T -> D, innerApply: (DualKey, U, S) -> Result<S>)
    requires RestoreLaw(innerRestore, innerApplyBack, toUp, toDown, innerApply)
    ensures Restored(nextState, downOperation, innerRestore, innerDiff).Ok? <==> AppliedBack(nextState, downOperation, innerApplyBack).Ok?
    ensures Restored(nextState, downOperation, innerRestore, innerDiff).Ok? ==>
      AppliedBack(nextState, downOperation, innerApplyBack) == Ok(Restored(nextState, downOperation, innerRestore, innerDiff).value.prevState)
  {
    if downOperation.Some? {
      var op := downOperation.value;
      forall k | k in op
        ensures RestoreAt(nextState, k, op[k], innerRestore, innerDiff).Ok? <==> ApplyBackAt(nextState, k, op[k], innerApplyBack).Ok?
        ensures RestoreAt(nextState, k, op[k], innerRestore, innerDiff).Ok? ==>
          RestoreAt(nextState, k, op[k], innerRestore, innerDiff).value.0 == ApplyBackAt(nextState, k, op[k], innerApplyBack).value
      {
        if op[k].Update? && k in nextState {
          var d, s := op[k].update, nextState[k];
          assert innerRestore(k, d, s).Ok? <==> innerApplyBack(k, d, s).Ok?;
          if innerRestore(k, d, s).Ok? {
            assert RestoredElementLeadsTo(k, innerRestore(k, d, s).value, s, innerApplyBack(k, d, s).value, toUp, toDown, innerApply, innerApplyBack);
          }
        }
      }
      var r := Restored(nextState, downOperation, innerRestore, innerDiff);
      var b := AppliedBack(nextState, downOperation, innerApplyBack);
      if r.Ok? {
        assert b.Ok?;
        forall k ensures Get(b.value, k) == Get(r.value.prevState, k) {
        }
        GetExtensional(b.value, r.value.prevState);
      }
    }
  }

  /** One key of `RestoreTwoWayLeadsBack`: the restored slot and the
      key's two-way entry lead to the given slot and back. */
  lemma RestoreEntryLeadsBack<S(!new), D(!new), T, U>(nextState: map<DualKey, S>, op: map<DualKey, DownElement<S, D>>, k: DualKey,
                                                      innerRestore: (DualKey, D, S) -> Result<RestoreResult<S, T>>, innerDiff: (DualKey, S, S) -> Option<T>,
                                                      innerApplyBack: (DualKey, D, S) -> Result<S>, toUp: T -> U, toDown: T -> D, innerApply: (DualKey, U, S) -> Result<S>)
    requires RestoreLaw(innerRestore, innerApplyBack, toUp, toDown, innerApply)
    requires DiffLaw(innerDiff, toUp, toDown, innerApply, innerApplyBack)
    requires Restored(nextState, Some(op), innerRestore, innerDiff).Ok?
    ensures var r := Restored(nextState, Some(op), innerRestore, innerDiff).value;
      var tw := r.twoWayOperation.value;
      var up := ToUpOperation(r.twoWayOperation, toUp).value;
      var down := ToDownOperation(r.twoWayOperation, toDown).value;
      (k in tw ==> ApplyAt(r.prevState, k, up[k], innerApply) == Ok(Get(nextState, k))
                   && ApplyBackAt(nextState, k, down[k], innerApplyBack) == Ok(Get(r.prevState, k)))
      && (k !in tw ==> Get(r.prevState, k) == Get(nextState, k))
  {
    var r := Restored(nextState, Some(op), innerRestore, innerDiff).value;
    if k in op {
      var e := RestoreAt(nextState, k, op[k], innerRestore, innerDiff);
      assert e.Ok?;
      match op[k] {
        case Replace(rep) =>
          SlotDiffApplies(k, r.prevState, nextState, innerDiff, toUp, toDown, innerApply, innerApplyBack);
        case Update(d) =>
          var s := nextState[k];
          assert RestoredElementLeadsTo(k, innerRestore(k, d, s).value, s, innerApplyBack(k, d, s).value, toUp, toDown, innerApply, innerApplyBack);
      }
    }
  }

  /** The two-way operation that `restore` returns leads from the earlier
      state to the given one, forwards and backwards. */
  lemma RestoreTwoWayLeadsBack<S(!new), D(!new), T, U>(nextState: map<DualKey, S>, downOperation: Option<map<DualKey, DownElement<S, D>>>,
                                                       innerRestore: (DualKey, D, S) -> Result<RestoreResult<S, T>>, innerDiff: (DualKey, S, S) -> Option<T>,
                                                       innerApplyBack: (DualKey, D, S) -> Result<S>, toUp: T -> U, toDown: T -> D, innerApply: (DualKey, U, S) -> Result<S>)
    requires RestoreLaw(innerRestore, innerApplyBack, toUp, toDown, innerApply)
    requires DiffLaw(innerDiff, toUp, toDown, innerApply, innerApplyBack)
    requires Restored(nextState, downOperation, innerRestore, innerDiff).Ok?
    ensures var r := Restored(nextState, downOperation, innerRestore, innerDiff).value;
      Applied(r.prevState, ToUpOperation(r.twoWayOperation, toUp), innerApply) == Ok(nextState)
      && AppliedBack(nextState, ToDownOperation(r.twoWayOperation, toDown), innerApplyBack) == Ok(r.prevState)
  {
    var r := Restored(nextState, downOperation, innerRestore, innerDiff).value;
    if downOperation.Some? {
      var op := downOperation.value;
      var tw := r.twoWayOperation.value;
      var up := ToUpOperation(r.twoWayOperation, toUp).value;
      var down := ToDownOperation(r.twoWayOperation, toDown).value;
      forall k
        ensures k in tw ==> ApplyAt(r.prevState, k, up[k], innerApply) == Ok(Get(nextState, k))
                            && ApplyBackAt(nextState, k, down[k], innerApplyBack) == Ok(Get(r.prevState, k))
        ensures k !in tw ==> Get(r.prevState, k) == Get(nextState, k)
      {
        RestoreEntryLeadsBack(nextState, op, k, innerRestore, innerDiff, innerApplyBack, toUp, toDown, innerApply);
      }
      var a := Applied(r.prevState, Some(up), innerApply);
      var b := AppliedBack(nextState, Some(down), innerApplyBack);
      assert a.Ok?;
      assert b.Ok?;
      GetExtensional(a.value, nextState);
      GetExtensional(b.value, r.prevState);
    }
  }

  // ---------------------------------------------------------------------
  // composeDownOperation

  /** The composed entry of one key, `first` being the earlier
      down-operation and `second` the later one (applied backwards, `second`
      runs first). An entry on one side only passes through; an earlier
      replacement keeps its old value; an earlier update over a later
      replacement is applied backwards to the replacement's old value, which
      must exist; two updates are composed by the inner compose, whose empty
      result drops the key. */
  function ComposeAt<S, D>(k: DualKey, first: Option<DownElement<S, D>>, second: Option<DownElement<S, D>>,
                           innerApplyBack: (DualKey, D, S) -> Result<S>, innerCompose: (DualKey, D, D) -> Result<Option<D>>)
    : Result<Option<DownElement<S, D>>>
  {
    if second.None? then Ok(first)
    else if first.None? then Ok(second)
    else
      match first.value
      case Replace(r) => Ok(Some(Replace(OldValue(r.oldValue))))
      case Update(u) =>
        match second.value
        case Replace(r2) =>
          if r2.oldValue.None? then Err(UpdateOverAbsentValue)
          else
            (match innerApplyBack(k, u, r2.oldValue.value)
             case Err(e) => Err(e)
             case Ok(v) => Ok(Some(Replace(OldValue(Some(v))))))
        case Update(u2) =>
          match innerCompose(k, u, u2)
          case Err(e) => Err(e)
          case Ok(c) => Ok(if c.Some? then Some(Update(c.value)) else None)
  }

  function ComposedMap<S, D>(first: map<DualKey, DownElement<S, D>>, second: map<DualKey, DownElement<S, D>>,
                             innerApplyBack: (DualKey, D, S) -> Result<S>, innerCompose: (DualKey, D, D) -> Result<Option<D>>)
    : (r: map<DualKey, DownElement<S, D>>)
    ensures forall k :: Get(r, k) == (if ComposeAt(k, Get(first, k), Get(second, k), innerApplyBack, innerCompose).Ok? then ComposeAt(k, Get(first, k), Get(second, k), innerApplyBack, innerCompose).value else None)
  {
    map k | k in first.Keys + second.Keys && ComposeAt(k, Get(first, k), Get(second, k), innerApplyBack, innerCompose).Ok?
                                          && ComposeAt(k, Get(first, k), Get(second, k), innerApplyBack, innerCompose).value.Some?
      :: ComposeAt(k, Get(first, k), Get(second, k), innerApplyBack, innerCompose).value.value
  }

  /** The specification of `composeDownOperation`. An absent side gives the
      other side; otherwise the result fails exactly when the entry of some
      key fails, and on success it holds every key's composed entry (not
      normalised: it may be an empty map). */
  ghost function ComposedDown<S, D>(first: Option<map<DualKey, DownElement<S, D>>>, second: Option<map<DualKey, DownElement<S, D>>>,
                                    innerApplyBack: (DualKey, D, S) -> Result<S>, innerCompose: (DualKey, D, D) -> Result<Option<D>>)
    : (r: Result<Option<map<DualKey, DownElement<S, D>>>>)
    ensures first.None? ==> r == Ok(second)
    ensures first.Some? && second.None? ==> r == Ok(first)
    ensures first.Some? && second.Some? ==> (r.Err? <==> exists k :: k in first.value.Keys + second.value.Keys && ComposeAt(k, Get(first.value, k), Get(second.value, k), innerApplyBack, innerCompose).Err?)
    ensures r.Err? ==> first.Some? && second.Some? && exists k :: k in first.value.Keys + second.value.Keys && ComposeAt(k, Get(first.value, k), Get(second.value, k), innerApplyBack, innerCompose) == Err(r.error)
    ensures first.Some? && second.Some? && r.Ok? ==> r.value.Some? && forall k :: Get(r.value.value, k) == ComposeAt(k, Get(first.value, k), Get(second.value, k), innerApplyBack, innerCompose).value
  {
    if first.None? then Ok(second)
    else if second.None? then Ok(first)
    else if exists k :: k in first.value.Keys + second.value.Keys && ComposeAt(k, Get(first.value, k), Get(second.value, k), innerApplyBack, innerCompose).Err? then
      var k :| k in first.value.Keys + second.value.Keys && ComposeAt(k, Get(first.value, k), Get(second.value, k), innerApplyBack, innerCompose).Err?;
      Err(ComposeAt(k, Get(first.value, k), Get(second.value, k), innerApplyBack, innerCompose).error)
    else
      Ok(Some(ComposedMap(first.value, second.value, innerApplyBack, innerCompose)))
  }

  /** Composes two down-operations over the full outer join of their keys. */
  method ComposeDownOperation<S, D>(first: Option<map<DualKey, DownElement<S, D>>>, second: Option<map<DualKey, DownElement<S, D>>>,
                                    innerApplyBack: (DualKey, D, S) -> Result<S>, innerCompose: (DualKey, D, D) -> Result<Option<D>>)
    returns (r: Result<Option<map<DualKey, DownElement<S, D>>>>)
    ensures r.Ok? <==> ComposedDown(first, second, innerApplyBack, innerCompose).Ok?
    ensures r.Ok? ==> r == ComposedDown(first, second, innerApplyBack, innerCompose)
    ensures r.Err? ==> first.Some? && second.Some? && exists k :: k in first.value.Keys + second.value.Keys && ComposeAt(k, Get(first.value, k), Get(second.value, k), innerApplyBack, innerCompose) == Err(r.error)
  {
    if first.None? {
      return Ok(second);
    }
    if second.None? {
      return Ok(first);
    }
    var left, right := first.value, second.value;
    var result: map<DualKey, DownElement<S, D>> := map[];
    var todo := left.Keys + right.Keys;
    while todo != {}
      invariant todo <= left.Keys + right.Keys
      invariant forall k :: k in left.Keys + right.Keys && k !in todo ==> ComposeAt(k, Get(left, k), Get(right, k), innerApplyBack, innerCompose).Ok?
      invariant forall k :: Get(result, k) ==
                            (if k in left.Keys + right.Keys && k !in todo then ComposeAt(k, Get(left, k), Get(right, k), innerApplyBack, innerCompose).value else None)
      decreases todo
    {
      var k :| k in todo;
      if k !in right {
        result := result[k := left[k]];
      } else if k !in left {
        result := result[k := right[k]];
      } else {
        match left[k] {
          case Replace(replace) =>
            result := result[k := Replace(OldValue(replace.oldValue))];
          case Update(update) =>
            match right[k] {
              case Replace(replace) =>
                if replace.oldValue.None? {
                  return Err(UpdateOverAbsentValue);
                }
                var firstOldValue := innerApplyBack(k, update, replace.oldValue.value);
                if firstOldValue.Err? {
                  return Err(firstOldValue.error);
                }
                result := result[k := Replace(OldValue(Some(firstOldValue.value)))];
              case Update(update2) =>
                var composed := innerCompose(k, update, update2);
                if composed.Err? {
                  return Err(composed.error);
                }
                if composed.value.Some? {
                  result := result[k := Update(composed.value.value)];
                }
            }
        }
      }
      todo := todo - {k};
    }
    GetExtensional(result, ComposedMap(left, right, innerApplyBack, innerCompose));
    return Ok(Some(result));
  }

  /** Composing two element down-operations succeeds whenever applying them
      one after the other does, and the composition has the same effect; an
      empty composition means the two cancel out. */
  ghost predicate ComposeLaw<S(!new), D(!new)>(innerCompose: (DualKey, D, D) -> Result<Option<D>>, innerApplyBack: (DualKey, D, S) -> Result<S>)
  {
    forall k, d1, d2, x :: innerApplyBack(k, d2, x).Ok? && innerApplyBack(k, d1, innerApplyBack(k, d2, x).value).Ok? ==>
      innerCompose(k, d1, d2).Ok?
      && (innerCompose(k, d1, d2).value.None? ==> innerApplyBack(k, d1, innerApplyBack(k, d2, x).value).value == x)
      && (innerCompose(k, d1, d2).value.Some? ==> innerApplyBack(k, innerCompose(k, d1, d2).value.value, x) == innerApplyBack(k, d1, innerApplyBack(k, d2, x).value))
  }

  /** A backward entry only looks at its own key of the state. */
  lemma ApplyBackAtIsLocal<S, D>(a: map<DualKey, S>, b: map<DualKey, S>, k: DualKey, e: DownElement<S, D>, innerApplyBack: (DualKey, D, S) -> Result<S>)
    requires Get(a, k) == Get(b, k)
    ensures ApplyBackAt(a, k, e, innerApplyBack) == ApplyBackAt(b, k, e, innerApplyBack)
  {
    if e.Update? {
      assert (k in a) == Get(a, k).Some? && (k in b) == Get(b, k).Some?;
      if k in a { assert a[k] == Get(a, k).value == b[k]; }
    }
  }

  /** Per key: the composed entry exists and has the effect of the two
      entries applied one after the other. */
  lemma ComposeAtIsSequential<S(!new), D(!new)>(k: DualKey, state: map<DualKey, S>, first: map<DualKey, DownElement<S, D>>, second: map<DualKey, DownElement<S, D>>,
                                                innerApplyBack: (DualKey, D, S) -> Result<S>, innerCompose: (DualKey, D, D) -> Result<Option<D>>)
    requires ComposeLaw(innerCompose, innerApplyBack)
    requires AppliedBack(state, Some(second), innerApplyBack).Ok?
    requires AppliedBack(AppliedBack(state, Some(second), innerApplyBack).value, Some(first), innerApplyBack).Ok?
    ensures var c := ComposeAt(k, Get(first, k), Get(second, k), innerApplyBack, innerCompose);
      c.Ok? && (c.value.Some? ==> ApplyBackAt(state, k, c.value.value, innerApplyBack).Ok?)
      && Get(AppliedBack(AppliedBack(state, Some(second), innerApplyBack).value, Some(first), innerApplyBack).value, k)
         == (if c.value.Some? then ApplyBackAt(state, k, c.value.value, innerApplyBack).value else Get(state, k))
  {
    var mid := AppliedBack(state, Some(second), innerApplyBack).value;
    var fin := AppliedBack(mid, Some(first), innerApplyBack).value;
    if k in first && k !in second {
      ApplyBackAtIsLocal(mid, state, k, first[k], innerApplyBack);
    } else if k in first && k in second {
      match first[k] {
        case Replace(r) =>
        case Update(u) =>
          assert k in mid;
          match second[k] {
            case Replace(r2) =>
            case Update(u2) =>
              assert innerApplyBack(k, u2, state[k]).Ok? && innerApplyBack(k, u, innerApplyBack(k, u2, state[k]).value).Ok?;
          }
      }
    }
  }

  /** `composeDownOperation` is sequential backward application: when
      applying `second` and then `first` backwards succeeds, the composition
      succeeds and applies backwards to the same state. */
  lemma ComposeDownIsSequentialApplyBack<S(!new), D(!new)>(state: map<DualKey, S>, first: Option<map<DualKey, DownElement<S, D>>>, second: Option<map<DualKey, DownElement<S, D>>>,
                                                           innerApplyBack: (DualKey, D, S) -> Result<S>, innerCompose: (DualKey, D, D) -> Result<Option<D>>)
    requires ComposeLaw(innerCompose, innerApplyBack)
    requires AppliedBack(state, second, innerApplyBack).Ok?
    requires AppliedBack(AppliedBack(state, second, innerApplyBack).value, first, innerApplyBack).Ok?
    ensures ComposedDown(first, second, innerApplyBack, innerCompose).Ok?
    ensures AppliedBack(state, ComposedDown(first, second, innerApplyBack, innerCompose).value, innerApplyBack)
            == AppliedBack(AppliedBack(state, second, innerApplyBack).value, first, innerApplyBack)
  {
    if first.Some? && second.Some? {
      var keys := first.value.Keys + second.value.Keys;
      forall k ensures var c := ComposeAt(k, Get(first.value, k), Get(second.value, k), innerApplyBack, innerCompose);
        c.Ok? && (c.value.Some? ==> ApplyBackAt(state, k, c.value.value, innerApplyBack).Ok?)
        && Get(AppliedBack(AppliedBack(state, second, innerApplyBack).value, first, innerApplyBack).value, k)
           == (if c.value.Some? then ApplyBackAt(state, k, c.value.value, innerApplyBack).value else Get(state, k))
      {
        ComposeAtIsSequential(k, state, first.value, second.value, innerApplyBack, innerCompose);
      }
      var composed := ComposedDown(first, second, innerApplyBack, innerCompose);
      assert composed.Ok?;
      var m := composed.value.value;
      var a := AppliedBack(state, Some(m), innerApplyBack);
      assert forall k :: k in m ==> ApplyBackAt(state, k, m[k], innerApplyBack).Ok? by {
        forall k | k in m ensures ApplyBackAt(state, k, m[k], innerApplyBack).Ok? {
          assert Get(m, k).Some?;
        }
      }
      var fin := AppliedBack(AppliedBack(state, second, innerApplyBack).value, first, innerApplyBack).value;
      forall k ensures Get(a.value, k) == Get(fin, k) {
        assert Get(m, k) == ComposeAt(k, Get(first.value, k), Get(second.value, k), innerApplyBack, innerCompose).value;
      }
      GetExtensional(a.value, fin);
    }
  }

  // ---------------------------------------------------------------------
  // serverTransform

  /** An optional two-argument veto hook, where an absent hook never vetoes. */
  predicate Vetoes<S>(hook: Option<(DualKey, S) -> bool>, k: DualKey, state: S) {
    hook.Some? && hook.value(k, state)
  }

  /** An optional three-argument veto hook (the update veto). */
  predicate VetoesUpdate<S>(hook: Option<(DualKey, S, S) -> bool>, k: DualKey, prevState: S, nextState: S) {
    hook.Some? && hook.value(k, prevState, nextState)
  }

  /** The server's own entry at key `k`, if any. */
  function FirstAt<R, TF>(first: Option<map<DualKey, RecordElement<R, TF>>>, k: DualKey): Option<RecordElement<R, TF>> {
    if first.Some? && k in first.value then Some(first.value[k]) else None
  }

  /** A client entry the server refuses outright: a key part outside the
      allow-list, a removal of a key absent at the client's revision
      (`prevState`), a creation of a key present there, or an update of a
      key absent there. */
  predicate Rejected<S, C, TS>(prevState: map<DualKey, S>, k: DualKey, e: UpElement<C, TS>) {
    !KeyValidation.IsValidKey(k.0) || !KeyValidation.IsValidKey(k.1)
    || (match e
        case Replace(r) => (r.newValue.None? && k !in prevState) || (r.newValue.Some? && k in prevState)
        case Update(_) => k !in prevState)
  }

  /** The transformed entry of one client entry against the server's
      current state `nextState`. Removals, creations and updates that the
      server's history has made moot are dropped silently, as are those the
      cancellation policy vetoes; a surviving update is transformed against
      the server's own update of the key by `innerTransform`. What it
      promises is stated by `ServerTransformFailsIff`,
      `ServerTransformAtAccepted`, `ServerTransformDropped` and
      `ServerTransformConsistent`. */
  function ServerTransformAt<S, C, R, TF, TS>(prevState: map<DualKey, S>, nextState: map<DualKey, S>, first: Option<map<DualKey, RecordElement<R, TF>>>,
                                              k: DualKey, e: UpElement<C, TS>,
                                              innerTransform: (DualKey, Option<TF>, TS, S, S) -> Result<Option<TF>>,
                                              toServerState: (C, DualKey) -> S, policy: CancellationPolicy<S>)
    : Result<Option<TwoWayElement<S, TF>>>
  {
    if !KeyValidation.IsValidKey(k.0) || !KeyValidation.IsValidKey(k.1) then Err(InvalidKey)
    else
      match e
      case Replace(r) =>
        if r.newValue.None? then
          if k !in prevState then Err(RemoveNonExisting)
          else if k !in nextState then Ok(None)
          else if Vetoes(policy.cancelRemove, k, nextState[k]) then Ok(None)
          else Ok(Some(Replace(OldNewValue(Some(nextState[k]), None))))
        else
          if k in prevState then Err(AddExisting)
          else if k in nextState then Ok(None)
          else
            var newValue := toServerState(r.newValue.value, k);
            if Vetoes(policy.cancelCreate, k, newValue) then Ok(None)
            else Ok(Some(Replace(OldNewValue(None, Some(newValue)))))
      case Update(u) =>
        if k !in prevState then Err(UpdateNonExisting)
        else if k !in nextState then Ok(None)
        else
          var innerFirst := FirstAt(first, k);
          if innerFirst.Some? && innerFirst.value.Replace? then Ok(None)
          else if VetoesUpdate(policy.cancelUpdate, k, prevState[k], nextState[k]) then Ok(None)
          else
            match innerTransform(k, if innerFirst.Some? then Some(innerFirst.value.update) else None, u, prevState[k], nextState[k])
            case Err(e) => Err(e)
            case Ok(t) => Ok(if t.Some? then Some(Update(t.value)) else None)
  }

  function ServerTransformedMap<S, C, R, TF, TS>(prevState: map<DualKey, S>, nextState: map<DualKey, S>, first: Option<map<DualKey, RecordElement<R, TF>>>,
                                                 second: map<DualKey, UpElement<C, TS>>,
                                                 innerTransform: (DualKey, Option<TF>, TS, S, S) -> Result<Option<TF>>,
                                                 toServerState: (C, DualKey) -> S, policy: CancellationPolicy<S>)
    : (r: map<DualKey, TwoWayElement<S, TF>>)
    ensures forall k :: Get(r, k) == (if k in second && ServerTransformAt(prevState, nextState, first, k, second[k], innerTransform, toServerState, policy).Ok? then ServerTransformAt(prevState, nextState, first, k, second[k], innerTransform, toServerState, policy).value else None)
  {
    map k | k in second && ServerTransformAt(prevState, nextState, first, k, second[k], innerTransform, toServerState, policy).Ok?
                        && ServerTransformAt(prevState, nextState, first, k, second[k], innerTransform, toServerState, policy).value.Some?
      :: ServerTransformAt(prevState, nextState, first, k, second[k], innerTransform, toServerState, policy).value.value
  }

  /** The specification of `serverTransform`: an absent client operation
      gives nothing; otherwise the result fails exactly when some client
      entry fails, and on success holds the transformed entries, normalised
      to no operation when none survives. */
  ghost function ServerTransformed<S, C, R, TF, TS>(prevState: map<DualKey, S>, nextState: map<DualKey, S>, first: Option<map<DualKey, RecordElement<R, TF>>>,
                                                    second: Option<map<DualKey, UpElement<C, TS>>>,
                                                    innerTransform: (DualKey, Option<TF>, TS, S, S) -> Result<Option<TF>>,
                                                    toServerState: (C, DualKey) -> S, policy: CancellationPolicy<S>)
    : (r: Result<Option<map<DualKey, TwoWayElement<S, TF>>>>)
    ensures second.None? ==> r == Ok(None)
    ensures second.Some? ==> (r.Err? <==> exists k :: k in second.value && ServerTransformAt(prevState, nextState, first, k, second.value[k], innerTransform, toServerState, policy).Err?)
    ensures r.Err? ==> second.Some? && exists k :: k in second.value && ServerTransformAt(prevState, nextState, first, k, second.value[k], innerTransform, toServerState, policy) == Err(r.error)
    ensures r.Ok? && r.value.Some? ==> r.value.value != map[]
    ensures second.Some? && r.Ok? ==> forall k :: (if r.value.Some? then Get(r.value.value, k) else None) == (if k in second.value then ServerTransformAt(prevState, nextState, first, k, second.value[k], innerTransform, toServerState, policy).value else None)
  {
    if second.None? then Ok(None)
    else if exists k :: k in second.value && ServerTransformAt(prevState, nextState, first, k, second.value[k], innerTransform, toServerState, policy).Err? then
      var k :| k in second.value && ServerTransformAt(prevState, nextState, first, k, second.value[k], innerTransform, toServerState, policy).Err?;
      Err(ServerTransformAt(prevState, nextState, first, k, second.value[k], innerTransform, toServerState, policy).error)
    else
      var m := ServerTransformedMap(prevState, nextState, first, second.value, innerTransform, toServerState, policy);
      assert m == map[] ==> forall k :: Get(m, k).None?;
      Ok(AsOperation(m))
  }

  /** One client entry of `serverTransform`, in the source's order of checks. */
  method ServerTransformEntry<S, C, R, TF, TS>(prevState: map<DualKey, S>, nextState: map<DualKey, S>, first: Option<map<DualKey, RecordElement<R, TF>>>,
                                               k: DualKey, e: UpElement<C, TS>,
                                               innerTransform: (DualKey, Option<TF>, TS, S, S) -> Result<Option<TF>>,
                                               toServerState: (C, DualKey) -> S, policy: CancellationPolicy<S>)
    returns (r: Result<Option<TwoWayElement<S, TF>>>)
    ensures r == ServerTransformAt(prevState, nextState, first, k, e, innerTransform, toServerState, policy)
  {
    if !KeyValidation.IsValidKey(k.0) || !KeyValidation.IsValidKey(k.1) {
      return Err(InvalidKey);
    }
    match e {
      case Replace(replace) =>
        var innerPrevState := Get(prevState, k);
        var innerNextState := Get(nextState, k);
        if replace.newValue.None? {
          // requested to remove
          if innerPrevState.None? {
            return Err(RemoveNonExisting);
          }
          if innerNextState.None? {
            return Ok(None);
          }
          if policy.cancelRemove.Some? && policy.cancelRemove.value(k, innerNextState.value) {
            return Ok(None);
          }
          return Ok(Some(Replace(OldNewValue(innerNextState, None))));
        }
        // requested to add
        if innerPrevState.Some? {
          return Err(AddExisting);
        }
        if innerNextState.Some? {
          return Ok(None);
        }
        var newValue := toServerState(replace.newValue.value, k);
        if policy.cancelCreate.Some? && policy.cancelCreate.value(k, newValue) {
          return Ok(None);
        }
        return Ok(Some(Replace(OldNewValue(None, Some(newValue)))));
      case Update(update) =>
        var innerPrevState := Get(prevState, k);
        var innerNextState := Get(nextState, k);
        var innerFirst := FirstAt(first, k);
        if innerPrevState.None? {
          return Err(UpdateNonExisting);
        }
        if innerNextState.None? {
          return Ok(None);
        }
        if innerFirst.Some? && innerFirst.value.Replace? {
          return Ok(None);
        }
        if policy.cancelUpdate.Some? && policy.cancelUpdate.value(k, innerPrevState.value, innerNextState.value) {
          return Ok(None);
        }
        var transformed := innerTransform(k, if innerFirst.Some? then Some(innerFirst.value.update) else None, update, innerPrevState.value, innerNextState.value);
        if transformed.Err? {
          return Err(transformed.error);
        }
        if transformed.value.Some? {
          return Ok(Some(Update(transformed.value.value)));
        }
        return Ok(None);
    }
  }

  /** Transforms a client's up-operation, made against `prevState`, so that
      it applies after the server's own operation `first`, which led to
      `nextState`. */
  method ServerTransform<S, C, R, TF, TS>(prevState: map<DualKey, S>, nextState: map<DualKey, S>, first: Option<map<DualKey, RecordElement<R, TF>>>,
                                          second: Option<map<DualKey, UpElement<C, TS>>>,
                                          innerTransform: (DualKey, Option<TF>, TS, S, S) -> Result<Option<TF>>,
                                          toServerState: (C, DualKey) -> S, policy: CancellationPolicy<S>)
    returns (r: Result<Option<map<DualKey, TwoWayElement<S, TF>>>>)
    ensures r.Ok? <==> ServerTransformed(prevState, nextState, first, second, innerTransform, toServerState, policy).Ok?
    ensures r.Ok? ==> r == ServerTransformed(prevState, nextState, first, second, innerTransform, toServerState, policy)
    ensures r.Err? ==> second.Some? && exists k :: k in second.value && ServerTransformAt(prevState, nextState, first, k, second.value[k], innerTransform, toServerState, policy) == Err(r.error)
  {
    if second.None? {
      return Ok(None);
    }
    var op := second.value;
    var result: map<DualKey, TwoWayElement<S, TF>> := map[];
    var todo := op.Keys;
    while todo != {}
      invariant todo <= op.Keys
      invariant forall k :: k in op && k !in todo ==> ServerTransformAt(prevState, nextState, first, k, op[k], innerTransform, toServerState, policy).Ok?
      invariant forall k :: Get(result, k) ==
                            (if k in op && k !in todo then ServerTransformAt(prevState, nextState, first, k, op[k], innerTransform, toServerState, policy).value else None)
      decreases todo
    {
      var k :| k in todo;
      todo := todo - {k};
      var entry := ServerTransformEntry(prevState, nextState, first, k, op[k], innerTransform, toServerState, policy);
      if entry.Err? {
        return Err(entry.error);
      }
      if entry.value.Some? {
        result := result[k := entry.value.value];
      }
    }
    ServerTransformedFromEntries(prevState, nextState, first, op, result, innerTransform, toServerState, policy);
    return Ok(AsOperation(result));
  }

  /** When every client entry succeeds, the specification's result is the
      collection of the entries' answers, normalised. */
  lemma ServerTransformedFromEntries<S, C, R, TF, TS>(prevState: map<DualKey, S>, nextState: map<DualKey, S>, first: Option<map<DualKey, RecordElement<R, TF>>>,
                                                      op: map<DualKey, UpElement<C, TS>>, result: map<DualKey, TwoWayElement<S, TF>>,
                                                      innerTransform: (DualKey, Option<TF>, TS, S, S) -> Result<Option<TF>>,
                                                      toServerState: (C, DualKey) -> S, policy: CancellationPolicy<S>)
    requires forall k :: k in op ==> ServerTransformAt(prevState, nextState, first, k, op[k], innerTransform, toServerState, policy).Ok?
    requires forall k :: Get(result, k) == (if k in op then ServerTransformAt(prevState, nextState, first, k, op[k], innerTransform, toServerState, policy).value else None)
    ensures ServerTransformed(prevState, nextState, first, Some(op), innerTransform, toServerState, policy) == Ok(AsOperation(result))
  {
    GetExtensional(result, ServerTransformedMap(prevState, nextState, first, op, innerTransform, toServerState, policy));
  }

  /** The server transform fails exactly when some client entry is refused
      outright or its update reaches an inner transform that fails. */
  lemma ServerTransformFailsIff<S, C, R, TF, TS>(prevState: map<DualKey, S>, nextState: map<DualKey, S>, first: Option<map<DualKey, RecordElement<R, TF>>>,
                                                 second: map<DualKey, UpElement<C, TS>>,
                                                 innerTransform: (DualKey, Option<TF>, TS, S, S) -> Result<Option<TF>>,
                                                 toServerState: (C, DualKey) -> S, policy: CancellationPolicy<S>)
    ensures ServerTransformed(prevState, nextState, first, Some(second), innerTransform, toServerState, policy).Err? <==>
      exists k :: k in second && (Rejected(prevState, k, second[k]) || InnerTransformFails(prevState, nextState, first, k, second[k], innerTransform, policy))
  {
    forall k | k in second
      ensures ServerTransformAt(prevState, nextState, first, k, second[k], innerTransform, toServerState, policy).Err? <==>
              Rejected(prevState, k, second[k]) || InnerTransformFails(prevState, nextState, first, k, second[k], innerTransform, policy)
    {
    }
  }

  /** A client update that passes every check and then fails in the inner transform. */
  predicate InnerTransformFails<S, C, R, TF, TS>(prevState: map<DualKey, S>, nextState: map<DualKey, S>, first: Option<map<DualKey, RecordElement<R, TF>>>,
                                                 k: DualKey, e: UpElement<C, TS>,
                                                 innerTransform: (DualKey, Option<TF>, TS, S, S) -> Result<Option<TF>>, policy: CancellationPolicy<S>)
  {
    !Rejected(prevState, k, e) && e.Update? && k in nextState
    && !(FirstAt(first, k).Some? && FirstAt(first, k).value.Replace?)
    && !VetoesUpdate(policy.cancelUpdate, k, prevState[k], nextState[k])
    && innerTransform(k, if FirstAt(first, k).Some? then Some(FirstAt(first, k).value.update) else None, e.update, prevState[k], nextState[k]).Err?
  }

  /** An accepted client entry `e` at `k` and the server's answer `out`:
      an accepted removal deletes the element the server holds now,
      recording it as the old value; an accepted creation adds the converted
      element at a key free in both states; an accepted update is the inner
      transform's answer for a key present in both states and not replaced
      by the server. No veto applied to any of them. */
  ghost predicate AcceptedEntry<S, C, R, TF, TS>(prevState: map<DualKey, S>, nextState: map<DualKey, S>, first: Option<map<DualKey, RecordElement<R, TF>>>,
                                           k: DualKey, e: UpElement<C, TS>, out: TwoWayElement<S, TF>,
                                           innerTransform: (DualKey, Option<TF>, TS, S, S) -> Result<Option<TF>>,
                                           toServerState: (C, DualKey) -> S, policy: CancellationPolicy<S>)
  {
    match e
    case Replace(req) =>
      if req.newValue.None? then
        k in prevState && k in nextState && !Vetoes(policy.cancelRemove, k, nextState[k])
        && out == Replace(OldNewValue(Some(nextState[k]), None))
      else
        k !in prevState && k !in nextState && !Vetoes(policy.cancelCreate, k, toServerState(req.newValue.value, k))
        && out == Replace(OldNewValue(None, Some(toServerState(req.newValue.value, k))))
    case Update(u) =>
      k in prevState && k in nextState && !(FirstAt(first, k).Some? && FirstAt(first, k).value.Replace?)
      && !VetoesUpdate(policy.cancelUpdate, k, prevState[k], nextState[k])
      && out.Update?
      && innerTransform(k, if FirstAt(first, k).Some? then Some(FirstAt(first, k).value.update) else None, u, prevState[k], nextState[k]) == Ok(Some(out.update))
  }

  /** A client entry made moot by the server's history or vetoed: a removal
      of an element the server has already removed, a creation of a key the
      server has already filled, an update of an element the server has
      removed or replaced, and every entry a veto cancels. */
  predicate Moot<S, C, R, TF, TS>(prevState: map<DualKey, S>, nextState: map<DualKey, S>, first: Option<map<DualKey, RecordElement<R, TF>>>,
                                  k: DualKey, e: UpElement<C, TS>, toServerState: (C, DualKey) -> S, policy: CancellationPolicy<S>)
  {
    match e
    case Replace(req) =>
      if req.newValue.None? then k !in nextState || Vetoes(policy.cancelRemove, k, nextState[k])
      else k in nextState || Vetoes(policy.cancelCreate, k, toServerState(req.newValue.value, k))
    case Update(_) =>
      k !in nextState || (FirstAt(first, k).Some? && FirstAt(first, k).value.Replace?)
      || (k in prevState && VetoesUpdate(policy.cancelUpdate, k, prevState[k], nextState[k]))
  }

  /** What the server accepts: every entry of the result answers a client
      entry with a valid key, as `AcceptedEntry` describes. */
  lemma ServerTransformAccepted<S, C, R, TF, TS>(prevState: map<DualKey, S>, nextState: map<DualKey, S>, first: Option<map<DualKey, RecordElement<R, TF>>>,
                                                 second: Option<map<DualKey, UpElement<C, TS>>>,
                                                 innerTransform: (DualKey, Option<TF>, TS, S, S) -> Result<Option<TF>>,
                                                 toServerState: (C, DualKey) -> S, policy: CancellationPolicy<S>)
    requires ServerTransformed(prevState, nextState, first, second, innerTransform, toServerState, policy).Ok?
    ensures var r := ServerTransformed(prevState, nextState, first, second, innerTransform, toServerState, policy).value;
      r.Some? ==> forall k :: k in r.value ==>
        second.Some? && k in second.value && KeyValidation.IsValidKey(k.0) && KeyValidation.IsValidKey(k.1)
        && AcceptedEntry(prevState, nextState, first, k, second.value[k], r.value[k], innerTransform, toServerState, policy)
  {
    var r := ServerTransformed(prevState, nextState, first, second, innerTransform, toServerState, policy).value;
    if r.Some? {
      forall k | k in r.value
        ensures second.Some? && k in second.value && KeyValidation.IsValidKey(k.0) && KeyValidation.IsValidKey(k.1)
        ensures AcceptedEntry(prevState, nextState, first, k, second.value[k], r.value[k], innerTransform, toServerState, policy)
      {
        assert Get(r.value, k).Some?;
        ServerTransformAtAccepted(prevState, nextState, first, k, second.value[k], r.value[k], innerTransform, toServerState, policy);
      }
    }
  }

  /** Per entry: a client entry that the server answers has valid keys, and
      the answer is as `AcceptedEntry` describes. */
  lemma ServerTransformAtAccepted<S, C, R, TF, TS>(prevState: map<DualKey, S>, nextState: map<DualKey, S>, first: Option<map<DualKey, RecordElement<R, TF>>>,
                                                   k: DualKey, e: UpElement<C, TS>, out: TwoWayElement<S, TF>,
                                                   innerTransform: (DualKey, Option<TF>, TS, S, S) -> Result<Option<TF>>,
                                                   toServerState: (C, DualKey) -> S, policy: CancellationPolicy<S>)
    requires ServerTransformAt(prevState, nextState, first, k, e, innerTransform, toServerState, policy) == Ok(Some(out))
    ensures KeyValidation.IsValidKey(k.0) && KeyValidation.IsValidKey(k.1)
    ensures AcceptedEntry(prevState, nextState, first, k, e, out, innerTransform, toServerState, policy)
  {
  }

  /** The server drops moot and vetoed client entries silently. */
  lemma ServerTransformDropped<S, C, R, TF, TS>(prevState: map<DualKey, S>, nextState: map<DualKey, S>, first: Option<map<DualKey, RecordElement<R, TF>>>,
                                                second: Option<map<DualKey, UpElement<C, TS>>>,
                                                innerTransform: (DualKey, Option<TF>, TS, S, S) -> Result<Option<TF>>,
                                                toServerState: (C, DualKey) -> S, policy: CancellationPolicy<S>, k: DualKey)
    requires ServerTransformed(prevState, nextState, first, second, innerTransform, toServerState, policy).Ok?
    requires second.Some? && k in second.value
    requires Moot(prevState, nextState, first, k, second.value[k], toServerState, policy)
    ensures var r := ServerTransformed(prevState, nextState, first, second, innerTransform, toServerState, policy).value;
      r.None? || k !in r.value
  {
    var r := ServerTransformed(prevState, nextState, first, second, innerTransform, toServerState, policy).value;
    assert (if r.Some? then Get(r.value, k) else None) == ServerTransformAt(prevState, nextState, first, k, second.value[k], innerTransform, toServerState, policy).value;
  }

  /** A two-way operation is consistent with a state when each replacement
      records as old value what the state holds and changes presence (a
      creation of a free key or a removal of a present one), and each update
      targets a present key. */
  ghost predicate ConsistentWith<S, T>(state: map<DualKey, S>, op: map<DualKey, TwoWayElement<S, T>>) {
    forall k :: k in op ==>
      match op[k]
      case Replace(r) => r.oldValue == Get(state, k) && r.oldValue.None? != r.newValue.None?
      case Update(_) => k in state
  }

  /** The server's answer is consistent with its current state, so that it
      applies there and its down half undoes it. */
  lemma ServerTransformConsistent<S, C, R, TF, TS>(prevState: map<DualKey, S>, nextState: map<DualKey, S>, first: Option<map<DualKey, RecordElement<R, TF>>>,
                                                   second: Option<map<DualKey, UpElement<C, TS>>>,
                                                   innerTransform: (DualKey, Option<TF>, TS, S, S) -> Result<Option<TF>>,
                                                   toServerState: (C, DualKey) -> S, policy: CancellationPolicy<S>)
    requires ServerTransformed(prevState, nextState, first, second, innerTransform, toServerState, policy).Ok?
    ensures var r := ServerTransformed(prevState, nextState, first, second, innerTransform, toServerState, policy).value;
      r.Some? ==> ConsistentWith(nextState, r.value)
  {
    ServerTransformAccepted(prevState, nextState, first, second, innerTransform, toServerState, policy);
  }

  // ---------------------------------------------------------------------
  // clientTransform

  /** The entry of key `k` in an optional operation. */
  function Slot<X>(op: Option<map<DualKey, X>>, k: DualKey): (r: Option<X>)
    ensures r.Some? <==> op.Some? && k in op.value
    ensures r.Some? ==> r.value == op.value[k]
  {
    if op.Some? then Get(op.value, k) else None
  }

  /** Two pending entries for the same key, `first` taking precedence. Two
      creations merge into an update from `second`'s element to `first`'s
      (nothing when they agree); any other pair of replacements cancels out;
      a replacement by `first` beats an update by `second`; an update by
      `first` yields to a removal by `second` and fails against a creation;
      two updates are transformed by the element's own peer transform. */
  function TransformElement<S, U>(first: UpElement<S, U>, second: UpElement<S, U>,
                                  innerTransform: (U, U) -> Result<Primes<U, U>>, innerDiff: (S, S) -> Option<U>)
    : (r: Result<Primes<UpElement<S, U>, UpElement<S, U>>>)
    ensures r.Err? <==> (first.Update? && second.Replace? && second.replace.newValue.Some?)
                        || (first.Update? && second.Update? && innerTransform(first.update, second.update).Err?)
    ensures first.Replace? && r.Ok? ==> r.value.secondPrime.None?
    ensures first.Replace? && second.Update? ==> r == Ok(Primes(Some(first), None))
    ensures first.Replace? && second.Replace? ==>
      r.Ok? && (r.value.firstPrime.Some? <==> first.replace.newValue.Some? && second.replace.newValue.Some?
                                              && innerDiff(second.replace.newValue.value, first.replace.newValue.value).Some?)
    ensures first.Update? && second.Replace? && r.Ok? ==> r.value == Primes(None, Some(Replace(NewValue(None))))
    ensures first.Replace? && second.Replace? && r.value.firstPrime.Some? ==>
      r.value.firstPrime.value == Update(innerDiff(second.replace.newValue.value, first.replace.newValue.value).value)
    ensures first.Update? && second.Update? && r.Ok? ==>
      r.value.firstPrime.Some? == innerTransform(first.update, second.update).value.firstPrime.Some?
      && r.value.secondPrime.Some? == innerTransform(first.update, second.update).value.secondPrime.Some?
    ensures first.Update? && second.Update? && r.Ok? && r.value.firstPrime.Some? ==>
      r.value.firstPrime.value == Update(innerTransform(first.update, second.update).value.firstPrime.value)
    ensures first.Update? && second.Update? && r.Ok? && r.value.secondPrime.Some? ==>
      r.value.secondPrime.value == Update(innerTransform(first.update, second.update).value.secondPrime.value)
  {
    match first
    case Replace(r1) =>
      (match second
       case Replace(r2) =>
         if r1.newValue.Some? && r2.newValue.Some? then
           var d := innerDiff(r2.newValue.value, r1.newValue.value);
           if d.None? then Ok(Primes(None, None)) else Ok(Primes(Some(Update(d.value)), None))
         else
           Ok(Primes(None, None))
       case Update(_) => Ok(Primes(Some(first), None)))
    case Update(u1) =>
      match second
      case Replace(r2) =>
        if r2.newValue.Some? then Err(ElementAlreadyExists)
        else Ok(Primes(None, Some(Replace(NewValue(None)))))
      case Update(u2) =>
        match innerTransform(u1, u2)
        case Err(err) => Err(err)
        case Ok(p) =>
          Ok(Primes(if p.firstPrime.Some? then Some(Update(p.firstPrime.value)) else None,
                    if p.secondPrime.Some? then Some(Update(p.secondPrime.value)) else None))
  }

  /** The primes at one key: an entry on one side only passes through. */
  function ClientTransformAt<S, U>(first: Option<UpElement<S, U>>, second: Option<UpElement<S, U>>,
                                   innerTransform: (U, U) -> Result<Primes<U, U>>, innerDiff: (S, S) -> Option<U>)
    : Result<Primes<UpElement<S, U>, UpElement<S, U>>>
  {
    if first.None? then Ok(Primes(None, second))
    else if second.None? then Ok(Primes(first, None))
    else TransformElement(first.value, second.value, innerTransform, innerDiff)
  }

  function FirstPrimeMap<S, U>(first: map<DualKey, UpElement<S, U>>, second: map<DualKey, UpElement<S, U>>,
                               innerTransform: (U, U) -> Result<Primes<U, U>>, innerDiff: (S, S) -> Option<U>)
    : (r: map<DualKey, UpElement<S, U>>)
    ensures forall k :: Get(r, k) == (if ClientTransformAt(Get(first, k), Get(second, k), innerTransform, innerDiff).Ok? then ClientTransformAt(Get(first, k), Get(second, k), innerTransform, innerDiff).value.firstPrime else None)
  {
    map k | k in first.Keys + second.Keys && ClientTransformAt(Get(first, k), Get(second, k), innerTransform, innerDiff).Ok?
                                          && ClientTransformAt(Get(first, k), Get(second, k), innerTransform, innerDiff).value.firstPrime.Some?
      :: ClientTransformAt(Get(first, k), Get(second, k), innerTransform, innerDiff).value.firstPrime.value
  }

  function SecondPrimeMap<S, U>(first: map<DualKey, UpElement<S, U>>, second: map<DualKey, UpElement<S, U>>,
                                innerTransform: (U, U) -> Result<Primes<U, U>>, innerDiff: (S, S) -> Option<U>)
    : (r: map<DualKey, UpElement<S, U>>)
    ensures forall k :: Get(r, k) == (if ClientTransformAt(Get(first, k), Get(second, k), innerTransform, innerDiff).Ok? then ClientTransformAt(Get(first, k), Get(second, k), innerTransform, innerDiff).value.secondPrime else None)
  {
    map k | k in first.Keys + second.Keys && ClientTransformAt(Get(first, k), Get(second, k), innerTransform, innerDiff).Ok?
                                          && ClientTransformAt(Get(first, k), Get(second, k), innerTransform, innerDiff).value.secondPrime.Some?
      :: ClientTransformAt(Get(first, k), Get(second, k), innerTransform, innerDiff).value.secondPrime.value
  }

  /** The specification of `clientTransform`: with either side absent both
      pass through unchanged; otherwise the transform fails exactly when the
      entries of some common key fail, and on success each prime holds, key
      by key, the primes of the entries, normalised to no operation when
      empty. */
  ghost function ClientTransformed<S, U>(first: Option<map<DualKey, UpElement<S, U>>>, second: Option<map<DualKey, UpElement<S, U>>>,
                                         innerTransform: (U, U) -> Result<Primes<U, U>>, innerDiff: (S, S) -> Option<U>)
    : (r: Result<Primes<map<DualKey, UpElement<S, U>>, map<DualKey, UpElement<S, U>>>>)
    ensures first.None? || second.None? ==> r == Ok(Primes(first, second))
    ensures first.Some? && second.Some? ==>
      (r.Err? <==> exists k :: k in first.value && k in second.value && TransformElement(first.value[k], second.value[k], innerTransform, innerDiff).Err?)
    ensures r.Err? ==> first.Some? && second.Some? && exists k :: k in first.value && k in second.value && TransformElement(first.value[k], second.value[k], innerTransform, innerDiff) == Err(r.error)
    ensures first.Some? && second.Some? && r.Ok? ==>
      r.value.firstPrime != Some(map[]) && r.value.secondPrime != Some(map[])
      && forall k :: Slot(r.value.firstPrime, k) == ClientTransformAt(Get(first.value, k), Get(second.value, k), innerTransform, innerDiff).value.firstPrime
                     && Slot(r.value.secondPrime, k) == ClientTransformAt(Get(first.value, k), Get(second.value, k), innerTransform, innerDiff).value.secondPrime
  {
    if first.None? || second.None? then Ok(Primes(first, second))
    else if exists k :: k in first.value && k in second.value && TransformElement(first.value[k], second.value[k], innerTransform, innerDiff).Err? then
      var k :| k in first.value && k in second.value && TransformElement(first.value[k], second.value[k], innerTransform, innerDiff).Err?;
      Err(TransformElement(first.value[k], second.value[k], innerTransform, innerDiff).error)
    else
      var f := FirstPrimeMap(first.value, second.value, innerTransform, innerDiff);
      var g := SecondPrimeMap(first.value, second.value, innerTransform, innerDiff);
      assert forall k :: ClientTransformAt(Get(first.value, k), Get(second.value, k), innerTransform, innerDiff).Ok?;
      Ok(Primes(AsOperation(f), AsOperation(g)))
  }

  /** Transforms two concurrent up-operations against each other, walking
      the keys of both. The source keeps walking after an error but skips
      every further key, which is the early return here. */
  method ClientTransform<S, U>(first: Option<map<DualKey, UpElement<S, U>>>, second: Option<map<DualKey, UpElement<S, U>>>,
                               innerTransform: (U, U) -> Result<Primes<U, U>>, innerDiff: (S, S) -> Option<U>)
    returns (r: Result<Primes<map<DualKey, UpElement<S, U>>, map<DualKey, UpElement<S, U>>>>)
    ensures r.Ok? <==> ClientTransformed(first, second, innerTransform, innerDiff).Ok?
    ensures r.Ok? ==> r == ClientTransformed(first, second, innerTransform, innerDiff)
    ensures r.Err? ==> first.Some? && second.Some? && exists k :: k in first.value && k in second.value && TransformElement(first.value[k], second.value[k], innerTransform, innerDiff) == Err(r.error)
  {
    if first.None? || second.None? {
      return Ok(Primes(first, second));
    }
    var left := first.value;
    var right := second.value;
    var firstPrime: map<DualKey, UpElement<S, U>> := map[];
    var secondPrime: map<DualKey, UpElement<S, U>> := map[];
    var todo := left.Keys + right.Keys;
    while todo != {}
      invariant todo <= left.Keys + right.Keys
      invariant forall k :: k in left && k in right && k !in todo ==> TransformElement(left[k], right[k], innerTransform, innerDiff).Ok?
      invariant forall k :: Get(firstPrime, k) ==
                            (if k !in todo then ClientTransformAt(Get(left, k), Get(right, k), innerTransform, innerDiff).value.firstPrime else None)
      invariant forall k :: Get(secondPrime, k) ==
                            (if k !in todo then ClientTransformAt(Get(left, k), Get(right, k), innerTransform, innerDiff).value.secondPrime else None)
      decreases todo
    {
      var k :| k in todo;
      todo := todo - {k};
      if k in left && k in right {
        var xform := TransformElement(left[k], right[k], innerTransform, innerDiff);
        if xform.Err? {
          return Err(xform.error);
        }
        if xform.value.firstPrime.Some? {
          firstPrime := firstPrime[k := xform.value.firstPrime.value];
        }
        if xform.value.secondPrime.Some? {
          secondPrime := secondPrime[k := xform.value.secondPrime.value];
        }
      } else if k in left {
        firstPrime := firstPrime[k := left[k]];
      } else {
        secondPrime := secondPrime[k := right[k]];
      }
    }
    GetExtensional(firstPrime, FirstPrimeMap(left, right, innerTransform, innerDiff));
    GetExtensional(secondPrime, SecondPrimeMap(left, right, innerTransform, innerDiff));
    return Ok(Primes(AsOperation(firstPrime), AsOperation(secondPrime)));
  }

  /** An element update that may be absent, applied to an element. */
  function ApplyOptional<S, U>(k: DualKey, state: S, u: Option<U>, innerApply: (DualKey, U, S) -> Result<S>): Result<S> {
    if u.None? then Ok(state) else innerApply(k, u.value, state)
  }

  /** The element's peer transform converges (TP1): when both updates apply
      to an element, each followed by the other's prime applies and both
      orders give the same element. */
  ghost predicate ClientTransformLaw<S(!new), U(!new)>(innerTransform: (U, U) -> Result<Primes<U, U>>, innerApply: (DualKey, U, S) -> Result<S>)
  {
    forall k, x, u1, u2 :: innerApply(k, u1, x).Ok? && innerApply(k, u2, x).Ok? && innerTransform(u1, u2).Ok? ==>
      ApplyOptional(k, innerApply(k, u1, x).value, innerTransform(u1, u2).value.secondPrime, innerApply).Ok?
      && ApplyOptional(k, innerApply(k, u1, x).value, innerTransform(u1, u2).value.secondPrime, innerApply)
         == ApplyOptional(k, innerApply(k, u2, x).value, innerTransform(u1, u2).value.firstPrime, innerApply)
  }

  /** The keyless element diff of the peer transform: empty only between
      equal elements, and otherwise leading from the first to the second. */
  ghost predicate ClientDiffLaw<S(!new), U>(innerDiff: (S, S) -> Option<U>, innerApply: (DualKey, U, S) -> Result<S>)
  {
    (forall a, b :: innerDiff(a, b).None? ==> a == b)
    && (forall k, a, b :: innerDiff(a, b).Some? ==> innerApply(k, innerDiff(a, b).value, a) == Ok(b))
  }

  /** An up-operation that makes sense on `state`: it creates only absent
      keys and removes or updates only present ones. */
  predicate WellFormedOn<S, U>(state: map<DualKey, S>, op: Option<map<DualKey, UpElement<S, U>>>) {
    op.Some? ==> forall k :: k in op.value ==>
      if op.value[k].Replace? then op.value[k].replace.newValue.Some? == (k !in state) else k in state
  }

  /** The slot of key `k` after an optional entry. */
  function StepAt<S, U>(state: map<DualKey, S>, k: DualKey, e: Option<UpElement<S, U>>, innerApply: (DualKey, U, S) -> Result<S>): Result<Option<S>> {
    if e.None? then Ok(Get(state, k)) else ApplyAt(state, k, e.value, innerApply)
  }

  /** A forward entry only looks at its own key of the state. */
  lemma ApplyAtIsLocal<S, U>(a: map<DualKey, S>, b: map<DualKey, S>, k: DualKey, e: UpElement<S, U>, innerApply: (DualKey, U, S) -> Result<S>)
    requires Get(a, k) == Get(b, k)
    ensures ApplyAt(a, k, e, innerApply) == ApplyAt(b, k, e, innerApply)
  {
    if e.Update? {
      assert (k in a) == Get(a, k).Some? && (k in b) == Get(b, k).Some?;
      if k in a { assert a[k] == Get(a, k).value == b[k]; }
    }
  }

  /** A successful application leaves at every key what the key's entry leaves. */
  lemma AppliedSlot<S, U>(state: map<DualKey, S>, op: Option<map<DualKey, UpElement<S, U>>>, innerApply: (DualKey, U, S) -> Result<S>, k: DualKey)
    requires Applied(state, op, innerApply).Ok?
    ensures StepAt(state, k, Slot(op, k), innerApply).Ok?
    ensures Get(Applied(state, op, innerApply).value, k) == StepAt(state, k, Slot(op, k), innerApply).value
  {
  }

  /** Per key: the primes of two well-formed entries converge. */
  lemma ClientTransformConvergesAt<S(!new), U(!new)>(state: map<DualKey, S>, first: map<DualKey, UpElement<S, U>>, second: map<DualKey, UpElement<S, U>>,
                                                     innerTransform: (U, U) -> Result<Primes<U, U>>, innerDiff: (S, S) -> Option<U>,
                                                     innerApply: (DualKey, U, S) -> Result<S>, k: DualKey)
    requires ClientTransformLaw(innerTransform, innerApply) && ClientDiffLaw(innerDiff, innerApply)
    requires WellFormedOn(state, Some(first)) && WellFormedOn(state, Some(second))
    requires Applied(state, Some(first), innerApply).Ok? && Applied(state, Some(second), innerApply).Ok?
    requires ClientTransformAt(Get(first, k), Get(second, k), innerTransform, innerDiff).Ok?
    ensures var p := ClientTransformAt(Get(first, k), Get(second, k), innerTransform, innerDiff).value;
      var afterFirst := Applied(state, Some(first), innerApply).value;
      var afterSecond := Applied(state, Some(second), innerApply).value;
      StepAt(afterFirst, k, p.secondPrime, innerApply).Ok? && StepAt(afterSecond, k, p.firstPrime, innerApply).Ok?
      && StepAt(afterFirst, k, p.secondPrime, innerApply) == StepAt(afterSecond, k, p.firstPrime, innerApply)
  {
    var p := ClientTransformAt(Get(first, k), Get(second, k), innerTransform, innerDiff).value;
    var afterFirst := Applied(state, Some(first), innerApply).value;
    var afterSecond := Applied(state, Some(second), innerApply).value;
    AppliedSlot(state, Some(first), innerApply, k);
    AppliedSlot(state, Some(second), innerApply, k);
    if k !in first {
      if k in second {
        ApplyAtIsLocal(afterFirst, state, k, second[k], innerApply);
      }
    } else if k !in second {
      ApplyAtIsLocal(afterSecond, state, k, first[k], innerApply);
    } else {
      match first[k] {
        case Replace(r1) =>
          match second[k] {
            case Replace(r2) =>
              if r1.newValue.Some? && r2.newValue.Some? {
                var d := innerDiff(r2.newValue.value, r1.newValue.value);
                if d.Some? {
                  assert p == Primes(Some(Update(d.value)), None);
                  assert Get(afterSecond, k) == r2.newValue && afterSecond[k] == r2.newValue.value;
                  assert innerApply(k, d.value, r2.newValue.value) == Ok(r1.newValue.value);
                }
              }
            case Update(u2) =>
          }
        case Update(u1) =>
          match second[k] {
            case Replace(r2) =>
            case Update(u2) =>
              var x := state[k];
              assert innerApply(k, u1, x).Ok? && innerApply(k, u2, x).Ok? && innerTransform(u1, u2).Ok?;
          }
      }
    }
  }

  /** Convergence of the peer transform (TP1): for two well-formed
      concurrent operations that both apply to `state`, applying `first`
      then `secondPrime` and applying `second` then `firstPrime` both
      succeed and reach the same collection. */
  lemma ClientTransformConverges<S(!new), U(!new)>(state: map<DualKey, S>, first: Option<map<DualKey, UpElement<S, U>>>, second: Option<map<DualKey, UpElement<S, U>>>,
                                                   innerTransform: (U, U) -> Result<Primes<U, U>>, innerDiff: (S, S) -> Option<U>,
                                                   innerApply: (DualKey, U, S) -> Result<S>)
    requires ClientTransformLaw(innerTransform, innerApply) && ClientDiffLaw(innerDiff, innerApply)
    requires WellFormedOn(state, first) && WellFormedOn(state, second)
    requires Applied(state, first, innerApply).Ok? && Applied(state, second, innerApply).Ok?
    requires ClientTransformed(first, second, innerTransform, innerDiff).Ok?
    ensures var p := ClientTransformed(first, second, innerTransform, innerDiff).value;
      var viaFirst := Applied(Applied(state, first, innerApply).value, p.secondPrime, innerApply);
      var viaSecond := Applied(Applied(state, second, innerApply).value, p.firstPrime, innerApply);
      viaFirst.Ok? && viaSecond.Ok? && viaFirst == viaSecond
  {
    if first.Some? && second.Some? {
      var p := ClientTransformed(first, second, innerTransform, innerDiff).value;
      var afterFirst := Applied(state, first, innerApply).value;
      var afterSecond := Applied(state, second, innerApply).value;
      forall k ensures ClientTransformAt(Get(first.value, k), Get(second.value, k), innerTransform, innerDiff).Ok? {
        if k in first.value && k in second.value {
          assert TransformElement(first.value[k], second.value[k], innerTransform, innerDiff).Ok?;
        }
      }
      forall k ensures StepAt(afterFirst, k, Slot(p.secondPrime, k), innerApply).Ok? && StepAt(afterSecond, k, Slot(p.firstPrime, k), innerApply).Ok?
                       && StepAt(afterFirst, k, Slot(p.secondPrime, k), innerApply) == StepAt(afterSecond, k, Slot(p.firstPrime, k), innerApply)
      {
        ClientTransformConvergesAt(state, first.value, second.value, innerTransform, innerDiff, innerApply, k);
      }
      assert Applied(afterFirst, p.secondPrime, innerApply).Ok? by {
        if p.secondPrime.Some? {
          forall k | k in p.secondPrime.value ensures ApplyAt(afterFirst, k, p.secondPrime.value[k], innerApply).Ok? {
            assert Slot(p.secondPrime, k) == Some(p.secondPrime.value[k]);
          }
        }
      }
      assert Applied(afterSecond, p.firstPrime, innerApply).Ok? by {
        if p.firstPrime.Some? {
          forall k | k in p.firstPrime.value ensures ApplyAt(afterSecond, k, p.firstPrime.value[k], innerApply).Ok? {
            assert Slot(p.firstPrime, k) == Some(p.firstPrime.value[k]);
          }
        }
      }
      var viaFirst := Applied(afterFirst, p.secondPrime, innerApply).value;
      var viaSecond := Applied(afterSecond, p.firstPrime, innerApply).value;
      forall k ensures Get(viaFirst, k) == Get(viaSecond, k) {
        AppliedSlot(afterFirst, p.secondPrime, innerApply, k);
        AppliedSlot(afterSecond, p.firstPrime, innerApply, k);
      }
      GetExtensional(viaFirst, viaSecond);
    }
  }

  // ---------------------------------------------------------------------
  // mapping the element types of an operation

  /** Keeps the present entries of a collection whose entries may be
      absent, transforming each. */
  function Choose<X, Y>(source: map<DualKey, Option<X>>, f: X -> Y): (r: map<DualKey, Y>)
    ensures forall k :: Get(r, k) == (if k in source && source[k].Some? then Some(f(source[k].value)) else None)
  {
    map k | k in source && source[k].Some? :: f(source[k].value)
  }

  /** Maps the payload of either kind of entry. */
  function MapElement<R1, R2, U1, U2>(e: RecordElement<R1, U1>, mapReplace: R1 -> R2, mapUpdate: U1 -> U2): RecordElement<R2, U2> {
    match e
    case Replace(r) => Replace(mapReplace(r))
    case Update(u) => Update(mapUpdate(u))
  }

  /** Maps the states and the element operations of an up-operation,
      dropping absent entries. */
  function MapUpOperation<S1, S2, U1, U2>(source: map<DualKey, Option<UpElement<S1, U1>>>, mapState: S1 -> S2, mapOperation: U1 -> U2)
    : (r: map<DualKey, UpElement<S2, U2>>)
    ensures forall k :: k in r <==> k in source && source[k].Some?
    ensures forall k :: k in r && source[k].value.Replace? ==> r[k] == Replace(NewValue(MapOption(source[k].value.replace.newValue, mapState)))
    ensures forall k :: k in r && source[k].value.Update? ==> r[k] == Update(mapOperation(source[k].value.update))
  {
    Choose(source, (e: UpElement<S1, U1>) =>
      if e.Replace? then Replace(NewValue(MapOption(e.replace.newValue, mapState))) else Update(mapOperation(e.update)))
  }

  /** The same for a down-operation. */
  function MapDownOperation<S1, S2, D1, D2>(source: map<DualKey, Option<DownElement<S1, D1>>>, mapState: S1 -> S2, mapOperation: D1 -> D2)
    : (r: map<DualKey, DownElement<S2, D2>>)
    ensures forall k :: k in r <==> k in source && source[k].Some?
    ensures forall k :: k in r && source[k].value.Replace? ==> r[k] == Replace(OldValue(MapOption(source[k].value.replace.oldValue, mapState)))
    ensures forall k :: k in r && source[k].value.Update? ==> r[k] == Update(mapOperation(source[k].value.update))
  {
    Choose(source, (e: DownElement<S1, D1>) =>
      if e.Replace? then Replace(OldValue(MapOption(e.replace.oldValue, mapState))) else Update(mapOperation(e.update)))
  }

  /** Maps the replacement and update payloads of any operation. */
  function MapOperation<R1, R2, U1, U2>(source: map<DualKey, Option<RecordElement<R1, U1>>>, mapReplace: R1 -> R2, mapUpdate: U1 -> U2)
    : (r: map<DualKey, RecordElement<R2, U2>>)
    ensures forall k :: k in r <==> k in source && source[k].Some?
    ensures forall k :: k in r ==> r[k].Replace? == source[k].value.Replace?
    ensures forall k :: k in r && source[k].value.Replace? ==> r[k] == Replace(mapReplace(source[k].value.replace))
    ensures forall k :: k in r && source[k].value.Update? ==> r[k] == Update(mapUpdate(source[k].value.update))
  {
    Choose(source, (e: RecordElement<R1, U1>) => MapElement(e, mapReplace, mapUpdate))
  }

  /** An operation seen as a collection whose entries are all present. */
  function Lift<X>(op: map<DualKey, X>): (r: map<DualKey, Option<X>>)
    ensures r.Keys == op.Keys
  {
    map k | k in op :: Some(op[k])
  }

  /** Mapping an up-operation is mapping its replacements by the state map
      and its updates by the operation map. */
  lemma MapUpIsMapOperation<S1, S2, U1, U2>(source: map<DualKey, Option<UpElement<S1, U1>>>, mapState: S1 -> S2, mapOperation: U1 -> U2)
    ensures MapUpOperation(source, mapState, mapOperation)
            == MapOperation(source, (r: NewValue<S1>) => NewValue(MapOption(r.newValue, mapState)), mapOperation)
  {
    var a := MapUpOperation(source, mapState, mapOperation);
    var b := MapOperation(source, (r: NewValue<S1>) => NewValue(MapOption(r.newValue, mapState)), mapOperation);
    forall k ensures Get(a, k) == Get(b, k) {
      if k in source && source[k].Some? {
        assert Get(b, k) == Some(MapElement(source[k].value, (r: NewValue<S1>) => NewValue(MapOption(r.newValue, mapState)), mapOperation));
      }
    }
    GetExtensional(a, b);
  }

  /** Mapping by identities gives the operation back. */
  lemma MapOperationIdentity<R, U>(op: map<DualKey, RecordElement<R, U>>)
    ensures MapOperation(Lift(op), (r: R) => r, (u: U) => u) == op
  {
    var a := MapOperation(Lift(op), (r: R) => r, (u: U) => u);
    forall k ensures Get(a, k) == Get(op, k) {
      if k in op {
        assert Get(a, k) == Some(MapElement(op[k], (r: R) => r, (u: U) => u));
      }
    }
    GetExtensional(a, op);
  }

  /** Mapping twice is mapping once by the composed maps. */
  lemma MapOperationComposes<R1, R2, R3, U1, U2, U3>(source: map<DualKey, Option<RecordElement<R1, U1>>>,
                                                     f1: R1 -> R2, g1: U1 -> U2, f2: R2 -> R3, g2: U2 -> U3)
    ensures MapOperation(Lift(MapOperation(source, f1, g1)), f2, g2)
            == MapOperation(source, (r: R1) => f2(f1(r)), (u: U1) => g2(g1(u)))
  {
    var once := MapOperation(source, f1, g1);
    var a := MapOperation(Lift(once), f2, g2);
    var b := MapOperation(source, (r: R1) => f2(f1(r)), (u: U1) => g2(g1(u)));
    forall k ensures Get(a, k) == Get(b, k) {
      if k in source && source[k].Some? {
        assert Get(once, k) == Some(MapElement(source[k].value, f1, g1));
        assert Get(a, k) == Some(MapElement(once[k], f2, g2));
        assert Get(b, k) == Some(MapElement(source[k].value, (r: R1) => f2(f1(r)), (u: U1) => g2(g1(u))));
      } else {
        assert Get(once, k).None?;
      }
    }
    GetExtensional(a, b);
  }
}
