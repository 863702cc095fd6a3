# Flocon OT engine in Dafny

This project models the operational-transformation (OT) engine that Flocon
rooms use to keep a shared room state consistent. Every entity of a room is
edited through three kinds of operation:

- an **up-operation** moves a state forwards;
- a **down-operation** moves it backwards;
- a **two-way operation** records both directions.

Every entity protocol offers the same set of functions:

- `apply` and `applyBack`;
- `composeDownOperation` (and `composeUpOperation` for memos);
- `restore`, which rebuilds the earlier state and the two-way operation from a down-operation;
- `diff`;
- `serverTransform`, which rebases a client's operation, made at an old revision, onto the server's history;
- `clientTransform`, the peer transform of two pending operations.

The model covers:

- **`ReplaceOperation`**: the primitive for scalar fields that are replaced as a whole (last writer wins, server wins).
- **`KeyValidation`**: the allow-list for keys chosen by clients.
- **`DualKeyRecordOperation`**: the generic engine for collections keyed by a pair of strings. It handles entry replacement (creation and removal) and entry update. The server transform validates keys, rejects requests that contradict the client's revision, silently drops requests the server's history has made moot, and applies a cancellation policy (vetoes on creation, removal and update). The peer transform merges concurrent creations.
- **The entity protocols**:
  - `Bgm`, a background-music channel;
  - `Memo`, a room memo;
  - `Command`, a character's chat command script;
  - `StringPieceValue`, a character's string value that is placed on boards;
  - `ImagePieceValue`, a participant's image that is placed on boards;
  - `NumberPieceValueLog`, the log record of a number value's change.

Each of these modules is built from the fields' own primitives.

Two collaborators have no source in view: the string OT, which edits memo texts, names and scripts, and the board pieces. Each one is a parameter of the model: a record of functions (`TextOperation.TextOps`, `Piece.PieceOps`). Every law the proofs need from it is stated as a predicate that the lemmas take as a precondition. Examples are "diff is empty exactly between equal strings and leads there and back" and "the peer transform converges". The `Piece` lemmas lift the laws of one piece to the per-entry laws the dual-key engine needs.

Operations that the source writes as loops, or as copies that are updated field by field, are `method`s. Each is proved against a specification function on the same values: the ghost functions `Applied`, `AppliedBack`, `ComposedDown`, `Restored`, `ServerTransformed` and `ClientTransformed`, and the functions `Difference` and `Diff`. For these, the lemmas state the promises:

- diff round trips;
- restore agrees with backward application and leads back;
- composition is sequential application;
- the server transform fails exactly on the refused requests, keeps the accepted ones and drops the moot or vetoed ones;
- its result is consistent with the server's state;
- server-wins holds for scalars;
- TP1 convergence of the peer transform.

In several places the source iterates over a map and returns the error of the first entry that fails. There, the specification keeps only "fails exactly when some entry fails". When it fails, its error is that of some failing entry. It says nothing about which one.

## Model

| member | source | states |
|---|---|---|
| KeyValidation.MatchesKeyPatternIff | src/internal/ot/util/isValidKey.ts:6 | the anchored pattern `^([0-9a-zA-Z]\|-\|_)+$` accepts exactly the non-empty strings whose every character is a letter, digit, `-` or `_` |
| KeyValidation.IsValidKeyIff | src/internal/ot/util/isValidKey.ts:2-7 | a key is valid iff it has 1 to 10 characters, all from the allowed class |
| KeyValidation.LongKeyIsInvalid | src/internal/ot/util/isValidKey.ts:3-5 | keys of 11 or more characters are refused whatever they contain |
| KeyValidation.EmptyKeyIsInvalid | src/internal/ot/util/isValidKey.ts:6 | the empty key is refused, because the pattern needs at least one character |
| KeyValidation.DisallowedCharIsInvalid | src/internal/ot/util/isValidKey.ts:6 | one character outside the class anywhere makes the key invalid |
| ReplaceOperation.ComposeDownOperation | src/internal/ot/util/replaceOperation.ts:23-34 | an absent first gives second; otherwise the earlier (first) old value survives |
| ReplaceOperation.ServerTransform | src/internal/ot/util/replaceOperation.ts:36-48 | a result exists iff the server has no change of its own, the client has one, and it differs from the client's revision; it then goes from that revision to the client's new value |
| ReplaceOperation.ClientTransform | src/internal/ot/util/replaceOperation.ts:50-64 | first wins: the second operation survives only when there is no first |
| ReplaceOperation.ToPrivateClientOperation | src/internal/ot/util/replaceOperation.ts:66-99 | all four privacy cases: an authorised viewer sees the new value; an unauthorised one sees nothing (private to private), the value (made public) or the default (made private) |
| ReplaceOperation.PrivateValueNeverLeaks | src/internal/ot/util/replaceOperation.ts:83-95 | an unauthorised viewer never receives a value that is private after the change |
| ReplaceOperation.ServerTransformReachesRequest | src/internal/ot/util/replaceOperation.ts:41-47 | with no concurrent server change, the transformed operation reaches the client's value and its down half undoes it |
| ReplaceOperation.ComposeDownIsSequentialApplyBack | src/internal/ot/util/replaceOperation.ts:23-34 | composition is backward application of second then first |
| ReplaceOperation.ComposeDownAssociative | src/internal/ot/util/replaceOperation.ts:23-34 | composition is associative |
| ReplaceOperation.ClientTransformConverges | src/internal/ot/util/replaceOperation.ts:50-64 | both orders of application followed by the other prime reach the same value (TP1) |
| DualKeyRecordOperation.AsOperation | src/internal/ot/util/dualKeyRecordOperation.ts:680-687 | an empty result map is normalised to no operation, and a non-empty one is kept as is |
| DualKeyRecordOperation.ToClientState | src/internal/ot/util/dualKeyRecordOperation.ts:103-129 | the client's collection holds exactly the non-private keys of the server's, each converted |
| DualKeyRecordOperation.Applied | src/internal/ot/util/dualKeyRecordOperation.ts:249-307 | an absent operation leaves the collection alone; otherwise it fails iff some entry fails (an update of a missing key, or an inner failure), with that entry's error; on success every mentioned key holds its entry's result and the others are unchanged |
| DualKeyRecordOperation.Apply | src/internal/ot/util/dualKeyRecordOperation.ts:249-307 | the loop fails iff `Applied` fails, with the error of a failing entry, and otherwise returns exactly `Applied` |
| DualKeyRecordOperation.AppliedBack | src/internal/ot/util/dualKeyRecordOperation.ts:309-367 | the mirror of `Applied`: old values for replacements, the inner backward result for updates |
| DualKeyRecordOperation.ApplyBack | src/internal/ot/util/dualKeyRecordOperation.ts:309-367 | the loop fails iff `AppliedBack` fails, and otherwise returns exactly `AppliedBack` |
| DualKeyRecordOperation.Difference | src/internal/ot/util/dualKeyRecordOperation.ts:900-957 | every key's entry is the slot diff: a creation, removal or inner diff; no entry where nothing changed; no operation when there is no entry |
| DualKeyRecordOperation.Diff | src/internal/ot/util/dualKeyRecordOperation.ts:900-957 | the loop over the outer join of the keys computes `Difference` |
| DualKeyRecordOperation.DiffLeadsForward | src/internal/ot/util/dualKeyRecordOperation.ts:900-957 | under the element diff law, the diff applied to the first collection gives the second |
| DualKeyRecordOperation.DiffLeadsBack | src/internal/ot/util/dualKeyRecordOperation.ts:900-957 | under the element diff law, the diff applied backwards to the second collection gives the first |
| DualKeyRecordOperation.DiffRoundTrip | src/internal/ot/util/dualKeyRecordOperation.ts:900-957 | under the element diff law, the diff applied to the first collection gives the second, and applied backwards to the second gives the first |
| DualKeyRecordOperation.DiffIsNoneIffEqual | src/internal/ot/util/dualKeyRecordOperation.ts:900-957 | the diff is empty exactly between equal collections |
| DualKeyRecordOperation.Restored | src/internal/ot/util/dualKeyRecordOperation.ts:132-247 | an absent down-operation gives the state and nothing; otherwise it fails iff some entry fails; on success the earlier collection and an always-present two-way operation |
| DualKeyRecordOperation.RestoreEntry | src/internal/ot/util/dualKeyRecordOperation.ts:172-233 | one down-operation entry, in the source's order: a replacement restores its old value with the slot diff towards the given state; an update fails on a key missing from the given state or an inner failure, and otherwise restores the inner earlier value |
| DualKeyRecordOperation.RestoredFromEntries | src/internal/ot/util/dualKeyRecordOperation.ts:164-247 | when every entry succeeds, the collection of the entries' earlier slots and two-way entries is the specified result |
| DualKeyRecordOperation.Restore | src/internal/ot/util/dualKeyRecordOperation.ts:132-247 | the loop fails iff `Restored` fails, and otherwise returns exactly `Restored` |
| DualKeyRecordOperation.RestoreIsApplyBack | src/internal/ot/util/dualKeyRecordOperation.ts:132-247 | under the element restore law, restore succeeds iff `applyBack` does and computes the same earlier collection |
| DualKeyRecordOperation.RestoreEntryLeadsBack | src/internal/ot/util/dualKeyRecordOperation.ts:172-233 | per key: the restored two-way entry leads from the earlier slot to the given one and back; keys without an entry keep their slot |
| DualKeyRecordOperation.RestoreTwoWayLeadsBack | src/internal/ot/util/dualKeyRecordOperation.ts:132-247 | the restored two-way operation leads from the earlier collection to the given one and back |
| DualKeyRecordOperation.ComposedDown | src/internal/ot/util/dualKeyRecordOperation.ts:370-511 | an absent side gives the other side; otherwise it fails iff some key's composition fails (an earlier update over a later removal, or an inner failure); on success every key holds its composed entry |
| DualKeyRecordOperation.ComposeDownOperation | src/internal/ot/util/dualKeyRecordOperation.ts:370-511 | the loop fails iff `ComposedDown` fails, and otherwise returns exactly `ComposedDown` |
| DualKeyRecordOperation.ComposeDownIsSequentialApplyBack | src/internal/ot/util/dualKeyRecordOperation.ts:370-511 | under the element composition law, when applying second then first backwards succeeds, the composition succeeds and has the same effect |
| DualKeyRecordOperation.ServerTransformed | src/internal/ot/util/dualKeyRecordOperation.ts:515-688 | an absent client operation gives nothing; otherwise it fails iff some entry fails; on success the transformed entries, normalised |
| DualKeyRecordOperation.ServerTransformEntry | src/internal/ot/util/dualKeyRecordOperation.ts:558-677 | one client entry, checked in the source's order: key validation, remove, add, update and the cancellation hooks |
| DualKeyRecordOperation.ServerTransformedFromEntries | src/internal/ot/util/dualKeyRecordOperation.ts:680-687 | when every client entry succeeds, the collected answers, normalised to nothing when empty, are the specified result |
| DualKeyRecordOperation.ServerTransform | src/internal/ot/util/dualKeyRecordOperation.ts:515-688 | the loop fails iff `ServerTransformed` fails, and otherwise returns exactly `ServerTransformed` |
| DualKeyRecordOperation.ServerTransformFailsIff | src/internal/ot/util/dualKeyRecordOperation.ts:558-670 | the transform fails exactly when some client entry is refused (an invalid key, removal of an absent element, creation of a present one, update of an absent one) or its inner transform fails |
| DualKeyRecordOperation.ServerTransformAtAccepted | src/internal/ot/util/dualKeyRecordOperation.ts:569-677 | one entry that produces an answer has valid keys and is an accepted removal, creation or update |
| DualKeyRecordOperation.ServerTransformAccepted | src/internal/ot/util/dualKeyRecordOperation.ts:569-677 | every entry of the answer answers a client entry with valid keys: a removal of what the server holds now, a creation at a key free in both states, or an inner-transformed update of a key present in both and not replaced by the server, none of them vetoed |
| DualKeyRecordOperation.ServerTransformDropped | src/internal/ot/util/dualKeyRecordOperation.ts:576-660 | moot entries leave no trace in the answer: removals of removed elements, creations of filled keys, updates of removed or replaced elements, and vetoed entries |
| DualKeyRecordOperation.ServerTransformConsistent | src/internal/ot/util/dualKeyRecordOperation.ts:569-677 | the answer is consistent with the server's current collection: old values match it, creations target free keys, removals and updates present ones |
| DualKeyRecordOperation.Slot | src/internal/ot/util/dualKeyRecordOperation.ts:844-847 | the entry of a key in an optional operation |
| DualKeyRecordOperation.TransformElement | src/internal/ot/util/dualKeyRecordOperation.ts:706-806 | it fails (the source throws) exactly on an update by first against a creation by second; two creations merge into an update by the element diff from second's new value to first's (nothing when it is empty); other replacement pairs cancel; a first replacement wins over an update; an update yields to a removal; two updates give exactly the inner transform's primes, each wrapped as an update |
| DualKeyRecordOperation.ClientTransformed | src/internal/ot/util/dualKeyRecordOperation.ts:808-898 | with either side absent both pass through; otherwise it fails iff some common key fails; on success the per-key primes, each normalised |
| DualKeyRecordOperation.ClientTransform | src/internal/ot/util/dualKeyRecordOperation.ts:808-898 | the loop fails iff `ClientTransformed` fails, and otherwise returns exactly `ClientTransformed` |
| DualKeyRecordOperation.ClientTransformConverges | src/internal/ot/util/dualKeyRecordOperation.ts:808-898 | for two well-formed operations that both apply, first then secondPrime and second then firstPrime both succeed and reach the same collection (TP1) |
| DualKeyRecordOperation.Choose | src/internal/ot/util/dualKeyRecordOperation.ts:971 | keeps exactly the present entries, transformed |
| DualKeyRecordOperation.MapUpOperation | src/internal/ot/util/dualKeyRecordOperation.ts:959-988 | keeps the present entries, with replacements mapped by the state map and updates by the operation map |
| DualKeyRecordOperation.MapDownOperation | src/internal/ot/util/dualKeyRecordOperation.ts:990-1019 | the same for down-operations, through old values |
| DualKeyRecordOperation.MapOperation | src/internal/ot/util/dualKeyRecordOperation.ts:1021-1048 | keeps the present entries and their kind; a replacement's payload is the replace map of the source's, an update's the update map of the source's |
| DualKeyRecordOperation.Lift | src/internal/ot/util/dualKeyRecordOperation.ts:1021-1048 | an operation seen as a collection of present entries has the same keys |
| DualKeyRecordOperation.MapUpIsMapOperation | src/internal/ot/util/dualKeyRecordOperation.ts:959-1048 | mapping an up-operation is the general mapping by the state map and the operation map |
| DualKeyRecordOperation.MapOperationIdentity | src/internal/ot/util/dualKeyRecordOperation.ts:1021-1048 | mapping by identities gives the operation back |
| DualKeyRecordOperation.MapOperationComposes | src/internal/ot/util/dualKeyRecordOperation.ts:1021-1048 | mapping twice is mapping once by the composed maps |
| Piece.DiffLawLifts | src/internal/ot/room/participant/imagePieceValue/functions.ts:245-248 | the piece diff law gives the per-entry diff law the dual-key diff needs |
| Piece.RestoreLawLifts | src/internal/ot/room/participant/imagePieceValue/functions.ts:179-188 | the piece restore law gives the per-entry restore law |
| Piece.ComposeLawLifts | src/internal/ot/room/participant/imagePieceValue/functions.ts:143-153 | the piece composition law gives the per-entry composition law |
| Piece.ClientLawsLift | src/internal/ot/room/participant/imagePieceValue/functions.ts:380-388 | the piece convergence and diff laws give the per-entry laws of the dual-key peer transform |
| Bgm.NormalizeUp | src/internal/ot/room/bgm/v1.ts:223-224 | an up-operation with no field becomes no operation, and any other is kept |
| Bgm.NormalizeTwoWay | src/internal/ot/room/bgm/v1.ts:187-190 | a two-way operation with no field becomes no operation, and any other is kept |
| Bgm.Applied | src/internal/ot/room/bgm/v1.ts:61-73 | each present field takes its new value, each absent one is unchanged |
| Bgm.Apply | src/internal/ot/room/bgm/v1.ts:61-73 | never fails and returns `Applied` |
| Bgm.AppliedBack | src/internal/ot/room/bgm/v1.ts:75-87 | each present field takes its old value, each absent one is unchanged |
| Bgm.ApplyBack | src/internal/ot/room/bgm/v1.ts:75-87 | never fails and returns `AppliedBack` |
| Bgm.ComposeDownOperation | src/internal/ot/room/bgm/v1.ts:89-97 | never fails; field by field, the earliest old value survives |
| Bgm.ComposeDownIsSequentialApplyBack | src/internal/ot/room/bgm/v1.ts:89-97 | composition is backward application of second then first |
| Bgm.Restored | src/internal/ot/room/bgm/v1.ts:99-136 | the earlier state is the backward application; the two-way operation goes from the old values to the given state, and is normalised |
| Bgm.Restore | src/internal/ot/room/bgm/v1.ts:99-136 | never fails and returns `Restored` |
| Bgm.RestoreLeadsBack | src/internal/ot/room/bgm/v1.ts:99-136 | the restored two-way operation leads from the earlier state to the given one and back |
| Bgm.Difference | src/internal/ot/room/bgm/v1.ts:138-162 | exactly the differing fields, old to new; nothing between equal states |
| Bgm.Diff | src/internal/ot/room/bgm/v1.ts:138-162 | the field-by-field build computes `Difference` |
| Bgm.DiffRoundTrip | src/internal/ot/room/bgm/v1.ts:138-162 | the diff leads from the first state to the second and back |
| Bgm.ServerTransformed | src/internal/ot/room/bgm/v1.ts:164-192 | field-wise server-wins: a field is in the answer iff the server left it alone and the client changes it, and then it goes from the client's revision to the client's value; the answer is no operation iff no field survives |
| Bgm.ServerTransform | src/internal/ot/room/bgm/v1.ts:164-192 | never fails and returns `ServerTransformed` |
| Bgm.ServerWins | src/internal/ot/room/bgm/v1.ts:170-185 | a field that the server changed is never changed by the client |
| Bgm.ServerTransformReachesRequest | src/internal/ot/room/bgm/v1.ts:164-192 | with no concurrent server operation, the answer has exactly the client's effect on its revision, and its down half undoes it |
| Bgm.ClientTransform | src/internal/ot/room/bgm/v1.ts:194-226 | never fails; field-wise first-wins: firstPrime is first, secondPrime keeps exactly second's fields that first leaves alone; primes with no field become no operation |
| Bgm.ClientTransformConverges | src/internal/ot/room/bgm/v1.ts:194-226 | both orders of application reach the same state (TP1) |
| Command.NormalizeUp | src/internal/ot/room/participant/character/command/functions.ts:204-205 | an up-operation with no field becomes no operation |
| Command.NormalizeTwoWay | src/internal/ot/room/participant/character/command/functions.ts:173-176 | a two-way operation with no field becomes no operation |
| Command.Applied | src/internal/ot/room/participant/character/command/functions.ts:43-57 | it fails iff the script's text edit fails, with that error; otherwise the name is replaced and the script edited |
| Command.Apply | src/internal/ot/room/participant/character/command/functions.ts:43-57 | the copy-and-assign code returns `Applied` |
| Command.AppliedBack | src/internal/ot/room/participant/character/command/functions.ts:59-74 | the backward counterpart of `Applied` |
| Command.ApplyBack | src/internal/ot/room/participant/character/command/functions.ts:59-74 | the copy-and-assign code returns `AppliedBack` |
| Command.ApplyOptional | src/internal/ot/room/participant/character/command/functions.ts:43-57 | an absent operation leaves the state unchanged |
| Command.ComposeDownOperation | src/internal/ot/room/participant/character/command/functions.ts:76-87 | it fails iff the scripts' composition fails; the name keeps the earliest old value |
| Command.ComposeDownIsSequentialApplyBack | src/internal/ot/room/participant/character/command/functions.ts:76-87 | under the string OT's composition law, composition is sequential backward application |
| Command.Restored | src/internal/ot/room/participant/character/command/functions.ts:89-125 | it fails iff the script's restore fails; the name is restored from the down-operation; the two-way operation is present |
| Command.Restore | src/internal/ot/room/participant/character/command/functions.ts:89-125 | the copy-and-assign code returns `Restored` |
| Command.RestoreIsApplyBack | src/internal/ot/room/participant/character/command/functions.ts:89-125 | restore succeeds iff the backward application does, reaches its state, and its two-way operation leads there and back |
| Command.Difference | src/internal/ot/room/participant/character/command/functions.ts:127-146 | the name when it differs; the string OT's diff of the scripts when they differ |
| Command.Diff | src/internal/ot/room/participant/character/command/functions.ts:127-146 | the field-by-field build computes `Difference` |
| Command.DiffRoundTrip | src/internal/ot/room/participant/character/command/functions.ts:127-146 | under the diff law, the diff is empty exactly between equal states, and leads from the first to the second and back |
| Command.ServerTransformed | src/internal/ot/room/participant/character/command/functions.ts:148-178 | the name by server-wins, the script by the string OT; either failure fails the whole; the answer is no operation iff neither the name change survives nor the string OT yields a script change |
| Command.ServerTransform | src/internal/ot/room/participant/character/command/functions.ts:148-178 | the code fails iff `ServerTransformed` does, and otherwise returns it |
| Command.ServerWinsOnName | src/internal/ot/room/participant/character/command/functions.ts:157-161 | a name the server changed is never changed by the client |
| Command.ServerTransformReachesRequest | src/internal/ot/room/participant/character/command/functions.ts:148-178 | with no concurrent server operation, an applicable client operation is accepted and has exactly its effect |
| Command.ClientTransform | src/internal/ot/room/participant/character/command/functions.ts:180-207 | the name by first-wins, the script by the string OT's peer transform; primes normalised |
| Command.ClientTransformConverges | src/internal/ot/room/participant/character/command/functions.ts:180-207 | under the string OT's convergence law, both orders reach the same state (TP1) |
| Memo.NormalizeUp | src/internal/ot/room/memo/v1.ts:285-286 | an up-operation with no field becomes no operation |
| Memo.NormalizeTwoWay | src/internal/ot/room/memo/v1.ts:244-247 | a two-way operation with no field becomes no operation |
| Memo.Applied | src/internal/ot/room/memo/v1.ts:82-100 | it fails iff the text edit fails; name and text type take their new values |
| Memo.Apply | src/internal/ot/room/memo/v1.ts:82-100 | the copy-and-assign code returns `Applied` |
| Memo.AppliedBack | src/internal/ot/room/memo/v1.ts:102-120 | the backward counterpart of `Applied` |
| Memo.ApplyBack | src/internal/ot/room/memo/v1.ts:102-120 | the copy-and-assign code returns `AppliedBack` |
| Memo.ApplyOptional | src/internal/ot/room/memo/v1.ts:82-100 | an absent operation leaves the state unchanged |
| Memo.ComposeUpReplace | src/internal/ot/room/memo/v1.ts:125-126 | the later new value wins |
| Memo.ComposeUpOperation | src/internal/ot/room/memo/v1.ts:122-134 | it fails iff the texts' composition fails; name and text type keep the latest new value |
| Memo.ComposeUpIsSequentialApply | src/internal/ot/room/memo/v1.ts:122-134 | under the string OT's up-composition law, up-composition is sequential application |
| Memo.ComposeDownOperation | src/internal/ot/room/memo/v1.ts:136-148 | it fails iff the texts' composition fails; name and text type keep the earliest old value |
| Memo.ComposeDownIsSequentialApplyBack | src/internal/ot/room/memo/v1.ts:136-148 | down-composition is sequential backward application |
| Memo.Restored | src/internal/ot/room/memo/v1.ts:150-188 | it fails iff the text's restore fails; name and text type are restored from the down-operation; the two-way operation is present |
| Memo.Restore | src/internal/ot/room/memo/v1.ts:150-188 | the copy-and-assign code returns `Restored` |
| Memo.RestoreIsApplyBack | src/internal/ot/room/memo/v1.ts:150-188 | restore succeeds iff the backward application does, reaches its state, and leads there and back |
| Memo.DiffAsWritten | src/internal/ot/room/memo/v1.ts:190-213 | `diff` as written: the text field is the string OT's diff of the two names |
| Memo.DiffAsWrittenMissesTextChange | src/internal/ot/room/memo/v1.ts:199-201 | two memos that differ only in their text get no diff at all, as written |
| Memo.DiffAsWrittenCounterexample | src/internal/ot/room/memo/v1.ts:199-201 | the memos ("memo", "a", Plain) and ("memo", "b", Plain) differ, but the as-written diff is empty |
| Memo.Difference | src/internal/ot/room/memo/v1.ts:190-213 | intended `diff`: the differing scalar fields, and the string OT's diff of the texts |
| Memo.Diff | src/internal/ot/room/memo/v1.ts:190-213 | the field-by-field build computes the intended `Difference` |
| Memo.DiffRoundTrip | src/internal/ot/room/memo/v1.ts:190-213 | the intended diff is empty exactly between equal states, and leads from the first to the second and back |
| Memo.ServerTransformed | src/internal/ot/room/memo/v1.ts:215-249 | name and text type by server-wins, the text by the string OT; failure fails the whole; the answer is no operation iff no scalar change survives and the string OT yields no text change |
| Memo.ServerTransform | src/internal/ot/room/memo/v1.ts:215-249 | the code fails iff `ServerTransformed` does, and otherwise returns it |
| Memo.ServerWins | src/internal/ot/room/memo/v1.ts:222-242 | a name or text type the server changed is never changed by the client |
| Memo.ServerTransformReachesRequest | src/internal/ot/room/memo/v1.ts:215-249 | with no concurrent server operation, an applicable client operation is accepted with exactly its effect |
| Memo.ClientTransform | src/internal/ot/room/memo/v1.ts:251-288 | first-wins for name and text type, the string OT for the text; primes normalised |
| Memo.ClientTransformConverges | src/internal/ot/room/memo/v1.ts:251-288 | under the string OT's convergence law, both orders reach the same state (TP1) |
| StringPieceValue.NormalizeUp | src/internal/ot/room/participant/character/stringPieceValue/functions.ts:336-337 | an up-operation with no field becomes no operation |
| StringPieceValue.NormalizeTwoWay | src/internal/ot/room/participant/character/stringPieceValue/functions.ts:284-287 | a two-way operation with no field becomes no operation |
| StringPieceValue.ToClientState | src/internal/ot/room/participant/character/stringPieceValue/functions.ts:21-29 | an unauthorised viewer sees "" in place of a private value; the flag is kept; the pieces are converted |
| StringPieceValue.PrivateValueIsHidden | src/internal/ot/room/participant/character/stringPieceValue/functions.ts:26 | a private value reaches only an authorised viewer |
| StringPieceValue.Applied | src/internal/ot/room/participant/character/stringPieceValue/functions.ts:45-75 | it fails iff the value's text edit or the pieces fail, text first; otherwise the flag is replaced and the others are edited |
| StringPieceValue.Apply | src/internal/ot/room/participant/character/stringPieceValue/functions.ts:45-75 | fails iff `Applied` fails, and otherwise returns it |
| StringPieceValue.AppliedBack | src/internal/ot/room/participant/character/stringPieceValue/functions.ts:77-107 | the backward counterpart of `Applied` |
| StringPieceValue.ApplyBack | src/internal/ot/room/participant/character/stringPieceValue/functions.ts:77-107 | fails iff `AppliedBack` fails, and otherwise returns it |
| StringPieceValue.ApplyOptional | src/internal/ot/room/participant/character/stringPieceValue/functions.ts:45-75 | an absent operation leaves the state unchanged |
| StringPieceValue.ComposedDown | src/internal/ot/room/participant/character/stringPieceValue/functions.ts:109-142 | it fails iff composing the values or the pieces fails; the flag keeps the earliest old value |
| StringPieceValue.ComposeDownOperation | src/internal/ot/room/participant/character/stringPieceValue/functions.ts:109-142 | fails iff `ComposedDown` fails, and otherwise returns it |
| StringPieceValue.ComposeDownIsSequentialApplyBack | src/internal/ot/room/participant/character/stringPieceValue/functions.ts:109-142 | under the composition laws, composition is sequential backward application |
| StringPieceValue.Restored | src/internal/ot/room/participant/character/stringPieceValue/functions.ts:144-194 | an absent down-operation gives the state and nothing; otherwise it fails iff the pieces' or the value's restore fails; the flag is restored from the down-operation |
| StringPieceValue.Restore | src/internal/ot/room/participant/character/stringPieceValue/functions.ts:144-194 | fails iff `Restored` fails, and otherwise returns it |
| StringPieceValue.RestoreIsApplyBack | src/internal/ot/room/participant/character/stringPieceValue/functions.ts:144-194 | restore succeeds iff the backward application does, reaches its state, and leads there and back |
| StringPieceValue.Difference | src/internal/ot/room/participant/character/stringPieceValue/functions.ts:196-223 | the flag and the value when they differ, and the dual-key diff of the pieces |
| StringPieceValue.Diff | src/internal/ot/room/participant/character/stringPieceValue/functions.ts:196-223 | the field-by-field build computes `Difference` |
| StringPieceValue.DiffRoundTrip | src/internal/ot/room/participant/character/stringPieceValue/functions.ts:196-223 | the diff is empty exactly between equal states, and leads there and back |
| StringPieceValue.ServerTransformed | src/internal/ot/room/participant/character/stringPieceValue/functions.ts:225-289 | an unauthorised requester's operation is ignored; otherwise the pieces go under the piece policy, the flag by server-wins and the value is the string OT's transform; failures fail the whole; the answer is no operation iff no field survives |
| StringPieceValue.ServerTransform | src/internal/ot/room/participant/character/stringPieceValue/functions.ts:225-289 | fails iff `ServerTransformed` fails, and otherwise returns it |
| StringPieceValue.ServerTransformRespectsServer | src/internal/ot/room/participant/character/stringPieceValue/functions.ts:240-270 | a flag the server changed is not changed by the client, and the pieces part is consistent with the server's pieces |
| StringPieceValue.PolicyNeverVetoesWhenAuthorized | src/internal/ot/room/participant/character/stringPieceValue/functions.ts:228-255 | past the early return the requester is authorised, so the installed policy never vetoes |
| StringPieceValue.ClientTransformed | src/internal/ot/room/participant/character/stringPieceValue/functions.ts:291-339 | the flag by first-wins, the value by the string OT, the pieces by the dual-key engine; failures fail the whole; primes normalised |
| StringPieceValue.ClientTransform | src/internal/ot/room/participant/character/stringPieceValue/functions.ts:291-339 | fails iff `ClientTransformed` fails, and otherwise returns it |
| StringPieceValue.ApplyNormalized | src/internal/ot/room/participant/character/stringPieceValue/functions.ts:336-337 | applying a normalised prime is applying the prime |
| StringPieceValue.ClientTransformConverges | src/internal/ot/room/participant/character/stringPieceValue/functions.ts:291-339 | for operations well formed on the state, both orders reach the same state (TP1) |
| ImagePieceValue.NormalizeUp | src/internal/ot/room/participant/imagePieceValue/functions.ts:414-415 | an up-operation with no field becomes no operation |
| ImagePieceValue.NormalizeTwoWay | src/internal/ot/room/participant/imagePieceValue/functions.ts:346-349 | a two-way operation with no field becomes no operation |
| ImagePieceValue.ToClientState | src/internal/ot/room/participant/imagePieceValue/functions.ts:21-28 | all fields are kept except the pieces, which are converted |
| ImagePieceValue.Applied | src/internal/ot/room/participant/imagePieceValue/functions.ts:46-87 | it fails iff the memo, name or pieces edit fails, in that order; otherwise image and flag take their new values and the others are edited |
| ImagePieceValue.Apply | src/internal/ot/room/participant/imagePieceValue/functions.ts:46-87 | fails iff `Applied` fails, and otherwise returns it |
| ImagePieceValue.AppliedBack | src/internal/ot/room/participant/imagePieceValue/functions.ts:89-130 | the backward counterpart of `Applied` |
| ImagePieceValue.ApplyBack | src/internal/ot/room/participant/imagePieceValue/functions.ts:89-130 | fails iff `AppliedBack` fails, and otherwise returns it |
| ImagePieceValue.ApplyOptional | src/internal/ot/room/participant/imagePieceValue/functions.ts:46-87 | an absent operation leaves the state unchanged |
| ImagePieceValue.ComposedDown | src/internal/ot/room/participant/imagePieceValue/functions.ts:132-169 | it fails iff composing memo, name or pieces fails; image and flag keep the earliest old value |
| ImagePieceValue.ComposeDownOperation | src/internal/ot/room/participant/imagePieceValue/functions.ts:132-169 | fails iff `ComposedDown` fails, and otherwise returns it |
| ImagePieceValue.ComposeDownIsSequentialApplyBack | src/internal/ot/room/participant/imagePieceValue/functions.ts:132-169 | under the composition laws, composition is sequential backward application |
| ImagePieceValue.RestoreText | src/internal/ot/room/participant/imagePieceValue/functions.ts:212-239 | an absent text part gives the string and nothing; otherwise it fails iff the string OT's restore does |
| ImagePieceValue.Restored | src/internal/ot/room/participant/imagePieceValue/functions.ts:171-242 | it fails iff the pieces', memo's or name's restore fails; image and flag go back to their old values, with the two-way part `{oldValue, current}`; the two-way operation is present |
| ImagePieceValue.Restore | src/internal/ot/room/participant/imagePieceValue/functions.ts:171-242 | fails iff `Restored` fails, and otherwise returns it |
| ImagePieceValue.RestoreTextIsApplyBack | src/internal/ot/room/participant/imagePieceValue/functions.ts:212-239 | the text part of restore agrees with backward application and its two-way part leads there and back |
| ImagePieceValue.RestoreIsApplyBack | src/internal/ot/room/participant/imagePieceValue/functions.ts:171-242 | restore succeeds iff the backward application does, reaches its state, and leads there and back |
| ImagePieceValue.Difference | src/internal/ot/room/participant/imagePieceValue/functions.ts:244-277 | image and flag exactly when they differ, old to new; memo and name by the string OT when they differ; the dual-key diff of the pieces |
| ImagePieceValue.Diff | src/internal/ot/room/participant/imagePieceValue/functions.ts:244-277 | the field-by-field build computes `Difference` |
| ImagePieceValue.TextDiffLeads | src/internal/ot/room/participant/imagePieceValue/functions.ts:261-272 | a text field's diff is empty iff the strings are equal, and leads there and back |
| ImagePieceValue.DiffIsNoneIffEqual | src/internal/ot/room/participant/imagePieceValue/functions.ts:244-277 | the diff is empty exactly between equal states |
| ImagePieceValue.DiffLeadsForward | src/internal/ot/room/participant/imagePieceValue/functions.ts:244-277 | the diff applied to the first state gives the second |
| ImagePieceValue.DiffLeadsBack | src/internal/ot/room/participant/imagePieceValue/functions.ts:244-277 | the diff applied backwards to the second state gives the first |
| ImagePieceValue.DiffRoundTrip | src/internal/ot/room/participant/imagePieceValue/functions.ts:244-277 | the diff is empty exactly between equal states, and leads there and back |
| ImagePieceValue.ServerTransformed | src/internal/ot/room/participant/imagePieceValue/functions.ts:279-351 | the pieces under the piece policy, image and flag by server-wins, memo and name are the string OT's transforms; failures fail the whole; the answer is no operation iff no field survives |
| ImagePieceValue.ServerTransform | src/internal/ot/room/participant/imagePieceValue/functions.ts:279-351 | fails iff `ServerTransformed` fails, and otherwise returns it |
| ImagePieceValue.ServerTransformRespectsServer | src/internal/ot/room/participant/imagePieceValue/functions.ts:282-327 | an image or flag the server changed is not changed by the client; the pieces part is consistent with the server's pieces |
| ImagePieceValue.UnauthorizedRequesterIsConfined | src/internal/ot/room/participant/imagePieceValue/functions.ts:301-305 | for an unauthorised requester, each accepted pieces entry is on a piece that is present and public on the server now, and is a removal or an update, never a creation |
| ImagePieceValue.ClientTransformed | src/internal/ot/room/participant/imagePieceValue/functions.ts:353-417 | image and flag by first-wins, memo and name by the string OT, the pieces by the dual-key engine; failures fail the whole; primes normalised |
| ImagePieceValue.ClientTransform | src/internal/ot/room/participant/imagePieceValue/functions.ts:353-417 | fails iff `ClientTransformed` fails, and otherwise returns it |
| ImagePieceValue.ApplyNormalized | src/internal/ot/room/participant/imagePieceValue/functions.ts:414-415 | applying a normalised prime is applying the prime |
| ImagePieceValue.ClientTransformConverges | src/internal/ot/room/participant/imagePieceValue/functions.ts:353-417 | for operations well formed on the state, both orders reach the same state (TP1) |
| NumberPieceValueLog.OfOperation | src/internal/ot/room/character/numberPieceValue/log-v1.ts:52-62 | always an update record; each flag is raised iff its part is present and changes the value; the pieces are copied |
| NumberPieceValueLog.FlagsMeanVisibleChange | src/internal/ot/room/character/numberPieceValue/log-v1.ts:56-59 | a flag is raised iff undoing the part from its new value gives a different value |
| NumberPieceValueLog.AcceptedChangeIsLogged | src/internal/ot/room/character/numberPieceValue/log-v1.ts:56 | a number change produced by the server transform is always logged as a change |

## Left out

- The string OT (`util/textOperation`) and the piece protocol (`piece/functions`) are not part of this model. They are parameters, and their laws are assumed in lemma preconditions.
- `room/util/replaceOperation`, the module the entities import for scalar fields, is not part of this model. Its server transform, peer transform and down-composition are taken to be those of `util/replaceOperation.ts`. Memo's up-composition of scalars is taken to be "the later new value wins" (`Memo.ComposeUpReplace`).
- `isIdRecord`, `DualKeyMap`, `groupJoinDualKeyMap` and `chooseDualKeyRecord` are not part of this model. They are modelled by what they evidently do: an all-absent record is "no operation", and the maps are finite maps over pairs of keys.
- DualKeyRecordOperation.TransformElement: the source throws an exception (`throw new Error`) when `first` updates an element that `second` creates. The exception escapes `clientTransform` and every entity's `clientTransform`. The model returns it as the error result `ElementAlreadyExists`, so `DualKeyRecordOperation.ClientTransformed`, `DualKeyRecordOperation.ClientTransform` and the entity peer transforms "fail" where the source raises.
- Entry-wise loops (`DualKeyRecordOperation.Apply`, `ApplyBack`, `Restore`, `ComposeDownOperation`, `ServerTransform`, `ClientTransform`): when several entries fail, the model does not say which entry's error is returned. The source returns the first in map iteration order, which a finite map does not have.
- The entity methods (`ImagePieceValue.Apply` and the like) equal their specification on success, and fail exactly when it fails. When they fail they do not promise the same error, because the dual-key engine below them does not.
- The `$version`, `$v` and `$r` tags of states and operations, and the io-ts codecs, are constants or runtime type checks only, and are left out.
- The `toClientState` functions of `Bgm`, `Command` and `Memo` are identities, and are left out.
- The pieces' conversion for a viewer (`Piece.toClientStateMany`) is a parameter of `ToClientState`, because the piece module is not part of this model.
- The `toClientOperation` functions only re-wrap a diff as an up-operation. They are left out.
- A two-way operation passed where an up-operation is expected (the source's `apply` accepts both by structural typing) is modelled by the explicit conversion `ToUpOperation`.
- The BGM `volume` and the number value are `real`s. They are only compared and copied, so floating point (NaN, signed zero) is not modelled.
- BGM `files` and the image of `ImagePieceValue` are compared with `!==` in `diff` and in the replace server transform. The source compares arrays and file-path objects by reference. The model compares values, so two equal but distinct objects count as unchanged.
- `StringPieceValue.ServerTransformed`: the cancellation policy is modelled, but past the unauthorised early return it never vetoes (`StringPieceValue.PolicyNeverVetoesWhenAuthorized`).
- `Command`'s server transform receives a `currentState` that it never reads, so the model leaves that parameter out.
- `NumberPieceValueLog.OfOperation`: the number value module (`numberPieceValue/v1.ts`) is not part of this model, so its two-way operation is declared here with the fields the log reads. The log's `pieces` field is declared with up-operation entries, but the source copies the two-way entries as they are, and the model does the same. The `create` and `delete` records are declared but never produced by `ofOperation`.
- The string OT's server transform returns both primes; only `secondPrime` is ever used, so `TextOps.serverTransform` returns that part only.
- The scripting layer (`flocommand`, `command`), `index.ts` and the tests are outside the OT engine.

## Findings

| source | as written | input that shows it | evidently intended | confidence | as-written member | corrected member |
|---|---|---|---|---|---|---|
| src/internal/ot/room/memo/v1.ts:199-201 | when the texts differ, the text field of the diff is the string diff of the two `name`s | prevState = (name "memo", text "a", Plain), nextState = (name "memo", text "b", Plain): the names are equal, so the diff is empty although the memos differ | the text field is the string diff of the two `text`s, so the diff leads from one memo to the other | high (not executed) | Memo.DiffAsWrittenCounterexample | Memo.DiffRoundTrip |
