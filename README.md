# Sequence-field inversion, summary-node paths and telemetry event shaping

This project models three parts of the Fluid Framework in Dafny and proves properties about them.

**Sequence-field inversion** (`sequence_field_format.dfy`, `cross_field.dfy`, `sequence_field_invert.dfy`, `sequence_field_round_trip.dfy`).
- A changeset of a sequence field is a list of marks.
- `invert` builds the changeset that undoes one. It walks the marks left to right and inverts each at the input index that the marks before it consume.
- While doing so it records, in a cross-field manager, the inverted node change of every filled, non-conflicted single-cell move source that carries a node change.
- `amendInvert` then splits the `ReturnFrom` marks that the inversion produced for move destinations. It attaches the stored changes to the pieces that the stored ranges cover.
- The cross-field manager is a class whose `entries` field the `Set` method reassigns. The main pass is a method that calls it inside a loop.
- Both passes are proved against functions that define them mark by mark.
- A reference content semantics for the in-place marks shows that applying a changeset and then its inverse gives back the original field.

**Summary-node paths** (`summarizer_node_utils.dfy`).
- Escaped paths are built with `encodeURIComponent` and joined with "/".
- `SummaryNode` records where a node sits in a summary tree.
- `parseSummaryForSubtrees` and `parseSummaryTreeForSubtrees` locate a node's children under ".channels".
- The properties are stated on path segments: splitting a path at "/" gives back the escaped parts it was built from.

**Telemetry event shaping** (`telemetry_logger.dfy`).
- A child logger prefixes its namespace and fills properties from its `all` and `error` bags without overwriting any.
- `ChildLogger.create` flattens a child of a child.
- `prepareErrorObject` copies an error onto an event.
- The send helpers set categories and defaults.
- `TaggedLoggerAdapter` redacts tagged values.
- `tagData` tags values.
- The `PerformanceEvent` class follows the start, end and cancel lifecycle.

Events are maps from property names to values; an absent key stands for an undefined property.

## Model

Sources are under `experimental/dds/tree2/src/feature-libraries/sequence-field/` (invert.ts), `packages/runtime/container-runtime/src/summary/summarizerNode/` (summarizerNodeUtils.ts) and `packages/utils/telemetry-utils/src/` (logger.ts); the cells give the full paths.

| member | source | states |
|---|---|---|
| SequenceFieldFormat.GetInputLength | experimental/dds/tree2/src/feature-libraries/sequence-field/invert.ts:90 | a mark consumes at most its count of input cells, and none exactly when its input cells are empty or it is empty |
| SequenceFieldFormat.Restrict | experimental/dds/tree2/src/feature-libraries/sequence-field/invert.ts:335-340 | a part of a move source is a move source of the same kind, revision and node change, whose id is shifted by the offset and whose count is the part's length |
| SequenceFieldFormat.SplitMark | experimental/dds/tree2/src/feature-libraries/sequence-field/invert.ts:335-340 | splitting at `length` gives the first `length` cells and the rest, ids continuing where the first part ends |
| SequenceFieldFormat.RestrictTwice | experimental/dds/tree2/src/feature-libraries/sequence-field/invert.ts:335-340 | a part of a part is the part at the summed offset |
| SequenceFieldFormat.WithNodeChange | experimental/dds/tree2/src/feature-libraries/sequence-field/invert.ts:340-343 | only the node change is replaced; the mark kind and all other fields are kept |
| CrossField.Lookup | experimental/dds/tree2/src/feature-libraries/sequence-field/invert.ts:322-328 | `get` answers a stored entry with the key overlapping the range, one with the least start, and answers nothing exactly when no such entry exists |
| CrossField.LookupNarrow | experimental/dds/tree2/src/feature-libraries/sequence-field/invert.ts:322-341 | the entry found for a range is also found for the rest of the range that it still overlaps, which is what the recursive `applyMovedChanges` relies on |
| CrossField.Trim | experimental/dds/tree2/src/feature-libraries/sequence-field/invert.ts:247-254 | an overwriting `set` leaves no entry with the same key overlapping the written range and keeps every entry with another key |
| CrossField.OverwriteThenLookup | experimental/dds/tree2/src/feature-libraries/sequence-field/invert.ts:247-254 | a `get` of the range just written answers the written entry |
| CrossField.CrossFieldManager.Get | experimental/dds/tree2/src/feature-libraries/sequence-field/invert.ts:322-328 | the manager's `get` on its current entries: an entry with the key overlapping the range and with the least start among those, and nothing exactly when no such entry exists |
| CrossField.CrossFieldManager.Set | experimental/dds/tree2/src/feature-libraries/sequence-field/invert.ts:247-254 | the entries become the overwritten store, and the written range then reads back the written value |
| SequenceFieldInvert.InvertNodeChange | experimental/dds/tree2/src/feature-libraries/sequence-field/invert.ts:366-372 | a node change is inverted at the given index when present; absent stays absent |
| SequenceFieldInvert.InvertModifyOrSkip | experimental/dds/tree2/src/feature-libraries/sequence-field/invert.ts:347-364 | fails exactly when there is a node change over a length other than 1; otherwise a Modify carrying the inverted change at the detach cell, or a skip of the same input length |
| SequenceFieldInvert.NextPiece | experimental/dds/tree2/src/feature-libraries/sequence-field/invert.ts:316-345 | one step of `applyMovedChanges`: the whole mark, or a strictly shorter first piece plus the restricted rest |
| SequenceFieldInvert.ApplyMovedChanges | experimental/dds/tree2/src/feature-libraries/sequence-field/invert.ts:316-345 | the pieces are non-empty in number and tile the mark's id range in order |
| SequenceFieldInvert.NextPieceGood | experimental/dds/tree2/src/feature-libraries/sequence-field/invert.ts:326-344 | the first piece is a part of the mark that carries the stored change covering it, or the original change where nothing is stored |
| SequenceFieldInvert.ApplyMovedChangesPieces | experimental/dds/tree2/src/feature-libraries/sequence-field/invert.ts:316-345 | every piece is a part of the mark with the right cell, and it carries the change the manager stores for its range or, where none is stored, the mark's own change |
| SequenceFieldInvert.ApplyMovedChangesStable | experimental/dds/tree2/src/feature-libraries/sequence-field/invert.ts:316-345 | amending a piece again leaves it as it is |
| SequenceFieldInvert.InvertMark | experimental/dds/tree2/src/feature-libraries/sequence-field/invert.ts:96-296 | `invertMark` stores an entry only for a move source, and then on the destination side; it reports an undefined revision only when the changeset's revision is undefined |
| SequenceFieldInvert.InvertDetachedDelete | experimental/dds/tree2/src/feature-libraries/sequence-field/invert.ts:138-156 | a delete of cells that are already empty inverts to nothing and stores nothing, after the assertion that the revision is defined |
| SequenceFieldInvert.InvertDetachedModify | experimental/dds/tree2/src/feature-libraries/sequence-field/invert.ts:220-231 | a modify of an empty cell inverts to nothing and stores nothing |
| SequenceFieldInvert.InvertTransientRevive | experimental/dds/tree2/src/feature-libraries/sequence-field/invert.ts:157-184 | an active revive removed again in the same changeset is undone by reviving its nodes into the cell of that removal, with the revived cell as the new transient detach and the inverted node change; without a revision the assertion fails |
| SequenceFieldInvert.InvertConflictedRevive | experimental/dds/tree2/src/feature-libraries/sequence-field/invert.ts:195-218 | a conflicted revive without a transient detach inverts to what `invertModifyOrSkip` gives for its count, changes and cell id, failing with it, and stores nothing |
| SequenceFieldInvert.InvertEmptyMoveSource | experimental/dds/tree2/src/feature-libraries/sequence-field/invert.ts:232-237 | a move source whose input cells are empty inverts to nothing and stores nothing |
| SequenceFieldInvert.InvertDestinationConflictedReturn | experimental/dds/tree2/src/feature-libraries/sequence-field/invert.ts:238-241 | a return from filled cells whose destination was conflicted inverts to what `invertModifyOrSkip` gives with no cell id, and stores nothing |
| SequenceFieldInvert.InvertTransientInsert | experimental/dds/tree2/src/feature-libraries/sequence-field/invert.ts:109-129 | an insert removed again in the same changeset is undone by reviving its nodes (from the reviver, at the input index) into the cell of that removal, with the insert's own cell as the new transient detach and the inverted node change; without a revision the assertion fails |
| SequenceFieldInvert.InvertConflictedTransientRevive | experimental/dds/tree2/src/feature-libraries/sequence-field/invert.ts:195-209 | a conflicted revive that was transiently detached inverts exactly as the delete at the transient detach's id, under that detach's revision or the changeset's, which revives its nodes into the detach's cell |
| SequenceFieldInvert.InvertSourceConflictedDestination | experimental/dds/tree2/src/feature-libraries/sequence-field/invert.ts:270-274 | a move destination whose source was conflicted stores nothing and inverts to a skip of its count when it is a return with filled cells, and to nothing otherwise |
| SequenceFieldInvert.InvertInactiveReturn | experimental/dds/tree2/src/feature-libraries/sequence-field/invert.ts:275-282 | a return into filled cells inverts to a skip of its count, and a conflicted reattach to nothing, storing nothing |
| SequenceFieldInvert.InvertMarkSucceeds | experimental/dds/tree2/src/feature-libraries/sequence-field/invert.ts:96-296 | `invertMark` fails one of its assertions exactly on marks that are not invertible: an undefined revision where one is needed, a reattach without a detach, node changes on several cells |
| SequenceFieldInvert.InvertMarkRegistration | experimental/dds/tree2/src/feature-libraries/sequence-field/invert.ts:232-254 | a destination entry is stored exactly for a single-cell move source with a node change and a filled, unconflicted cell; the entry holds the inverted change under the mark's revision, else the changeset's |
| SequenceFieldInvert.InvertMarkReadsOnlyForDestinations | experimental/dds/tree2/src/feature-libraries/sequence-field/invert.ts:96-296 | only MoveIn and ReturnTo inversion depends on the manager's entries |
| SequenceFieldInvert.InvertMoveSourceReturns | experimental/dds/tree2/src/feature-libraries/sequence-field/invert.ts:232-267 | an invertible, filled, unconflicted move source becomes a ReturnTo of the same count and id into the cell it emptied |
| SequenceFieldInvert.InvertMoveDestination | experimental/dds/tree2/src/feature-libraries/sequence-field/invert.ts:268-292 | an unconflicted destination becomes ReturnFrom pieces that tile its ids, store nothing, and carry the stored inverted changes |
| SequenceFieldInvert.InvertPrefixErrSticks | experimental/dds/tree2/src/feature-libraries/sequence-field/invert.ts:70-94 | once the pass has failed, later marks change neither the result nor the manager |
| SequenceFieldInvert.InvertMarkList | experimental/dds/tree2/src/feature-libraries/sequence-field/invert.ts:70-94 | the loop yields the pass's result, and leaves the manager holding the entries the pass stores, mark by mark at running input indexes |
| SequenceFieldInvert.Invert | experimental/dds/tree2/src/feature-libraries/sequence-field/invert.ts:40-54 | `invert` is the main pass under the changeset's revision |
| SequenceFieldInvert.AmendMarkList | experimental/dds/tree2/src/feature-libraries/sequence-field/invert.ts:298-314 | the loop yields every non-source mark unchanged and every move source replaced by its amended pieces |
| SequenceFieldInvert.AmendInvert | experimental/dds/tree2/src/feature-libraries/sequence-field/invert.ts:56-68 | `amendInvert` is the amendment pass under the original revision |
| SequenceFieldInvert.AmendMarksAppend | experimental/dds/tree2/src/feature-libraries/sequence-field/invert.ts:298-314 | amending a concatenation amends each part |
| SequenceFieldInvert.AmendMarksFixed | experimental/dds/tree2/src/feature-libraries/sequence-field/invert.ts:298-314 | marks that amendment leaves alone one by one are left alone as a list |
| SequenceFieldInvert.AmendMarksWithoutMoves | experimental/dds/tree2/src/feature-libraries/sequence-field/invert.ts:298-314 | a changeset without move sources is not changed by amendment |
| SequenceFieldInvert.ApplyMovedChangesNothingStored | experimental/dds/tree2/src/feature-libraries/sequence-field/invert.ts:316-345 | a move source with no stored entry of its key overlapping its range is kept whole, as when `get` answers undefined |
| SequenceFieldInvert.AmendMarksIdempotent | experimental/dds/tree2/src/feature-libraries/sequence-field/invert.ts:298-345 | amending twice is amending once |
| SequenceFieldInvert.InputLengthAppend | experimental/dds/tree2/src/feature-libraries/sequence-field/invert.ts:86-91 | input lengths add up over concatenation |
| SequenceFieldInvert.PiecesInputLength | experimental/dds/tree2/src/feature-libraries/sequence-field/invert.ts:316-345 | pieces tiling a move source consume as many input cells as the mark |
| SequenceFieldInvert.AmendMarksInputLength | experimental/dds/tree2/src/feature-libraries/sequence-field/invert.ts:298-345 | amendment does not change how many input cells a changeset consumes |
| SequenceFieldRoundTrip.InvertMarkSimple | experimental/dds/tree2/src/feature-libraries/sequence-field/invert.ts:104-231 | skips, inserts, deletes of filled cells, revives and modifies invert to their reference inverses and store nothing |
| SequenceFieldRoundTrip.InvertFromAppend | experimental/dds/tree2/src/feature-libraries/sequence-field/invert.ts:70-94 | the reference inverse of a list extended by one mark is extended by that mark's inverse at the list's input length |
| SequenceFieldRoundTrip.InvertPrefixSimple | experimental/dds/tree2/src/feature-libraries/sequence-field/invert.ts:70-94 | on such marks the main pass succeeds with the reference inverse and leaves the manager unchanged |
| SequenceFieldRoundTrip.EffectInverse | experimental/dds/tree2/src/feature-libraries/sequence-field/invert.ts:108-231 | a mark's inverse consumes what the mark left and puts back what it consumed |
| SequenceFieldRoundTrip.ApplyCons | experimental/dds/tree2/src/feature-libraries/sequence-field/invert.ts:70-94 | applying marks is applying the head to its input cells and the rest to what follows |
| SequenceFieldRoundTrip.RoundTripFrom | experimental/dds/tree2/src/feature-libraries/sequence-field/invert.ts:40-94 | applying the reference inverse to the result of a changeset gives back the field it was applied to |
| SequenceFieldRoundTrip.RoundTrip | experimental/dds/tree2/src/feature-libraries/sequence-field/invert.ts:40-54 | `invert` succeeds on such changesets, stores nothing, and its result undoes the changeset when the reviver returns the deleted nodes |
| SummarizerNodeUtils.HexDigit | packages/runtime/container-runtime/src/summary/summarizerNode/summarizerNodeUtils.ts:85 | a hexadecimal digit is a decimal digit or an upper-case letter A to F |
| SummarizerNodeUtils.Utf8 | packages/runtime/container-runtime/src/summary/summarizerNode/summarizerNodeUtils.ts:85 | a character is one to four bytes, and a single byte exactly when it is ASCII |
| SummarizerNodeUtils.PercentEncode | packages/runtime/container-runtime/src/summary/summarizerNode/summarizerNodeUtils.ts:85 | each byte becomes three characters, each a "%" or a hexadecimal digit |
| SummarizerNodeUtils.Escape | packages/runtime/container-runtime/src/summary/summarizerNode/summarizerNodeUtils.ts:84-86 | an escaped string never contains "/", is never shorter than the input, and a string of unreserved characters escapes to itself |
| SummarizerNodeUtils.CreateSegments | packages/runtime/container-runtime/src/summary/summarizerNode/summarizerNodeUtils.ts:84-86 | a created path is exactly one segment, the escaped string |
| SummarizerNodeUtils.LastSeparator | packages/runtime/container-runtime/src/summary/summarizerNode/summarizerNodeUtils.ts:97-99 | the index of the last "/", or -1 when there is none |
| SummarizerNodeUtils.NoSeparatorSplit | packages/runtime/container-runtime/src/summary/summarizerNode/summarizerNodeUtils.ts:84-86 | a string without "/" is a single segment |
| SummarizerNodeUtils.SplitJoin | packages/runtime/container-runtime/src/summary/summarizerNode/summarizerNodeUtils.ts:97-99 | splitting a "/"-join gives the segments of both sides |
| SummarizerNodeUtils.ConcatSegments | packages/runtime/container-runtime/src/summary/summarizerNode/summarizerNodeUtils.ts:97-99 | `concat` appends the other path's segments to this path's |
| SummarizerNodeUtils.EscapeAll | packages/runtime/container-runtime/src/summary/summarizerNode/summarizerNodeUtils.ts:87-93 | each part escaped, in order |
| SummarizerNodeUtils.JoinPartsSegments | packages/runtime/container-runtime/src/summary/summarizerNode/summarizerNodeUtils.ts:87-93 | the joined path's segments are the escaped parts, or a single empty segment when there are no parts |
| SummarizerNodeUtils.JoinPartsStep | packages/runtime/container-runtime/src/summary/summarizerNode/summarizerNodeUtils.ts:88-91 | each loop step concatenates the next created part |
| SummarizerNodeUtils.CreateAndConcat | packages/runtime/container-runtime/src/summary/summarizerNode/summarizerNodeUtils.ts:87-93 | the loop builds a path whose segments are the escaped parts, with `pathParts[0] ?? ""` for an empty list |
| SummarizerNodeUtils.SummaryNode.constructor | packages/runtime/container-runtime/src/summary/summarizerNode/summarizerNodeUtils.ts:132-139 | the node holds the given sequence number, base path, local path and optional additional path |
| SummarizerNodeUtils.SummaryNode.CreateForRoot | packages/runtime/container-runtime/src/summary/summarizerNode/summarizerNodeUtils.ts:105-111 | the root has no base path, the local path "" and a full path of one empty segment |
| SummarizerNodeUtils.SummaryNode.FullPath | packages/runtime/container-runtime/src/summary/summarizerNode/summarizerNodeUtils.ts:142-144 | the full path's segments are the base path's followed by the local path's |
| SummarizerNodeUtils.SummaryNode.FullPathForChildren | packages/runtime/container-runtime/src/summary/summarizerNode/summarizerNodeUtils.ts:150-154 | the children's base path is the full path followed by the additional path's segments, if any |
| SummarizerNodeUtils.SummaryNode.SetAdditionalPath | packages/runtime/container-runtime/src/summary/summarizerNode/summarizerNodeUtils.ts:129-131 | only the additional path changes |
| SummarizerNodeUtils.SummaryNode.CreateForChild | packages/runtime/container-runtime/src/summary/summarizerNode/summarizerNodeUtils.ts:160-166 | a child keeps the sequence number, and its full path is the parent's path for children plus the escaped id as one more segment |
| SummarizerNodeUtils.ParseSummaryForSubtrees | packages/runtime/container-runtime/src/summary/summarizerNode/summarizerNodeUtils.ts:204-217 | the path part is ".channels" exactly when that subtree exists, and following the path part from the snapshot reaches the children tree |
| SummarizerNodeUtils.ParseSummaryTreeForSubtrees | packages/runtime/container-runtime/src/summary/summarizerNode/summarizerNodeUtils.ts:224-237 | the same for summary trees |
| TelemetryLogger.IndexOf | packages/utils/telemetry-utils/src/logger.ts:114-116 | the first occurrence of a character, none exactly when it does not occur |
| TelemetryLogger.ReplaceFirst | packages/utils/telemetry-utils/src/logger.ts:114-116 | a string pattern replaces only its first occurrence; the text before and after stays |
| TelemetryLogger.SanitizePkgName | packages/utils/telemetry-utils/src/logger.ts:114-116 | one character shorter exactly when the name has an "@" |
| TelemetryLogger.IndexOfAfter | packages/utils/telemetry-utils/src/logger.ts:114-116 | the first occurrence is found after a prefix that does not contain the character |
| TelemetryLogger.SanitizeScopedName | packages/utils/telemetry-utils/src/logger.ts:114-116 | "@scope/name" becomes "scope-name", and slashes inside `name` are kept |
| TelemetryLogger.SanitizePlainName | packages/utils/telemetry-utils/src/logger.ts:114-116 | a name without "@" and "/" is unchanged |
| TelemetryLogger.Restricted | packages/utils/telemetry-utils/src/logger.ts:256-268 | the bag keys visited so far |
| TelemetryLogger.DirectBag | packages/utils/telemetry-utils/src/logger.ts:138-145 | a bag with the same keys as the given properties |
| TelemetryLogger.Fill | packages/utils/telemetry-utils/src/logger.ts:256-268 | a bag never overwrites a defined property; it adds only its own defined values, and adds every one whose key the event leaves undefined |
| TelemetryLogger.FillSkip | packages/utils/telemetry-utils/src/logger.ts:258-260 | a key the event defines, or whose value is undefined, changes nothing |
| TelemetryLogger.FillAdd | packages/utils/telemetry-utils/src/logger.ts:261-267 | a key the event leaves undefined takes the bag's defined value |
| TelemetryLogger.ExtendWithBag | packages/utils/telemetry-utils/src/logger.ts:256-268 | the key loop computes the filled event |
| TelemetryLogger.FillAll | packages/utils/telemetry-utils/src/logger.ts:249-270 | extending with several bags keeps the name and every property the event defines |
| TelemetryLogger.ExtendProperties | packages/utils/telemetry-utils/src/logger.ts:243-272 | the bags are applied `all` first and `error` only when asked for; nothing the event defines changes |
| TelemetryLogger.ErrorBagOnlyForErrors | packages/utils/telemetry-utils/src/logger.ts:250-253 | without error properties, only the `all` bag is applied |
| TelemetryLogger.AllBagWins | packages/utils/telemetry-utils/src/logger.ts:250-257 | a key in both bags takes the `all` bag's value |
| TelemetryLogger.ErrorBagFills | packages/utils/telemetry-utils/src/logger.ts:250-268 | a key only the `error` bag gives is filled from it for error events |
| TelemetryLogger.Namespaced | packages/utils/telemetry-utils/src/logger.ts:237-239 | with a namespace the name is namespace, ":" and the name; without one it is unchanged |
| TelemetryLogger.PrepareEvent | packages/utils/telemetry-utils/src/logger.ts:232-241 | prefixes the namespace and extends with the logger's bags, keeping every property the event had |
| TelemetryLogger.SetOrRemove | packages/utils/telemetry-utils/src/logger.ts:132-134 | assigning undefined removes the key; other keys stay |
| TelemetryLogger.ErrorPrepared | packages/utils/telemetry-utils/src/logger.ts:125-151 | `error` is always the message; `errorType` and `stack` are the error's, overwriting the event's: when the error has none, the event's own value is gone and the key holds only what the logging error's properties give, or for `stack` the generated stack when `fetchStack` is set; every other property the event had stays; no key is added beyond the event's own, `error`, `errorType`, `stack` and the logging error's properties |
| TelemetryLogger.PrepareErrorObject | packages/utils/telemetry-utils/src/logger.ts:125-151 | the copying, filling loop and stack capture compute the prepared event |
| TelemetryLogger.TelemetryPropsDoNotOverwrite | packages/utils/telemetry-utils/src/logger.ts:136-145 | a logging error's properties fill only keys that are still undefined after the copy |
| TelemetryLogger.StackGeneratedOnlyWhenMissing | packages/utils/telemetry-utils/src/logger.ts:147-150 | a stack is generated only when asked for and still undefined; otherwise asking changes nothing |
| TelemetryLogger.WithDefaultCategory | packages/utils/telemetry-utils/src/logger.ts:171-173 | the event's own category is kept, else the default is set |
| TelemetryLogger.SendTelemetryEvent | packages/utils/telemetry-utils/src/logger.ts:171-196 | category "generic" unless given; without an error every property is kept |
| TelemetryLogger.SendErrorEvent | packages/utils/telemetry-utils/src/logger.ts:204-215 | category is forced to "error"; `error` is the error's message, else the event's own, else the event name |
| TelemetryLogger.SendPerformanceEvent | packages/utils/telemetry-utils/src/logger.ts:223-230 | category "performance" unless given |
| TelemetryLogger.ChildSent | packages/utils/telemetry-utils/src/logger.ts:414-416 | a child logger forwards the event under its namespace, keeping every property |
| TelemetryLogger.Create | packages/utils/telemetry-utils/src/logger.ts:353-394 | the result is a child logger; under a child it is flattened onto the inner base, so a flat logger stays flat |
| TelemetryLogger.CreateChildLogger | packages/utils/telemetry-utils/src/logger.ts:328-337 | no props give the null logger; otherwise `ChildLogger.create` |
| TelemetryLogger.ChildOverridesBase | packages/utils/telemetry-utils/src/logger.ts:362-378 | within `all` and within `error`, the child's properties override the base's and the base's others are kept |
| TelemetryLogger.NamespaceFlattening | packages/utils/telemetry-utils/src/logger.ts:380-384 | the combined namespace names events as the nested loggers would |
| TelemetryLogger.FlatteningReordersBags | packages/utils/telemetry-utils/src/logger.ts:357-386 | flattening is not property-for-property the same as nesting: an inner `error` bag and an outer `all` bag giving one key resolve differently |
| TelemetryLogger.NamespacedErrorEvent | packages/loader/container-utils/src/test/errorTypeLoggingTest.spec.ts:102-117 | an error event "A" sent through a child logger with namespace "errorTypeTestNamespace" arrives as "errorTypeTestNamespace:A" with category, the error's `message` telemetry property, error and errorType |
| TelemetryLogger.RedactProperty | packages/utils/telemetry-utils/src/logger.ts:296-315 | an untagged value, or one tagged CodeArtifact or PackageData, is sent as it is; one tagged UserData is sent as "REDACTED (UserData)", and one with any other tag as "REDACTED (unknown tag)" |
| TelemetryLogger.Redacted | packages/utils/telemetry-utils/src/logger.ts:283-318 | the forwarded event has the same name and keys, and no tag is left |
| TelemetryLogger.RedactTags | packages/utils/telemetry-utils/src/logger.ts:283-318 | the key loop computes the redacted event |
| TelemetryLogger.RedactIdempotent | packages/utils/telemetry-utils/src/logger.ts:283-318 | redacting twice is redacting once |
| TelemetryLogger.TagData | packages/utils/telemetry-utils/src/logger.ts:776-792 | exactly the defined values are kept, each tagged with the tag |
| TelemetryLogger.TagCodeArtifacts | packages/utils/telemetry-utils/src/logger.ts:794-796 | every value is tagged CodeArtifact |
| TelemetryLogger.RedactTaggedData | packages/utils/telemetry-utils/src/logger.ts:776-796 | code artifacts reach the sink with their values; user data reaches it only as "REDACTED (UserData)" |
| TelemetryLogger.EndMeasure | packages/utils/telemetry-utils/src/logger.ts:603-610 | one measure, named after the event from its start mark, exactly when both the mark and the event remain |
| TelemetryLogger.Spread | packages/utils/telemetry-utils/src/logger.ts:627 | the properties override the event's; the event's others are kept |
| TelemetryLogger.Reported | packages/utils/telemetry-utils/src/logger.ts:627-633 | a report is named after the event plus "_" and the suffix, with the duration set after the start |
| TelemetryLogger.PerformanceEvent.constructor | packages/utils/telemetry-utils/src/logger.ts:567-582 | markers default to end and a "generic" cancel; a start event is reported only when the start marker is set |
| TelemetryLogger.PerformanceEvent.ReportEvent | packages/utils/telemetry-utils/src/logger.ts:622-651 | nothing is sent once the event is done; otherwise exactly one report |
| TelemetryLogger.PerformanceEvent.ReportProgress | packages/utils/telemetry-utils/src/logger.ts:584-586 | a report with the given suffix (the source defaults it to "update") |
| TelemetryLogger.PerformanceEvent.PerformanceEndMark | packages/utils/telemetry-utils/src/logger.ts:603-610 | measures once and clears the start mark |
| TelemetryLogger.PerformanceEvent.End | packages/utils/telemetry-utils/src/logger.ts:597-601 | reports "end" if not done, and the event is done afterwards |
| TelemetryLogger.PerformanceEvent.AutoEnd | packages/utils/telemetry-utils/src/logger.ts:588-595 | reports "end" only if still running and the end marker is set, and the event is done afterwards |
| TelemetryLogger.PerformanceEvent.Cancel | packages/utils/telemetry-utils/src/logger.ts:612-617 | reports "cancel" only when the cancel marker is defined, under that category unless the props give one; the event is done afterwards |
| TelemetryLogger.CancelCategoryReported | packages/utils/telemetry-utils/src/logger.ts:612-615 | the cancel report carries the marker's category |

## Left out

- `NodeChangeInverter` takes an index that may be undefined. `invertMark` always passes the input index (invert.ts:127, 133), so the model takes the index as an integer.
- CrossField.Lookup: `get` is assumed to answer, among the stored entries of the key that overlap the range, the one with the least start, as the sorted range map behind the manager does. That range map is not part of this model.
- Helpers that invert.ts imports from the sequence field's utils (`areInputCellsEmpty`, `getInputLength`, `isConflictedReattach`, `isReattachConflicted`, `splitMark`, `withNodeChange`) are not part of this model. They are defined here by their documented meaning, together with `MarkCount`, the number of cells a mark spans, which `getInputLength` uses. `isConflictedReattach` and `isReattachConflicted` are a stored flag on reattach marks.
- The id allocator `genId` is not used by the code shown and is not modelled. Neither is the `reserve` flag of the manager's `get`.
- `MarkListFactory` merging of adjacent marks is not modelled; pushing a mark appends it.
- Nested node changes are abstract (the type parameter `C`), and so are node contents (`N`).
- The round trip covers skips, inserts, deletes of filled cells, revives of emptied cells and modifies. It does not cover moves, transient detaches or conflicted reattaches, which need the cross-field semantics.
- The manager's entries are one list. It does not model how separate fields share a manager.
- Escape: `encodeURIComponent` is modelled on Unicode scalar values, encoded as UTF-8. The JavaScript function throws on a lone UTF-16 surrogate, and that error path is not modelled.
- Split: path segments are recovered by splitting at the last "/". This is a way of stating path properties, not an operation of the source.
- Telemetry numbers are integers. `formatTick` rounding of `duration` and `numberFromString` are not modelled (floating point).
- `convertToBaseEvent` stringifies array and object values as JSON. Values here are strings, integers and booleans, so that step is the identity.
- `Event` keeps the name in its own field. Its property map is not prevented from also holding a key "eventName"; filling from bags never adds one, because `IsDefined` counts that key as defined.
- A property set explicitly to undefined is treated like an absent one. In particular, `sendErrorEvent` then defaults `error` to the event name.
- An `eventName` inside the properties spread into a performance report replaces the name only when it is a plain string.
- `extractLogSafeErrorProperties` and `isILoggingError` are not part of this model. Their results are the fields of `ErrorInfo`, and `generateStack()` is a parameter.
- The sinks' `send` calls are not modelled. A logger's send is modelled by the event it forwards: `ChildSent`, `Redacted`, the `Send*` functions and `PerformanceEvent.reports`.
- `MultiSinkLogger`, the monitoring-context mixin and the `TelemetryUTLogger` and null loggers' empty methods are not modelled.
- The performance clock is a parameter `now`. Heap-size recording (`recordHeapSize`) is not modelled because it reads host memory. Window performance marks are recorded as `Measure` values.
- `PerformanceEvent.timedExec` and `timedExecAsync` are not modelled. They run a callback, then `autoEnd`, or `cancel` on an exception; exceptions and promises are not modelled.
