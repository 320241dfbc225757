# Verification of the 4dgs keyframe-delta model, its audits and its framing

This project models, in Dafny, the parts of the repository whose correctness is an
argument rather than an inspection, and proves the properties they rest on.

**The keyframe-delta temporal model.** A file states populations of gaussians over time:
keyframes state every row, deltas carry integer differences of quantization bins against a
record behind them. `Populations` gives the meaning of a delta on maps from identity to
rows; `Composition` is the decoder's array code, stage by stage, proved against it.
`Records.Composed` then defines what any state record of a file denotes, and the four read
paths are all proved against that one definition: the collecting reader with its offset map
and byte budget (`StreamedReader`), the incremental reader that keeps two states
(`StreamedScan`), the pass over the index and the walk of one entry's chain
(`IndexedReader`, over `Timeline`). `ReadPaths` and `SkippingBack` compare the paths with one
another, and `IndexRestates` says when an index is accepted at all: exactly when the file
streams and every entry restates its record, bands included. `IndexBands` is the check that an
index names the SH bands that physically follow each state record.

The writer (`Trajectories`, `DeltaGroups`, `WireDeltas`, `SequenceWriter`) restates
trajectories, splits samples into groups and writes records at a cursor; `WriterLaws`,
`AbsoluteBins`, `WriterAccepted` and `WriterStreams` prove the round trip, the error bound over
the reals, when composed bins are absolute ones, and that every reader accepts what it emits.

Five modules say what the shared definitions mean, in the registry's own numbers and without
naming them, so that a definition used alike by code and specification cannot be wrong in both:
`CompositionEffects` (what a delta does to each row, channel by channel, and what accepting one
takes), `StateRules` (what reading a state record takes), `ReadBins` (what a reader composes
from a written file, as bins on a straight line), `WriterCadence` (where keyframes fall and what
each delta references, from the cadence and the forced indices) and `BudgetBounds` (what the
decoded-state budget has to cover).

**The identity audits.** `IntroducedIds`, `IdentityAudit` and `IdentityPartitions` are the
Python audits (one bounded pass; exact partitioned count). `WordBits` and `IdentityCounter`
are the C++ bitmap count, `SequenceInputs` the C++ encoder's input guard.

**Framing and caching.** `Framing`, `Crc` and `LateFrontMatter` are the C++ walk over untrusted
bytes, its checksum, and the three searches for misplaced front matter; `CrcDetects` says what the
checksum sees. `FrontWindow` is the indexed reader's sliding window.

**Canonical order.** `CanonicalOrder` is the comparator and the folds behind the conformance
summary; `CanonicalKeys` says which field decides between two rows, and what the summary counts.

Three facts about the code came out of the proofs and differ from, or sharpen, its own words:

- The module comments say a composed bin is the bin an absolute statement of that instant
  would carry (`python/fourdgs/fourdgs/keyframe_delta.py:6-20`). The writer leaves an untouched
  row's older position and birth-time anchor in place, so this is false of some sequences:
  `AbsoluteBins.OldAnchorStays` writes one and reads it back. `AbsoluteBins.AbsoluteBinsExactly`
  gives the exact condition, a comparison anyone can make on the samples before writing: the
  sample that last stated the row (`WriterLaws.StatedFrom`) and this one round their instants to
  the same birth-time bin. `AbsoluteBins.ComposesAbsolutely` says it of a whole chunk as a reader
  composes it. What does hold at every depth is the bound on the trajectory's centre,
  `WriterLaws.ErrorNeverAccumulates`.
- `compose_chain` accepts a chained delta that references back past the state before it, and
  `scan_indexed` refuses it. `ReadPaths.PassIsSeekingInPlace` says exactly what the pass checks
  beyond the seeks; `SkippingBack.SkippingBackOnlySeeks` is a witness.
- Applying births before deaths can refuse a delta the code accepts, but never changes an
  accepted result: `CompositionLaws.AnyGroupOrder`. `CompositionLaws.AcceptedOrders` says exactly
  which orders accept which deltas. The witness, `CompositionLaws.BirthsFirstMayRefuse`, concerns
  direct callers of composition: a file's groups carry only registered attributes and its live
  rows state every required one, so births read from a file always fit.

Conventions. A timeline instant is a real, or one of the three non-finite floats, compared the
IEEE way. A column is a sequence aligned with an identity sequence, and results are stated on the
map from identity to row, because rows are found by identity and never by position. Attribute
streams arrive decoded or undecodable; the byte length of a record is an arbitrary number of at
least its nine framing bytes. `rint` is rounding to nearest with ties to even over the reals.
Unsigned words are natural numbers with their bitwise operators defined by halves.

## Model

| member | source | states |
|---|---|---|
| Composition.KeyframeState | python/fourdgs/fourdgs/keyframe_delta.py:92-105 | accepts exactly the tables whose identities are unique, columns aligned, bins signed 32-bit and rotation indices 0..3; a refusal names a rule that is broken |
| Composition.Bury | python/fourdgs/fourdgs/keyframe_delta.py:152-163 | deaths leave exactly the spared identities, each with the row it had, and refuse exactly an unknown identity |
| Composition.RowsFor | python/fourdgs/fourdgs/keyframe_delta.py:303-317 | finds each wanted identity's row whatever order either side is in, and refuses exactly when one is absent |
| Composition.UpdateColumn | python/fourdgs/fourdgs/keyframe_delta.py:165-189 | one column after an update: named rows restated or moved, all others kept; a refusal points at an out-of-range result |
| Composition.Update | python/fourdgs/fourdgs/keyframe_delta.py:165-189 | all updated columns at once; a refusal names a rule the group breaks, success means none |
| Composition.CheckBirths | python/fourdgs/fourdgs/keyframe_delta.py:206-213 | a birth group passes exactly when every column is as tall as its identities and in range; a refusal names the one that is broken |
| Composition.MergeBirths | python/fourdgs/fourdgs/keyframe_delta.py:236-258 | every merged column is the old rows followed by the born ones, lanes filled with zeros where absent; refused only for an attribute some live row has no value for |
| Composition.Bear | python/fourdgs/fourdgs/keyframe_delta.py:191-214 | merged births: accepted exactly when none of the five birth rules is broken, and then the merge |
| Composition.ApplyDelta | python/fourdgs/fourdgs/keyframe_delta.py:108-217 | the in-place composition is the map operation: it succeeds only on a delta that breaks no rule, the result is valid and denotes `Compose`, and a refusal names a rule the delta breaks |
| Populations.ViewIsValid | python/fourdgs/fourdgs/keyframe_delta.py:69-85 | a valid table denotes a population whose rows have exactly its lanes, right widths and ranges, over exactly its identities |
| CompositionLaws.ComposeKeepsValid | python/fourdgs/fourdgs/keyframe_delta.py:108-286 | composing an acceptable delta keeps a population valid: widths, 32-bit bins, rotation indices |
| CompositionLaws.RowOrderOfState | python/fourdgs/fourdgs/keyframe_delta.py:303-317 | permuting a state's rows does not change the population it denotes |
| CompositionLaws.RowOrderOfDelta | python/fourdgs/fourdgs/keyframe_delta.py:108-217 | permuting the rows of each group changes neither which rules a delta breaks nor what it composes to |
| CompositionLaws.ZeroLaneIsAbsentLane | python/fourdgs/fourdgs/keyframe_delta.py:181-184 | a table that spells out an absent identity lane as zeros denotes the same population: the same rows, and the same lanes apart from the identity lanes |
| CompositionLaws.AbsentLaneThroughChain | python/fourdgs/fourdgs/keyframe_delta.py:59-63 | two populations that differ only in which identity lanes are present accept the same chains of deltas, and stay alike through every one |
| CompositionLaws.AnyGroupOrder | python/fourdgs/fourdgs/keyframe_delta.py:152-217 | an accepted delta gives one result in every order of its groups |
| CompositionLaws.AcceptedOrders | python/fourdgs/fourdgs/keyframe_delta.py:152-258 | an accepted delta is accepted in every order that buries before it bears, and in an order that bears first exactly when there are no births, nobody is live, or the births bring no column the population lacks |
| CompositionLaws.BirthsFirstMayRefuse | python/fourdgs/fourdgs/keyframe_delta.py:240-245 | a delta that is accepted deaths first and refused births first |
| CompositionEffects.UpdatedRow | python/fourdgs/fourdgs/keyframe_delta.py:59-66 | an identity an accepted delta updates: rotation index, rotation and the three identity lanes (2, 3, 11, 12, 14) are the group's own bins whatever was held; every other carried attribute is held plus carried, channel by channel |
| CompositionEffects.KeptRow | python/fourdgs/fourdgs/keyframe_delta.py:165-189 | a survivor keeps, bin for bin, every attribute the update group does not carry or does not name it in |
| CompositionEffects.BornRow | python/fourdgs/fourdgs/keyframe_delta.py:236-258 | a newborn has the birth group's bins, and zero in an identity lane the group leaves out |
| CompositionEffects.LiveIds | python/fourdgs/fourdgs/keyframe_delta.py:152-217 | who is live afterwards: the held who did not die, and the born |
| CompositionEffects.AcceptedExactly | python/fourdgs/fourdgs/keyframe_delta.py:108-258 | a delta is accepted exactly when nobody is named twice and the groups name whom they may, rotations come with their indices and 8, 9, 10 not at all, every sum and label is signed 32-bit and every index 0 to 3, and births bring the columns there are |
| CompositionEffects.UpdatedCell | python/fourdgs/fourdgs/keyframe_delta.py:165-189 | the same in the decoder's tables, cell by cell: what any result of `ApplyDelta` holds for an updated identity |
| CompositionEffects.KeptCell | python/fourdgs/fourdgs/keyframe_delta.py:152-189 | a spared row the updates say nothing of keeps its cell |
| CompositionEffects.BornCell | python/fourdgs/fourdgs/keyframe_delta.py:191-258 | a newborn's cell is the birth group's, or zero |
| Sorting.ArgSort | python/fourdgs/fourdgs/keyframe_delta.py:303-317 | the stable argsort used for row lookup: a rearrangement of all positions in non-decreasing order of value, equal values in the order they came |
| Sorting.SearchSorted | python/fourdgs/fourdgs/keyframe_delta.py:303-317 | binary search returns the leftmost place: everything before is smaller, nothing from it on is |
| DecodedBudget.DecodedStateBudget.Check | python/fourdgs/fourdgs/decoded_budget.py:44-56 | refuses exactly when the retained and additional bytes pass the limit |
| DecodedBudget.DecodedStateBudget.Retain | python/fourdgs/fourdgs/decoded_budget.py:58-62 | charges exactly the added bytes when they fit and nothing otherwise, so retained never passes the limit |
| BudgetBounds.RowCost | python/fourdgs/fourdgs/decoded_budget.py:65-78 | a population whose columns are registered costs at most 200 bytes a row, and exactly 200 with every lane |
| BudgetBounds.KeyframeCovers | python/fourdgs/fourdgs/decoded_budget.py:94-96 | a keyframe's working set is at least twice its state's capacity and the body, with equality when every lane is present |
| BudgetBounds.DeltaCovers | python/fourdgs/fourdgs/decoded_budget.py:99-113 | a delta's working set is at least twice the composed state's capacity, 200 bytes for each row of the three groups, and the body; with equality when every lane is present and nobody dies |
| Records.DecodeKeyframe | python/fourdgs/fourdgs/keyframe_delta_file.py:938-1015 | succeeds exactly on keyframes whose counts, required columns, ranges and own-timestamp birth times hold |
| Records.DecodeDelta | python/fourdgs/fourdgs/keyframe_delta_file.py:1018-1122 | succeeds exactly on deltas whose groups are as declared and compose onto the reference, and returns that composition |
| StateRules.KeyframeExactly | python/fourdgs/fourdgs/keyframe_delta_file.py:938-1015 | a keyframe is accepted exactly when it has as many rows as declared, each identity once, every bin signed 32-bit and every rotation index 0 to 3, and, unless it is empty, columns 0 to 10 and in every row the birth-time bin nearest its own timestamp, ties to even |
| StateRules.DeltaExactly | python/fourdgs/fourdgs/keyframe_delta_file.py:1018-1122 | a delta is accepted exactly when its groups are as tall as declared, newborns have columns 0 to 10, deaths are bare identities, and the groups name, carry and bear rightly |
| StateRules.RecordExactly | python/fourdgs/fourdgs/keyframe_delta_file.py:1159-1221 | a record is sound for the collecting reader exactly when it stands where it may, opcodes 1, 3, 4, 5, 8 and 16 parse, headers are of this profile, a keyframe has a header and a grid before it, and states decode |
| StateRules.OpcodeNumbers | python/fourdgs/fourdgs/opcode.py:12-33 | the opcode of each record the readers parse, by number |
| StateRules.PlacedExactly | python/fourdgs/fourdgs/exceptions.py:97-120 | a record may stand where it does exactly when no opcode 5 or 16 came before or it is none of the fifteen front-matter opcodes |
| StateRules.ReferencedExactly | python/fourdgs/fourdgs/keyframe_delta_file.py:2163-2205 | a streamed delta is in place exactly when its mode is 0 or 1, its reference is the last keyframe or the last state accordingly, its group the last keyframe, and its depth one more than the reference's |
| StreamedReader.GridSettles | python/fourdgs/fourdgs/keyframe_delta_file.py:1159-1187 | once a state record has been read, well-placed front matter can no longer change the grids |
| StreamedReader.ReferenceCameBefore | python/fourdgs/fourdgs/keyframe_delta_file.py:1208-1221 | a delta that decodes references a state record strictly before it in the file |
| StreamedReader.ReadDelta | python/fourdgs/fourdgs/keyframe_delta_file.py:1208-1257 | one delta against the offset map: accepted exactly when it is sound and fits, and every invariant of the pass is kept |
| StreamedReader.DecodeStreamed | python/fourdgs/fourdgs/keyframe_delta_file.py:1144-1268 | succeeds exactly on sound files that fit the limit, lists every state record in order with the population it denotes, and retains the sum of their capacities |
| StreamedReader.LargerBudgetSameStates | python/fourdgs/fourdgs/keyframe_delta_file.py:1144-1268 | a file decoded under one limit decodes to the same chunks, in every field, and the same retained bytes under every larger one |
| StreamedScan.KeepsNext | python/fourdgs/fourdgs/keyframe_delta_file.py:2119-2134 | a record that is no state leaves both retained states describing the same records |
| StreamedScan.ScanReference | python/fourdgs/fourdgs/keyframe_delta_file.py:2163-2205 | one of the two retained states is the reference exactly when the delta's stated reference, group and depth are the ones its mode implies |
| StreamedScan.ScanBands | python/fourdgs/fourdgs/keyframe_delta_file.py:2228-2267 | a band joins the open run exactly when legal there; any other record closes the run exactly when it is complete |
| StreamedScan.ScanStreamed | python/fourdgs/fourdgs/keyframe_delta_file.py:2059-2280 | keeping two states, completes exactly on acceptable files and hands out, at every state record, the population its offset denotes |
| StreamedScan.StreamedReadersAgree | python/fourdgs/fourdgs/keyframe_delta_file.py:1144-1268 | where both streamed readers finish, they hand out the same populations in the same order |
| Timeline.CheckTiling | python/fourdgs/fourdgs/keyframe_delta.py:347-395 | accepts exactly the indexes that, in start order, have no gap, overlap, unusable entry or uncovered end |
| Timeline.TilesInReals | python/fourdgs/fourdgs/keyframe_delta.py:347-395 | tiling over the reals: starts that never go back, each end the next start, the first at 0 and the last at the duration when it is known, and an infinite end only for an infinite duration |
| Timeline.ByStartSorts | python/fourdgs/fourdgs/keyframe_delta.py:365 | readers take entries in order of start, those that start together in the order of the index |
| Times.ComparedAsIeee | python/fourdgs/fourdgs/keyframe_delta.py:366-395 | instants compare as floats: NaN with nothing, any two others in exactly one way, the infinities at the ends |
| Timeline.SeekIsLookup | python/fourdgs/fourdgs/keyframe_delta.py:347-410 | every instant of an accepted, non-empty timeline is covered by exactly one entry, in any index order, zero-width entries and an open end included |
| Timeline.ChainFrom | python/fourdgs/fourdgs/keyframe_delta.py:413-450 | the backward walk returns exactly the chain of references, or refuses exactly when it is broken, too long or not the stated depth |
| Timeline.ChainDescends | python/fourdgs/fourdgs/keyframe_delta.py:413-450 | a chain's offsets strictly increase from its keyframe, within the index, each delta referencing the one before |
| Timeline.ChainFitsIndex | python/fourdgs/fourdgs/keyframe_delta.py:438-440 | for an entry of the index the length guard can never fire |
| Timeline.ChainFor | python/fourdgs/fourdgs/keyframe_delta.py:398-410 | answers a seek from the index alone, exactly when the covering entry's chain is whole and as deep as stated |
| IndexedReader.ScanEntry | python/fourdgs/fourdgs/keyframe_delta_file.py:1933-2053 | one entry of the pass is accepted exactly when it is linked in place, decodes to what it states, and its windows and bands are legal |
| IndexedReader.ScanIndexed | python/fourdgs/fourdgs/keyframe_delta_file.py:1901-2056 | the pass completes exactly on sound indexes and hands out, entry by entry, the population each record denotes |
| IndexedReader.ComposeLinks | python/fourdgs/fourdgs/keyframe_delta_file.py:1614-1708 | composing a chain oldest first succeeds exactly when every record on it decodes to what its entry says |
| IndexedReader.ComposeChain | python/fourdgs/fourdgs/keyframe_delta_file.py:1527-1717 | a seek succeeds exactly when the chain reaches a keyframe, is linked and as deep as stated, and every record on it decodes; it returns what the offset denotes |
| IndexedReader.WindowsByView | python/fourdgs/fourdgs/keyframe_delta_file.py:1428-1454 | the window check on columns decides the same question on the population |
| ReadPaths.OnePassImpliesSeeking | python/fourdgs/fourdgs/keyframe_delta_file.py:1527-1717 | with distinct offsets, a completed pass implies every entry's seek succeeds, within its own group |
| ReadPaths.PassIsSeekingInPlace | python/fourdgs/fourdgs/keyframe_delta_file.py:1901-2056 | the pass accepts exactly when every entry seeks and stands where its mode says in the timeline |
| ReadPaths.SeekIsPassOverChain | python/fourdgs/fourdgs/keyframe_delta_file.py:1559-1612 | a seek accepts an entry exactly when the pass would accept that entry's chain as an index of its own, windows and bands being asked of the last entry |
| ReadPaths.SeekAfterScan | python/fourdgs/fourdgs/keyframe_delta_file.py:1901-2056 | after a completed pass every seek returns the population the pass handed out |
| ReadPaths.StreamedIsSought | python/fourdgs/fourdgs/keyframe_delta_file.py:1144-1268 | the population streamed at a record is the one its offset denotes to a seeking reader |
| ReadPaths.AllPathsAgree | python/fourdgs/fourdgs/keyframe_delta_file.py:1144-2280 | where all four paths complete on a file and its index, every shared offset has one population |
| SkippingBack.SkippingBackOnlySeeks | python/fourdgs/fourdgs/keyframe_delta_file.py:2009-2016 | an index every entry of which seeks and which the pass refuses |
| Trajectories.QuantizedIsNear | python/fourdgs/fourdgs/quantization.py:242-259 | a dequantized bin is within half a step of the value |
| Trajectories.RebaseMovesLittle | python/fourdgs/fourdgs/keyframe_delta_file.py:271-298 | restating a trajectory moves its centre by at most half a step, and by the same amount at every instant |
| Trajectories.RestatedBins | python/fourdgs/fourdgs/keyframe_delta_file.py:289-297 | the restated position bin, in bins and steps alone, is within half a step of the old one moved by velocity times the change of birth time, and the birth-time bin is the nearest to the instant |
| Rounding.RintIsNearestEven | python/fourdgs/fourdgs/quantization.py:242-259 | rounding gives the nearest integer, and of two equally near the even one, and nothing else does |
| Trajectories.CentreIsLine | python/fourdgs/fourdgs/keyframe_delta_file.py:2748 | the centre is a straight line through the position bin at the birth-time bin, with the velocity bin |
| Trajectories.RebaseFixes | python/fourdgs/fourdgs/keyframe_delta_file.py:271-298 | restating changes nothing exactly when the birth-time bin is already the instant's |
| Trajectories.KeyframeMuIsReanchored | python/fourdgs/fourdgs/keyframe_delta_file.py:301-327 | restating a keyframe's birth times is redundant after its trajectories were restated, and a reader's own check passes |
| DeltaGroups.CheckInvariants | python/fourdgs/fourdgs/keyframe_delta_writer.py:70-93 | refuses exactly a live identity that changes an attribute its grids derive from |
| DeltaGroups.ChangedRows | python/fourdgs/fourdgs/keyframe_delta_writer.py:115-123 | marks exactly the live rows any of whose bins moved |
| DeltaGroups.Split | python/fourdgs/fourdgs/keyframe_delta_writer.py:96-140 | updates are exactly the moved, births the new and deaths the gone; each row reaches the target from the reference |
| DeltaGroups.SortedUnique | python/fourdgs/fourdgs/keyframe_delta_writer.py:104 | the sorted death list repeats nobody |
| WireDeltas.AnchorToState | python/fourdgs/fourdgs/keyframe_delta_file.py:494-501 | positions and birth times subtracted from the retained state reach the target from it, like every other column |
| WireDeltas.Retain | python/fourdgs/fourdgs/keyframe_delta_file.py:503-515 | what is retained keeps an untouched live row's older anchor and takes everything else from the sample |
| WireDeltas.WireComposable | python/fourdgs/fourdgs/keyframe_delta_file.py:490-518 | no rule of composition is broken by what the writer puts on the wire |
| WireDeltas.EncodedExactly | python/fourdgs/fourdgs/keyframe_delta_writer.py:143-158 | a group with rows is written with its columns and one without with none |
| WireDeltas.Telescopes | python/fourdgs/fourdgs/keyframe_delta_file.py:481-515 | composing the written delta onto its reference gives exactly the retained population |
| SequenceWriter.DepthOfReference | python/fourdgs/fourdgs/keyframe_delta_file.py:472-479 | a delta is one deeper than its reference and in the same group |
| SequenceWriter.WriteSequence | python/fourdgs/fourdgs/keyframe_delta_file.py:344-578 | fails exactly on no samples, on changed grids within a group or on a chain deeper than 16 bits; otherwise every sample is in the file over what was retained for its reference |
| WriterCadence.KeyframesFall | python/fourdgs/fourdgs/keyframe_delta_writer.py:161-162 | sample i is written as a keyframe exactly when it is the first, was forced, or is a multiple of the cadence, and its entry says so |
| WriterCadence.KeyframeStandsAlone | python/fourdgs/fourdgs/keyframe_delta_file.py:438-469 | a keyframe's entry has depth 0, no reference and itself as its group, forced ones included |
| WriterCadence.DeltaStandsOn | python/fourdgs/fourdgs/keyframe_delta_file.py:471-551 | a delta names its group's keyframe; in mode 0 it references that keyframe at depth 1, in mode 1 the record before it at its distance from the keyframe; entry and record agree |
| WriterCadence.RecordRuns | python/fourdgs/fourdgs/keyframe_delta_file.py:436-551 | a record runs from its sample's instant to the next sample's or the duration, and its entry counts the sample's gaussians |
| WriterCadence.ChainsStayShort | python/fourdgs/fourdgs/keyframe_delta_file.py:472-479 | with a cadence no depth reaches it: at most the distance from the last multiple |
| WriterCadence.SeeksStayShort | python/fourdgs/fourdgs/keyframe_delta_file.py:581-585 | so a seek reads at most as many records as the cadence, from its group's keyframe, and only itself at a keyframe |
| WriterCadence.WritableExactly | python/fourdgs/fourdgs/keyframe_delta_writer.py:70-93 | a sequence can be written exactly when every delta's live rows keep attributes 8, 9 and 10 of the sample it is written over and, chained, no group runs past 65536 samples |
| WriterCadence.CadenceFits | python/fourdgs/fourdgs/keyframe_delta_writer.py:161-162 | with a cadence of at most 65536 only the kept attributes matter |
| WriterCadence.FileLaidOut | python/fourdgs/fourdgs/keyframe_delta_file.py:391-578 | records lie end to end from byte 8: header, grids, windows, the states, an entry a sample when an index is wanted, the footer last |
| WriterCadence.IndexIsCollected | python/fourdgs/fourdgs/keyframe_delta_file.py:553-556 | reading the entries back front to back gives the writer's index, or nothing when none was wanted |
| SequenceWriter.SampleSameGrids | python/fourdgs/fourdgs/keyframe_delta_file.py:503-515 | retaining a population never touches what its grids derive from |
| WriterLaws.RoundTrip | python/fourdgs/fourdgs/keyframe_delta_file.py:438-551 | at every chunk, any depth, cadence, forced keyframes and either mode, a reader composes the population the writer retained, over the sample's identities |
| WriterLaws.RetainedRowIsFrom | python/fourdgs/fourdgs/keyframe_delta_file.py:474-515 | at any depth a retained row is the anchor of the sample that last stated it, told from the samples alone, and everything else as this sample has it |
| WriterLaws.StatedIsWritten | python/fourdgs/fourdgs/keyframe_delta_file.py:485-515 | the rows a delta record names as updates or births are exactly those the samples say are stated there |
| WriterLaws.ErrorNeverAccumulates | python/fourdgs/fourdgs/keyframe_delta_file.py:481-515 | at every depth and every real time the composed centre is within half a position step of the restated sample's along each axis, and equal for a row just stated |
| WriterLaws.ErrorAgainstSample | python/fourdgs/fourdgs/keyframe_delta_file.py:271-298 | against the sample as quantized, before it was restated, the bound is one step |
| ReadBins.ReadRow | python/fourdgs/fourdgs/keyframe_delta_file.py:474-515 | the row a reader composes, channel by channel and without centre or target: every bin off the anchor is the sample's, the birth-time bin is the one nearest the instant of the sample that last stated the row, and the position is on the sample's own straight line there to within a step, or half a step where the row was just stated |
| AbsoluteBins.AbsoluteBinsExactly | python/fourdgs/fourdgs/keyframe_delta.py:6-20 | a retained row is the sample's own in every column exactly when the sample that last stated it and this one share a birth-time bin; off the anchor it always is |
| AbsoluteBins.ComposesAbsolutely | python/fourdgs/fourdgs/keyframe_delta.py:6-20 | what a reader composes at a chunk is what a keyframe there would state exactly when that holds of every row |
| AbsoluteBins.OldAnchorStays | python/fourdgs/fourdgs/keyframe_delta_file.py:503-515 | a sequence the writer accepts, whose file is read back with the first instant's anchor in the second chunk |
| WriterAccepted.IndexTiles | python/fourdgs/fourdgs/keyframe_delta_file.py:375-376 | the written index tiles the timeline when the samples do |
| WriterAccepted.IndexInOrder | python/fourdgs/fourdgs/keyframe_delta_file.py:432-551 | it is in timeline order already, with strictly increasing offsets and legal entry shapes |
| WriterAccepted.IndexAccepted | python/fourdgs/fourdgs/keyframe_delta_file.py:432-551 | the pass over the written index completes and every entry of it seeks |
| WriterAccepted.ChainReachesKeyframe | python/fourdgs/fourdgs/keyframe_delta_file.py:581-585 | a seek's chain starts at the keyframe the writer opened the group with and is as long as the writer's depth |
| WriterStreams.WriterIsSound | python/fourdgs/fourdgs/keyframe_delta_file.py:391-578 | the collecting reader accepts every written file that its budget affords |
| WriterStreams.WriterScans | python/fourdgs/fourdgs/keyframe_delta_file.py:391-578 | the incremental reader accepts every written file |
| WriterStreams.WriteAndSeek | python/fourdgs/fourdgs/keyframe_delta_file.py:344-578 | writing and then reading by index returns, at every chunk and on both indexed paths, what the writer retained |
| WriterStreams.WriteAndStream | python/fourdgs/fourdgs/keyframe_delta_file.py:344-578 | writing and then streaming returns what the writer retained, and only the budget can stop the collecting reader |
| IndexBands.CheckIndexBands | python/fourdgs/fourdgs/keyframe_delta_file.py:1786-1898 | accepts exactly when entries and state records correspond one to one, every band lies in the run after a state record, and each entry names exactly its record's run, which is all bands of the degree or none |
| IndexBands.FinishOwner | python/fourdgs/fourdgs/keyframe_delta_file.py:1815-1847 | closing a run succeeds exactly when the owner's entry names it |
| IndexRestates.AcceptedIndexRestates | python/fourdgs/fourdgs/keyframe_delta_file.py:1457-1510 | for a file and an index both in time order: the pass and the band check accept the index exactly when the incremental reader accepts the file and the index has one entry for each state record, equal to it in every field both state, with its bands in any order and its population's size, every window in the table |
| IndexRestates.EntryBands | python/fourdgs/fourdgs/keyframe_delta_file.py:1720-1898 | the band check and the pass's own band reads together ask exactly that the run after the record is whole, its streams fit the rows born, and the entry lists it |
| IndexRestates.RangesExactly | python/fourdgs/fourdgs/keyframe_delta_file.py:1735-1783 | at each band range an entry states there must be a record of that length, that band, with a stream of inner attribute 7, the rows born, 3 (2 b + 1) channels and legal codes |
| IndexRestates.StreamsRunByRun | python/fourdgs/fourdgs/keyframe_delta_file.py:2228-2267 | a stream accepts all bands exactly when each lies in the run after a state record and each such run is accepted by itself |
| IntroducedIds.IntroducedIdentities.FirstRepeat | python/fourdgs/fourdgs/keyframe_delta_file.py:2356-2380 | returns the first newborn identity, in state order, that either tier holds, by either search |
| IntroducedIds.IntroducedIdentities.Add | python/fourdgs/fourdgs/keyframe_delta_file.py:2382-2402 | takes in exactly the new identities, keeping the array strictly sorted, the tiers disjoint and the set tier at most 65536 |
| IntroducedIds.InsertSorted | python/fourdgs/fourdgs/keyframe_delta_file.py:2404-2417 | merging a sorted batch keeps the array strictly increasing and holds exactly both sides |
| IdentityAudit.BoundedIdentityAudit.Observe | python/fourdgs/fourdgs/keyframe_delta_file.py:2471-2519 | one state is refused for a value outside u32, then for the first identity back from the dead, then for the ceiling, and otherwise taken in; past the ceiling nothing is consumed |
| IdentityAudit.Audit | python/fourdgs/fourdgs/keyframe_delta_file.py:2601-2646 | over a whole timeline: the exact distinct count, or the first offending state and what it breaks |
| IdentityPartitions.ScanRange | python/fourdgs/fourdgs/keyframe_delta_file.py:2557-2588 | one prefix: its exact count, a refusal that is deserved, or more identities than the capacity |
| IdentityPartitions.Split | python/fourdgs/fourdgs/keyframe_delta_file.py:2590-2598 | a prefix's exact count and exact refusals by recursive splitting; the 32-bit assertion is never reached and the scans are bounded |
| IdentityPartitions.CountPartitioned | python/fourdgs/fourdgs/keyframe_delta_file.py:2526-2598 | for any capacity the count is the size of the union of live sets, refusals are exactly those of an audit without a ceiling, and at most 1 + 64 d / (capacity + 1) scans are made |
| IdentityPartitions.BothCountsAgree | python/fourdgs/fourdgs/keyframe_delta_file.py:2526-2646 | where the one-pass audit has room, both counts agree on every timeline |
| WordBits.ClearingTakesOne | cpp/tools/validate.cpp:357-360 | clearing the lowest set bit takes exactly one from the number of set bits |
| WordBits.SettingSets | cpp/tools/validate.cpp:344-353 | setting a bit sets that bit and no other |
| WordBits.CountBits | cpp/tools/validate.cpp:356-361 | the clear-lowest loop returns the number of set bits |
| IdentityCounter.MarkPartition | cpp/tools/validate.cpp:327-361 | replaying a partition over the bitmap stops at the first repeat, and otherwise leaves one set bit per identity |
| IdentityCounter.BucketsAreExact | cpp/tools/validate.cpp:298-307 | bucket and low bits together identify a u32 and the bucket is one of sixteen |
| IdentityCounter.WordsHoldLows | cpp/tools/validate.cpp:344-353 | the bitmap's words are of 64 bits, and their bits are the low parts of the identities one for one |
| IdentityCounter.UniqueByPartition | cpp/tools/validate.cpp:298-307 | a repeat among all introductions is a repeat within its own partition |
| IdentityCounter.Counter.Finish | cpp/tools/validate.cpp:309-364 | returns the number of introductions exactly when no identity was introduced twice, and otherwise names the first repeat of the first bucket that holds one |
| SequenceInputs.CheckColumns | cpp/src/backend_capi.cpp:665-699 | the division-based bound accepts exactly the columns that hold `count` rows of their width, with a 32-bit count |
| SequenceInputs.ColumnsInFull | cpp/src/backend_capi.cpp:665-699 | the nine columns in full: 3, 3, 4, 4, 3 and four times 1 floats a row, and a count below 2^32 |
| SequenceInputs.CheckInputs | cpp/src/backend_capi.cpp:707-802 | keeping one previous population, accepts exactly tiled sequences with matching columns, identities unique per sample, each living over one unbroken run |
| SequenceInputs.StepsAreRuns | cpp/src/backend_capi.cpp:746-800 | nobody returning at any step is the same as every identity living over one contiguous run |
| SequenceInputs.GuardsAgree | cpp/src/backend_capi.cpp:746-800 | the C++ guard and the Python audit refuse the same timelines of u32 identities |
| SequenceInputs.CountedExactly | python/fourdgs/fourdgs/keyframe_delta_file.py:2526-2646 | the counts are refused exactly where some identity is not 0 to 2^32 - 1 or lives over a broken run, and the one-pass audit also where the identities outnumber its ceiling; the count is that of everyone who ever lives |
| Framing.OverrunIsSeen | cpp/tools/walk.cpp:120-123 | saturating and wrapping 64-bit arithmetic detects exactly the frames that run past the file |
| Framing.MagicSpelled | python/fourdgs/fourdgs/serialization.py:28 | the magic is 0x89, "4DGS1", carriage return, line feed |
| Framing.IntactTiles | cpp/tools/walk.cpp:310-418 | whole frames are contiguous from their start and none ends past the file |
| Framing.WalkFile | cpp/tools/walk.cpp:310-418 | the walk reports exactly the whole frames and the broken one if any, with bounded memory, visits each once in order, and ends by what is left over |
| Framing.FirstIntact | cpp/tools/walk.cpp:132-141 | two representatives per opcode suffice: it returns the first whole frame of the opcode, if there is one |
| Framing.CutKeepsPrefix | cpp/tools/walk.cpp:310-418 | cutting a file past its magic keeps exactly the whole frames that end by the cut |
| Framing.WalkOfCut | cpp/tools/walk.cpp:310-418 | walking the cut file reports exactly those frames |
| LateFrontMatter.LocateLate | cpp/src/scene.cpp:50-71 | the subtraction-guarded loop names the first state record and the first front matter after it, or finds neither |
| LateFrontMatter.VisitWalk | cpp/tools/validate.cpp:636-654 | the visitor on the walk gives the same answer, ignoring a broken last record |
| LateFrontMatter.FoldPlacement | python/fourdgs/fourdgs/exceptions.py:97-120 | the folded step function first refuses at that same record |
| LateFrontMatter.SearchesAgree | cpp/src/scene.cpp:50-71 | on every file that opens with the magic the three searches return one answer |
| Crc.LookupIsEightSteps | cpp/tools/walk.cpp:244-268 | a table lookup equals eight bitwise steps of the polynomial, for every register and byte |
| Crc.BuildTable | cpp/tools/walk.cpp:244-254 | entry i of the table is eight bitwise steps of i |
| Crc.Range | cpp/tools/walk.cpp:280-308 | the buffered checksum of a range is the one-shot checksum of exactly those bytes, and fails exactly on a backwards or short range |
| Crc.ChecksumFits | cpp/tools/walk.cpp:276-278 | a checksum is a 32-bit word |
| CrcDetects.PolynomialByPowers | cpp/tools/walk.cpp:244-254 | the polynomial, power by power, is that of IEEE 802.3 |
| CrcDetects.SmallChecksums | cpp/tools/walk.cpp:276-278 | the checksum of nothing is 0 and of a byte of ones 0xFF000000 |
| CrcDetects.RegisterIsOneDivision | cpp/tools/walk.cpp:262-269 | the register after a message is one run of bit steps over the whole message as a single number |
| CrcDetects.ShortChangeIsSeen | cpp/tools/walk.cpp:262-308 | two files that differ only within four consecutive bytes have different checksums |
| FrontWindow.FrontMatter.Ensure | python/fourdgs/fourdgs/indexed_reader.py:132-142 | the window covers the range afterwards exactly when the resource can, and still is the resource's own bytes |
| FrontWindow.FrontMatter.ReadContent | python/fourdgs/fourdgs/indexed_reader.py:110-130 | a record's content is a direct read of the resource whichever of three ways it was fetched |
| FrontWindow.ContentExactly | python/fourdgs/fourdgs/indexed_reader.py:117-120 | content starts at a record's ninth byte and runs to its length, the limit or the end of the resource, whichever is least |
| FrontWindow.FrontMatter.NextRecord | python/fourdgs/fourdgs/indexed_reader.py:96-108 | stepping to the next record answers as a direct read of its header would |
| FrontWindow.StepsAreFrames | python/fourdgs/fourdgs/indexed_reader.py:96-108 | whatever else is asked meanwhile, stepping hands out the whole frames of the resource in order, the ones the byte walk reports, and stops after the last |
| FrontWindow.PlayScript | python/fourdgs/fourdgs/indexed_reader.py:70-142 | any interleaving of steps and contents is answered as by direct reads; each request causes at most one read, no larger than the probe or the bytes that request needed |
| CanonicalOrder.RowBefore | cpp/conformance/canonical.cpp:442-477 | the comparator's two loops decide lexicographic order on rounded keys, labels and exact values |
| CanonicalOrder.OrderIsStrictWeak | cpp/conformance/canonical.cpp:115-140 | the comparator is a strict weak order for any rounding, with NaN and the infinities placed |
| CanonicalOrder.TiesShowTheSame | cpp/conformance/canonical.cpp:439-478 | rows that tie are equal in every field the summary can show, signed zeros included |
| CanonicalOrder.StableOrder | cpp/conformance/canonical.cpp:408-479 | the index order is a rearrangement that arranges the rows in the comparator's order |
| CanonicalOrder.Summarize | cpp/conformance/canonical.cpp:522-544 | the folds over the order compute the sums, counts, sample and digest of the sorted rows |
| CanonicalOrder.DecodeOrderIsInvisible | cpp/conformance/canonical.cpp:408-544 | any rearrangement of the decoded rows gives the same sample, left-to-right sums, counts and digest |
| CanonicalKeys.GoesBefore | cpp/conformance/canonical.cpp:442-477 | one row goes before another exactly when its floats first round below, or round together and its harmonics go first, or those agree and its membership does, or that agrees and it is exactly below first; NaN rounds with infinity and is exactly above it |
| CanonicalKeys.FirstRoundingDecides | cpp/conformance/canonical.cpp:115-119 | of finite rows the first float that rounds differently decides, whatever comes after |
| CanonicalKeys.HarmonicsDecide | cpp/conformance/canonical.cpp:424-435 | finite rows that round alike go by their first differing harmonic, whatever their exact values |
| CanonicalKeys.MembershipDecides | cpp/conformance/canonical.cpp:436-447 | then by the membership label |
| CanonicalKeys.ExactValueDecides | cpp/conformance/canonical.cpp:449-477 | and only then by the exact value |
| CanonicalKeys.ShownAsIs | cpp/conformance/canonical.cpp:175-197 | a shown row is the row itself but for the sign of a zero |
| CanonicalKeys.RowAdds | cpp/conformance/canonical.cpp:526-544 | one row more adds columns 0 to 2 and 13 to the sums and its harmonics to the digest, and is shown while fewer than sixteen are |
| CanonicalKeys.EmptySummary | cpp/conformance/canonical.cpp:530-533 | with no rows every sum and count is zero |
| CanonicalKeys.CountsRows | cpp/conformance/canonical.cpp:539-543 | the two counts are the numbers of rows whose column 18 is no number and whose columns 14 to 16 are all zero |

## Left out

- Byte layouts, attribute-stream codecs, compression, shuffling and zigzag: attribute streams arrive as tables or as undecodable, and a repeated attribute or unsupported codec counts as undecodable.
- The signed coding of identities: the model's round trip takes the identity stream as exact, which the format's own code gives for 0 to 2^31 - 1.
- Quantizing floats, colours and rotations: a sample enters the writer model already on its grids; only position, motion and birth time are dequantized.
- binary64 rounding: the reals stand for it, except where `rint` rounds to a bin.
- Records.DecodeDelta: does not model the refusal of a value that overflows binary32 (`_check_state_f32`), so its success is exact up to that check.
- StreamedReader.ReadDelta: leaves out the binary32 overflow refusal.
- StreamedReader.DecodeStreamed: leaves out the binary32 overflow refusal.
- StreamedScan.ScanStreamed: leaves out the binary32 overflow refusal.
- IndexedReader.ScanEntry: leaves out the binary32 overflow refusal.
- IndexedReader.ScanIndexed: leaves out the binary32 overflow refusal.
- IndexedReader.ComposeLinks: leaves out the binary32 overflow refusal along the chain.
- IndexedReader.ComposeChain: leaves out the binary32 overflow refusal, and the optional byte budget a collecting caller passes in.
- SequenceWriter.WriteSequence: does not model samples that repeat an identity; the format requires identities to be unique within a state.
- SequenceInputs.CheckInputs: leaves out the null-pointer refusal of a non-empty identity span, which a sequence cannot be.
- Field widths of the writer other than the 16-bit depth: 32-bit counts and 64-bit offsets are assumed to hold.
- The order in which one reader reports several broken rules, and error wording; contracts say whether a read fails, and composition says which rule.
- The forward-reference branch of the collecting reader cannot be reached, because the offset map only holds records already read.
- Tail handling of a truncated stream beyond one flag that says the stream ended inside a record.
- The C++ validator's band owner survives private records and Python's does not; no agreement between the two is claimed.
- The C interface behind the C++ input guard.
- Temporary files, short transport reads and disk failures in the identity counter, the checksum and the walk: a partition is a sequence and a resource is its bytes.
- The refusal text for a file that does not open with the magic, which asks the core for its name.
- Decimal rendering: the comparator is proved for an arbitrary rounding of finite values, and addition in the sums is an arbitrary operation that treats both zeros alike.
- Summary members that do not come from the rows, such as metadata and audio, are emitted in their own order and not modelled.
