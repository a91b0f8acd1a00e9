# A verified model of the conformance engine

`dz-conformance` listens to a market-data feed that arrives over several ports,
with datagrams lost, duplicated, reordered and cut short. It rebuilds the order
books from the incremental messages, compares them with the snapshots the
publisher sends, and grades the publisher. Its promise is that loss is never
reported as non-conformance. This project models the parts of the tool that the
promise rests on and proves what they guarantee over whole runs. Where a
guarantee needs a premise that the code does not establish, the exact condition
is proved, together with an input on which the code accuses a publisher that did
nothing wrong.

A finding is reduced to its rule, status and bounded reason. One publisher feeds
one channel; its ports are separate. A component that the program updates in
place is a class whose methods are proved against a function of the old state;
the theorems are lemmas about those functions over every sequence of events.

| file | what it models |
|---|---|
| `Core` | machine integers, statuses and reasons, counting |
| `Wire`, `WireTheorems`, `WireLaws` | the datagram parser and the frame builder, inverse to each other, and the header byte by byte |
| `Pcapng` | capture timestamps and interface options |
| `Reorder` | the bounded reorder buffer |
| `Eras`, `EraWipe` | Reset Count eras shared by three ports; one wipe per reset of a market-by-price channel |
| `MboWipe` | the same for market-by-order, where one record serves every channel |
| `AfterWipe` | frames of ports still behind a reset, taken into the state after its wipe |
| `SeqStart` | the market-by-order rule that an era of the market-data port starts at number 0, judged on arrival |
| `Series` | duplicates and the clean window of one sequence series |
| `PortTracker` | buffer, era and series of one port together |
| `MbpBook`, `MbpInstr` | the price ladder, the baseline and its bounded journal |
| `MbpSoundness` | the market-by-price oracle against a truthful publisher |
| `MbpGroups`, `MbpGroupsUnderLoss`, `MbpGroupsAccused` | market-by-price snapshot groups, under loss, and the runs that charge a conforming publisher |
| `MbpUnderLoss` | groups and oracle together, loss on both ports |
| `IdWindow`, `IdWindowRuns` | the bounded ID window and the recency list it stands for, over any adds |
| `InstrBook`, `InstrBookRuns` | the market-by-order book and its verdicts |
| `Gate`, `GateTrust`, `GateLaws` | per-instrument sequence, what trust in it means, and when each finding is charged |
| `MboGroups`, `MboGroupsUnderLoss`, `MboGroupsAccused` | market-by-order snapshot groups, under loss, and the runs that charge a conforming publisher |
| `Oracle`, `OracleRuns`, `OracleGates` | the market-by-order oracle, its confirmation, and its gates over any window |
| `OracleTruth`, `OracleAccused` | the oracle and the referential verdicts beside a truthful publisher, and the runs that charge it |
| `OracleUnderLoss` | groups, trust and oracle together, loss on both ports |
| `Density` | why loss is never charged as a skip, across four components |
| `Refdata`, `RefdataRuns` | the reference-data subscriber and its runs |
| `RefdataPublisher`, `RefdataUnderLoss` | the subscriber beside a conforming publisher, without loss and with it |

## What the proofs found

The central results hold as follows.

- Within one era, the market-by-price oracle never reports a truthful publisher,
  provided each adopted group reaches past every delta missed so far. A state that compares at
  all is safe if and only if its window has no hole, and adoption creates an
  unsafe state exactly when a delta past the group was missed.
- The two trust flags of a market-by-order instrument mean, exactly, that the
  deltas since the lifecycle began were numbered 1, 2, 3 and so on. Before the
  number wraps, the book is then the fold of just those deltas from an empty one,
  and a confirmed divergence takes an unbroken streak.
- So a truthful market-by-order snapshot that is compared at K matches if and only
  if no visible order that rested when the lifecycle opened still stands at K
  without having been added since, and a cancel or execute of a standing order is
  dangling if and only if it is of such an order; all this while the deltas taken
  in are that lifecycle's. A lifecycle that opens with no visible order never has
  such an order.
- Whatever is lost, cut or dropped on the snapshot port, a market-by-price group
  that completes is the publisher's own, and so is a market-by-order group that is
  not flagged as ill-formed; nobody has to be in step first.
- Both oracles are sound end to end, with datagrams lost or cut on one port and
  deltas lost, repeated or late on the other. Within an era, a truthful
  market-by-price publisher is passed or left unverifiable, whatever ladder it
  starts with, under the premise on adopted groups above. A truthful
  market-by-order publisher is, over any resets, if and only if each group that is
  compared lists just what the deltas taken in since the last reset or wipe give
  from an empty book. In particular it is if its lifecycles open with no visible
  order, no group is judged after the deltas started over at 1, and no delta of a
  left lifecycle opens or continues the count after a wipe. After an
  InstrumentReset the numbers do not start over, and no group is compared until a
  wipe.
- Every Reset Count change wipes a market-by-price channel once, the first or any
  later one, in whatever order the ports cross, as long as the new value is
  neither of the last two and no port is still unheard, or the channel never used
  it. Ports may sleep through eras or lag behind: an old value is taken for a new
  era exactly when a datagram is not timely. Market-by-order state is wiped once
  for each value if and only if the advances into one value, of all ports and
  channels, come together.
- A conforming reference-data publisher is charged with nothing but withdrawn sets
  and summaries under the number 0, whatever is lost or cut.
- Within one era, on a tracker that is cold when it begins, a dense publisher is
  never charged with a skip, whatever is lost, cut or repeated, if no datagram is
  overtaken by more others than the reorder window holds; without loss every skip
  is charged exactly once. The reorder buffer
  restores the order if and only if that bound on overtaking holds.
- Once anything is missing or damaged on the market-data port, the market-by-order
  oracle charges nobody in that era, whatever the books hold; nor does any rule on
  a delta.
- The bounded ID windows turn no verdict into another: they either agree with
  unbounded sets or say that they cannot decide.
- The clean datagrams of a feed are exactly the printed conformant frames, and
  something is blamed on the transport exactly when the datagram is short.

A publisher that does nothing wrong is charged in the following cases. Each is a
lemma with a concrete input; behind the colon is the lemma that says exactly when
the charge arises, or, for the last two, the theorem whose premise rules it out.

- `AdoptingBelowAGap`, `JoiningAboveTheGroup`, `SteppingBehindTheBaseline`,
  `ColdGroupAtZero`, `StaleNumberAfterReset`, a price baseline adopted over a
  hole: `AccusesExactlyOverAHole`, `AdoptionGuard`, `UnnumberedAdoption`.
- `LateFirstDeltaAccuses`, a first delta that leaves the market-data buffer after
  the first group, charged as a restart: `MbpSoundness.RestartChargedExactly`.
- A frame of a left era that is classified after the wipe (`PortStillBehind`), so
  that the new era's first delta looks like a restart: `LeftEraChargedExactly`
  and, for market-by-order, `LeftDeltaChargedExactly`, both of them cases of
  `RestartChargedExactly`.
- `LeftBaselineAccuses`, a market-by-price group of the left era adopted after the
  wipe, over which the new era's deltas are replayed:
  `LeftBaselineChargedExactly`.
- `LeftDeltaHidesALoss`, a delta of the left era on the wiped tracker, so that
  losing the new era's first datagram, which shows no gap, is charged as a skip:
  `FirstCopyChargedExactly`.
- `OvertakenStartAccuses`, a new era whose datagram 0 is overtaken, or lost, on the
  market-data port: `StartChargedExactly`.
- `RestingOrderAccuses`, `RestingCancelAccuses`, a visible market-by-order order
  that rests when its lifecycle opens and that no delta announces:
  `TruthMatchesExactly`, `StandingOrderDanglesExactly`, and `ClearStartIsNeeded`
  for any such book.
- `LeftGroupAccuses`, a market-by-order group of a left lifecycle that is judged
  once the next one has reached the same number: `LeftGroupMatchesExactly`.
- `LeftDeltaAccuses`, a market-by-order delta 1 of a left lifecycle taken in after
  the wipe, which the new lifecycle's delta 2 continues, its delta 1 being lost
  without a gap: `LeftDeltasMatchExactly`.
- `TwoBurstsCanAccuse`, `TruncationCanAccuse`, `DroppedGroupCanAccuse`,
  market-by-price groups merged by a second burst or by a datagram cut short, or
  dropped half-way by an InstrumentReset on the other port: `AccusesExactly`.
- `MergedGroupsOverCount`, an over-count of snapshot orders caused by loss,
  although `engine/gate.go:1065` says that it cannot be:
  `AccusesExactlyOnOverCount`, and `SparedBeginsAccuseNobody` for the loss that
  cannot cause it.
- `JoiningMidGroupAccuses`, `GroupOpenedInFrameZeroAccuses`,
  `CutAfterBeginAccuses`, `DroppedGroupAccuses`, market-by-order groups seen only
  in part: `GroupingChargedExactly` together with `TouchIsLostExactly`.
- `CutRepeatIsDivergent`, a repeated datagram cut short on the way, charged as a
  divergent repeat: `CopyIsDivergentExactly`.
- `BufferedEndOfSessionAccuses`, an end of session still held in the other port's
  buffer, and `LostEndOfSessionAccuses`, one that was lost, which a new Valid=1
  does not ask about although the end of the run does: `ResumeVerdictExactly`,
  `EndOfRunVerdictExactly`.
- `ZeroIsAcceptedOnce`, a manifest summary repeated under the number 0, which the
  step from 65535 had reached without complaint:
  `RepeatedSummaryChargedExactlyAtZero`, `ChargedExactlyAtZero`.
- `ReplayedFillAccuses`, a fill applied twice, as `gateConsumer` does not consult
  `bookCorruptedByDup`; a book that no replay touched is judged correctly:
  `GatedVerdictIsTheFullKnowledgeVerdict`.
- `OutOfOrderAtTheJoinAccuses`, a datagram overtaken past the window at the join;
  the bound on overtaking excludes it: `LossIsNeverASkipThroughTheBuffer`.

Two kinds of result are about a publisher that has left the defined range before.
`WrapOutrunsTheNumber`, `AfterTheWrapNothingIsDense` and `WrapBreaksJournalOrder`
show what no longer holds past the u32 wrap, which the code reports as a violation
in its own right for a market-by-order feed. `HalfwaySummaryHidesACountChange`
takes a manifest number that jumps half the circle; when a changed count is seen
is `CountChangeExactly`.

Four more charge nobody by themselves, but do not keep what a comment promises:
`OpeningAheadWipesTwice`, a capture that opens on a port already across a reset,
wipes for that reset twice; `SharedValueHidesTheReset`, a second market-by-order
channel that goes to the Reset Count another one just went to, is not wiped;
`LaggingPortWipesAgain`, a port a whole era behind makes two resets wipe
market-by-order state four times, exactly when is `WipesOnceExactly`; and under `SteadyEviction` the dead prefix of an ID window's queue is never compacted
away.

## Model

| member | source | states |
|---|---|---|
| Wire.ReadsBack | tools/conformance/wire/wirebuild/build.go:11-15 | every integer that fits its width is read back from its little-endian bytes |
| Wire.WritesBack | tools/conformance/wire/decode.go:19-26 | every byte string is the little-endian form of the integer read from it |
| Wire.HeaderReadsBack | tools/conformance/wire/decode.go:19-26 | the header parsed from printed header bytes is the one printed, whatever follows |
| Wire.WalkMessages | tools/conformance/wire/decode.go:70-143 | the loop finds the messages and the stop of the recursive walk, and grades count and end by them |
| Wire.DecodeDatagram | tools/conformance/wire/decode.go:11-68 | a datagram's header, messages and findings are those of the specification, including the two early returns |
| Wire.Body.Put | tools/conformance/wire/wirebuild/build.go:11-14 | appends an integer's little-endian bytes to a message body |
| Wire.FrameBuilder.Msg | tools/conformance/wire/wirebuild/build.go:62-74 | adds one message with its declared length as given and changes nothing else |
| Wire.FrameBuilder.ToBytes | tools/conformance/wire/wirebuild/build.go:76-101 | prints the header, with forged or computed count and length, and the messages in order |
| WireTheorems.ConformantFramesDecodeClean | tools/conformance/wire/decode.go:11-143 | decoding what the builder printed for a conformant frame gives no finding and the same header and messages |
| WireTheorems.CleanDatagramsReprint | tools/conformance/wire/decode.go:70-143 | a datagram decoded without finding is tiled by its messages from offset 24, is conformant and prints to the same bytes |
| WireTheorems.WireBijection | tools/conformance/wire/wirebuild/build.go:76-101 | clean datagrams are exactly the printed conformant frames, and no two frames print alike |
| WireTheorems.TruncationIsTransport | tools/conformance/wire/decode.go:50-64 | every proper prefix of a clean datagram has findings, all charged to the transport, and messages that are a prefix of its own |
| WireTheorems.TransportExactlyWhenShort | tools/conformance/wire/decode.go:14-64 | for every datagram, something is charged to the transport if and only if it is shorter than a header or than a validly declared length |
| WireLaws.DeclaredLengthChargedExactly | tools/conformance/wire/decode.go:50-64 | the declared length is charged to the publisher if and only if it is not between 24 and 1232 or falls short of what arrived, and to the transport if and only if it is and was not reached |
| WireLaws.SchemaChargedExactly | tools/conformance/wire/decode.go:30-48 | the midpoint feed has schema 1; any other schema than 1 and 3 is charged on the others, and 1 is reported as superseded |
| WireLaws.CleanDatagramIs | tools/conformance/wire/decode.go:11-143 | a datagram without a finding has 24 to 1232 bytes, says so, carries the feed's magic and current schema and as many messages, at least one, as it says |
| WireLaws.FirstStopExactly | tools/conformance/wire/decode.go:76-104 | the first message stops the walk if and only if its header does not fit, it declares less than a header, or its end lies past what was declared or arrived |
| WireLaws.PrintedHeaderIs | tools/conformance/wire/wirebuild/build.go:76-101 | a frame is printed with its messages from offset 24 and with the forged count and length, or else those it has, cut to their fields |
| WireLaws.LeastByteFirst | tools/conformance/wire/decode.go:19-26 | integers lie with the least byte first |
| Pcapng.Div64 | tools/conformance/input/pcapng.go:102-103 | the 128-by-64 division is the true quotient whenever it does not trap |
| Pcapng.ScalesExactly | tools/conformance/input/pcapng.go:96-105 | seconds and nanoseconds together are the raw count scaled to nanoseconds and rounded down, with less than a second of nanoseconds |
| Pcapng.OrderedExactly | tools/conformance/input/pcapng.go:96-105 | of two raw counts the later one gives no earlier time if and only if its stored second, counted from year 1 with the interface's offset, goes around the signed word as often as the earlier one's |
| Pcapng.OrderedExactlyWhenRepresentable | tools/conformance/input/pcapng.go:104 | after a count whose stored second fits the signed word, order is kept exactly up to the last count whose second does |
| Pcapng.TsResol | tools/conformance/input/pcapng.go:252-270 | the loop over if_tsresol yields 10^0..10^19 or 2^0..2^63 without overflow and refuses everything finer |
| Pcapng.EachOption | tools/conformance/input/pcapng.go:290-313 | the walk applies the options in order and refuses an option that overruns or a value that is refused |
| Pcapng.OptionsReadBack | tools/conformance/input/pcapng.go:290-313 | a padded option list is read back option by option, with or without an end marker, in either byte order |
| Pcapng.AcceptedInterfacesNeverTrap | tools/conformance/input/pcapng.go:235-285 | whatever an accepted interface's options say, its resolution is an allowed one, the division never traps and each packet's time is exact |
| Pcapng.DescriptionMeansExactly | tools/conformance/input/pcapng.go:235-285 | an interface described by a written option list is accepted if and only if each option can be used, and counts as the first byte of its last if_tsresol says, a power of ten below 128 and of two from there, a million without one, from the signed offset of its last if_tsoffset |
| Pcapng.ZeroEnds | tools/conformance/input/pcapng.go:290-296 | the end marker is option 0, in either byte order |
| Reorder.PushConserves | tools/conformance/engine/state.go:467-480 | one push neither loses nor invents a datagram and leaves at most the window buffered |
| Reorder.Accounted | tools/conformance/engine/state.go:467-480 | at any time in an era, arrived datagrams are released or buffered, never both, and the buffer is within the window |
| Reorder.SortedMeans | tools/conformance/engine/state.go:89-101 | the order of the buffer is by sequence number, and by arrival under one number |
| Reorder.RepairsExactly | tools/conformance/engine/state.go:89-112 | datagrams reach the classifier in sequence order, ties by arrival, if and only if none is overtaken by more than the window holds |
| Eras.EraOrder.Enter | tools/conformance/engine/state.go:52-59 | joins the era that another port started since the given ordinal, or starts a new one at the end of the order of arrival |
| Eras.EntersPast | tools/conformance/engine/state.go:52-59 | entering leads past the given ordinal to the latest one that carries the value, or to a new one at the end if there is none |
| Eras.PortStep | tools/conformance/engine/state.go:391-453 | the order only grows, a port's ordinal never falls and rises on each advance, the floor stays below it, and a quarantined datagram changes only the straggler count |
| Eras.InvRun | tools/conformance/engine/state.go:391-453 | over any run of three ports each port's ordinal names its era and its floor lies below it |
| Eras.OrdinalsNameEras | tools/conformance/engine/state.go:31-59 | two ports at one ordinal are in the same era |
| Eras.StreakIsCounted | tools/conformance/engine/state.go:417-443 | the straggler count is the number of the port's latest datagrams quarantined in a row |
| Eras.QuarantineIsBounded | tools/conformance/engine/state.go:417-443 | no port quarantines more than max(window, 1) datagrams in a row |
| Eras.QuarantinedExactly | tools/conformance/engine/state.go:417-443 | after any datagrams, the next one is quarantined if and only if its port was heard, it belongs between the port's last two eras and fewer than max(window, 1) were quarantined there in a row |
| Eras.ErasAreOrderedByArrival | tools/conformance/engine/state.go:31-59 | any injective renaming of Reset Count values gives the same quarantine, drain and advance decisions and the same ordinals |
| EraWipe.State.WipeChannel | tools/conformance/engine/mbp.go:212-219 | drops one channel's instruments and open group and keeps every other channel's |
| EraWipe.State.ObserveEra | tools/conformance/engine/mbp.go:270-297 | wipes a channel exactly when the specification says so, asks for a snapshot taint unless the snapshot port brought the reset, and leaves every other channel's state and memory alone |
| EraWipe.WipesFollowLeaders | tools/conformance/engine/mbp.go:270-297 | the wipes of any sequence of frames are exactly the Reset Count changes between frames that were ahead of all before them |
| EraWipe.FreshAddressWipesExactly | tools/conformance/engine/mbp.go:270-297 | the first frame of a source address wipes if and only if state was built for another Reset Count and its own is not the one the channel left last |
| EraWipe.AddressBehindWipesNothing | tools/conformance/engine/mbp.go:257-260 | an address behind the reset wipes nothing, neither when it is first heard nor when it enters the new era |
| EraWipe.CrossingWipesOnce | tools/conformance/engine/mbp.go:270-297 | at any reset of a channel at rest, the first or a later one, and whatever the order in which its ports cross, old state is wiped exactly once if there is any and a new frame is classified, and frames still behind wipe nothing |
| EraWipe.CrossingEndsAtRest | tools/conformance/engine/state.go:391-453 | once every port heard has crossed, the channel is at rest for a next Reset Count if and only if that is neither of the last two and no port is unheard or the channel never used it |
| EraWipe.EveryResetWipesOnce | tools/conformance/engine/mbp.go:270-297 | over any number of resets, each crossed by the ports heard and met by a new frame, there are as many wipes |
| EraWipe.TimelyExactly | tools/conformance/engine/state.go:391-453 | at any port, a datagram makes the channel take an old Reset Count for a new era if and only if it is of an era before the port's own that the port does not quarantine |
| EraWipe.EveryEraWipesOnce | tools/conformance/engine/mbp.go:270-297 | over any run from the first datagram, with ports that sleep through eras or lag behind and every datagram timely, each era in which a frame leads all before it is wiped for exactly once, the first excepted |
| EraWipe.FirstDatagramRests | tools/conformance/engine/state.go:391-405 | a capture's first datagram puts the channel at rest for any other Reset Count |
| EraWipe.ReturningCountIsLate | tools/conformance/engine/state.go:409-443 | a port at rest quarantines the first datagram of a Reset Count if and only if that is not new to it and the limit is not reached |
| EraWipe.UnheardPortFallsBehind | tools/conformance/engine/state.go:391-405 | a port still unheard enters the next era with a Reset Count new to the channel, and otherwise takes it for the era long left |
| EraWipe.OpeningAheadWipesTwice | tools/conformance/engine/state.go:409-443 | a run that opens on a port already across, with k datagrams of the new era at a port still behind, wipes twice if k exceeds the straggler limit and once otherwise |
| MboWipe.State.OnResetCountForEra | tools/conformance/engine/gate.go:233-241 | clears the trackers and open groups of every channel unless the value is the one acted on last, and records it |
| MboWipe.AdvanceExactly | tools/conformance/engine/state.go:409-453 | during a crossing a datagram is an advance if and only if it takes a port already heard from the old era to the new one |
| MboWipe.CrossingWipesOnce | tools/conformance/engine/engine.go:584-640 | at any reset, whatever the order of the ports, at most one advance wipes, and one does as soon as a port heard before has crossed, unless the last wipe of any channel was for the same value |
| MboWipe.EveryResetWipesOnce | tools/conformance/engine/gate.go:233-241 | over any number of resets of one channel there are as many wipes |
| MboWipe.SharedValueHidesTheReset | tools/conformance/engine/gate.go:233-241 | a channel that goes to the value another channel went to last wipes nothing |
| MboWipe.LaggingPortWipesAgain | tools/conformance/engine/gate.go:233-241 | a run with two resets and nothing lost or late, in which a port a whole era behind makes four wipes |
| MboWipe.WipesOnceExactly | tools/conformance/engine/gate.go:233-241 | any advances of any channels wipe at least once for each value, and only once for each if and only if those into one value all come together |
| AfterWipe.StateIsWhatWasKept | tools/conformance/engine/mbp.go:270-297 | over any frames, an instrument's state is what the frames since the last wipe say, those of left eras included |
| AfterWipe.LeftEraChargedExactly | tools/conformance/engine/mbp.go:404-436 | over any frames, before the new era has said more than its first delta, that delta is charged as a restart if and only if it follows a group and a frame of a left era, classified after the wipe, said something past 1 |
| AfterWipe.PortStillBehind | tools/conformance/engine/mbp.go:270-297 | a lossless run in which the market-data port classifies a frame of the left era after the snapshot port wiped |
| AfterWipe.LeftBaselineChargedExactly | tools/conformance/engine/mbp.go:766-823 | over a baseline of the left era adopted after the wipe, and whatever new deltas are lost, late or repeated, a truthful group of the new era is a violation if and only if the tracker compares it and the left ladder, carried on by the new deltas past the baseline, is not the new era's |
| AfterWipe.LeftBaselineAccuses | tools/conformance/engine/mbp.go:766-823 | a lossless run in which that happens |
| AfterWipe.LeftDeltaChargedExactly | tools/conformance/engine/gate.go:718-760 | for market-by-order, after one delta of the left era on a wiped tracker the new era's delta 1 is charged as a restart if and only if that one was past 1 and not at the wrap |
| Series.Tracker.RecordHash | tools/conformance/engine/state.go:272-285 | the ring and the map hold exactly the last entries up to the capacity |
| Series.Tracker.Observe | tools/conformance/engine/state.go:293-338 | reports a repeat, a divergent repeat or a fresh frame with its gap, and remembers only fresh ones |
| Series.Tracker.Process | tools/conformance/engine/engine.go:679-732 | a fresh frame after a gap taints the window before anything else is judged |
| Series.Tracker.Clear | tools/conformance/engine/state.go:343-362 | a new era starts with an empty, clean window and keeps the taint count |
| Series.WindowIsTheLastAccepted | tools/conformance/engine/state.go:272-338 | the remembered frames are exactly the last accepted ones up to the capacity |
| Series.CleanMeansComplete | tools/conformance/engine/engine.go:679-732 | while the window is clean, every number from the first accepted to the greatest has been classified |
| Series.DivergentExactly | tools/conformance/engine/state.go:293-312 | over any run, a frame is a divergent repeat if and only if its key is among the last accepted ones up to the capacity and none of those equals it |
| Series.EqualCopiesAreNotDivergent | tools/conformance/engine/engine.go:682-693 | frames that agree byte for byte under one number are never divergent, however often and late they are repeated |
| PortTracker.Port.PopMin | tools/conformance/engine/state.go:89-112 | removes the least buffered datagram by sequence and arrival and nothing else |
| PortTracker.Port.DrainAll | tools/conformance/engine/state.go:456-462 | empties the buffer in sequence order |
| PortTracker.Port.PushAndPop | tools/conformance/engine/state.go:467-480 | buffers one datagram and releases the least one if the window is exceeded |
| PortTracker.Port.SeedEra | tools/conformance/engine/state.go:401-408 | the first datagram seeds the era and joins one that another port entered |
| PortTracker.Port.Admit | tools/conformance/engine/state.go:409-443 | decides accept, quarantine or advance as the era model does |
| PortTracker.Port.Enqueue | tools/conformance/engine/state.go:391-453 | the decision together with what it drains, releases and leaves buffered |
| PortTracker.Port.AdvanceEra | tools/conformance/engine/state.go:343-362 | enters the new era, moves the floor to the old one and clears the series |
| PortTracker.NothingIsLost | tools/conformance/engine/state.go:391-480 | over any run, each datagram is released, buffered or dropped as a straggler, and the buffer never exceeds the window |
| PortTracker.BufferHoldsOneEra | tools/conformance/engine/state.go:391-453 | over any arrivals at the three ports of a channel, each port's buffer holds only datagrams of the era that port is in |
| MbpBook.ReplayIsLastWord | tools/conformance/engine/mbp_book.go:55-90 | a replayed ladder shows at each level the last word said about it, and never a zero quantity |
| MbpBook.Book.ApplyLevelUpdate | tools/conformance/engine/mbp_book.go:55-62 | sets one level absolutely, a zero quantity removing it |
| MbpBook.Book.ApplyBookClear | tools/conformance/engine/mbp_book.go:71-90 | removes exactly the levels that side, scope and price cover |
| MbpBook.BidsClearedExactly | tools/conformance/engine/mbp_book.go:70-91 | a clear of the bids from a price removes those at it and below, keeps those above and touches no ask |
| MbpBook.AsksClearedExactly | tools/conformance/engine/mbp_book.go:70-91 | a clear of the asks from a price removes those at it and above, keeps those below and touches no bid |
| MbpBook.WholeSidesCleared | tools/conformance/engine/mbp_book.go:70-91 | a clear without a price empties exactly its side, and one of both sides empties the book |
| MbpBook.DiffLevels | tools/conformance/engine/mbp_book.go:125-138 | lists each differing level once with both quantities, and nothing if and only if the ladders are equal |
| MbpInstr.StoppingEarlyIsFiltering | tools/conformance/engine/mbp.go:97-113 | on an ordered journal the early break selects exactly the entries at or below the number |
| MbpInstr.Tracker.ReplayTo | tools/conformance/engine/mbp.go:97-113 | replays the baseline and the journal up to a number |
| MbpInstr.Tracker.Journal | tools/conformance/engine/mbp.go:115-124 | appends up to 16384 entries, then records the overflow and the greatest dropped number |
| MbpInstr.Tracker.Sequence | tools/conformance/engine/mbp.go:404-476 | accepts or rejects a delta with its density and restart findings |
| MbpInstr.Tracker.Delta | tools/conformance/engine/mbp.go:329-369 | applies and journals an accepted delta; a malformed one leaves the book and marks a gap |
| MbpInstr.Tracker.InstrumentReset | tools/conformance/engine/mbp.go:371-385 | empties the book and the window but keeps the last number |
| MbpInstr.Tracker.Judge | tools/conformance/engine/mbp.go:766-805 | the verdict on a group, with the reason for each case that is not compared |
| MbpInstr.Tracker.AdoptBaseline | tools/conformance/engine/mbp.go:807-823 | the group becomes the baseline and the journal keeps exactly the entries past it |
| MbpInstr.Tracker.FinishGroup | tools/conformance/engine/mbp.go:739-833 | judges a completed group and then adopts it |
| MbpInstr.JournalRefinesLadder | tools/conformance/engine/mbp.go:330-385 | before the wrap, the journal is ordered and bounded and, without overflow, the live ladder is the baseline plus the journal, over any run |
| MbpInstr.WrapBreaksJournalOrder | tools/conformance/engine/mbp.go:438-447 | at the wrap, number 0 is accepted as dense and journalled out of order |
| MbpInstr.OverflowClearsOnlyWhenSubsumed | tools/conformance/engine/mbp.go:807-825 | while groups never step back, every discarded delta is marked as overflow or lies at or below the baseline |
| MbpInstr.ExcuseIsSpentOnce | tools/conformance/engine/mbp.go:523-529 | an admitted capture drop excuses the first gap after it and no later one |
| MbpSoundness.ReplayIsTruth | tools/conformance/engine/mbp.go:97-113 | over a stretch without a hole the replay is the publisher's own ladder |
| MbpSoundness.HoleAccuses | tools/conformance/engine/mbp.go:766-805 | over any hole there is a publisher the consumer cannot rule out whose truthful group is reported |
| MbpSoundness.AccusesExactlyOverAHole | tools/conformance/engine/mbp.go:766-805 | a state accuses no truthful publisher if and only if it does not compare or its window has no hole |
| MbpSoundness.AdoptionGuard | tools/conformance/engine/mbp.go:807-833 | adopting a group that leaves the tracker with a number makes a state that can accuse if and only if a delta past the group was missed and none past it was dropped for space |
| MbpSoundness.UnnumberedAdoption | tools/conformance/engine/mbp.go:807-833 | adopting a group that leaves the tracker without a number accuses nobody, and after the next delta the state can accuse if and only if that delta lies beyond the one due after the group |
| MbpSoundness.ResetRestoresInv | tools/conformance/engine/mbp.go:377-385 | a reset leaves a state that fits any publisher |
| MbpSoundness.OracleSoundOverRuns | tools/conformance/engine/mbp.go:739-833 | over any run whose groups reach past the missed deltas, no truthful group is a violation |
| MbpSoundness.OracleSoundOverStreams | tools/conformance/engine/mbp.go:739-833 | the same stated on what was sent and what arrived, without reference to the consumer |
| MbpSoundness.NumberStands | tools/conformance/engine/mbp.go:404-476 | over any deltas and groups, of whatever publisher or era, before the wrap, the tracker's number is the greatest delivered or adopted |
| MbpSoundness.RestartChargedExactly | tools/conformance/engine/mbp.go:404-436 | over any such stream from a wiped state, number 1 is charged as a restart if and only if it is the first delta after a group and something past 1 was taken in |
| MbpSoundness.SkipReportedExactly | tools/conformance/engine/mbp.go:438-462 | over any such stream a delta is reported as a skip if and only if it leaves out a number past the greatest so far |
| MbpSoundness.MalformedChargedExactly | tools/conformance/engine/mbp.go:330-385 | a delta is charged for what it says if and only if it clears both sides from one price, and it then spoils the comparison and leaves the ladder |
| MbpSoundness.ReasonsExactly | tools/conformance/engine/mbp.go:766-805 | the reason a group is not compared is that of the first condition that fails |
| MbpSoundness.JournalHolds | tools/conformance/engine/mbp.go:330-385 | the journal takes 16384 deltas and discards the next, marking the overflow |
| MbpSoundness.LateFirstDeltaAccuses | tools/conformance/engine/mbp.go:428-436 | a first delta that leaves its buffer after the first group is charged as a restart |
| MbpSoundness.AdoptingBelowAGap | tools/conformance/engine/mbp.go:807-827 | a group below a lost delta is adopted after a gap, and a truthful group is then a violation |
| MbpSoundness.JoiningAboveTheGroup | tools/conformance/engine/mbp.go:807-827 | a mid-stream join above the first group's number leads to the same |
| MbpSoundness.SteppingBehindTheBaseline | tools/conformance/engine/mbp.go:807-827 | a group behind the baseline leads to the same |
| MbpSoundness.ColdGroupAtZero | tools/conformance/engine/mbp.go:807-833 | a cold group at number 0 leaves the tracker without a number, so a lost first delta goes unseen |
| MbpSoundness.StaleNumberAfterReset | tools/conformance/engine/mbp.go:377-385 | a recovery group at or below the number kept across a reset leads to the same |
| MbpGroups.Checker.TakeBegin | tools/conformance/engine/mbp.go:572-599 | opens a group, and reports another instrument's group still open |
| MbpGroups.Checker.TakeLevel | tools/conformance/engine/mbp.go:601-635 | collects a level, or reports an orphan, a foreign ID or a zero quantity |
| MbpGroups.Checker.TakeEnd | tools/conformance/engine/mbp.go:646-738 | closes the group and hands it on exactly when nothing was found |
| MbpGroups.Checker.Frame | tools/conformance/engine/mbp.go:557-644 | one frame: the gap check, then every message in order |
| MbpGroups.LevelChargedExactly | tools/conformance/engine/mbp.go:601-635 | a level of the open group is charged if and only if its quantity is 0, on any port; one of another group or of none draws one finding, a violation if and only if no loss shows, and for an orphan a Begin was seen |
| MbpGroups.BeginChargedExactly | tools/conformance/engine/mbp.go:572-599 | a Begin draws a finding if and only if another instrument's group is open, a violation if and only if no loss shows |
| MbpGroupsUnderLoss.EndVerdict | tools/conformance/engine/mbp.go:682-730 | an End draws no finding if and only if it repeats its Begin, the count is as announced and no level is repeated; once loss can explain it, only surplus or repeated levels outside the merge shape are violations |
| MbpGroupsUnderLoss.TaintedEndIsChargedExactly | tools/conformance/engine/mbp.go:682-721 | on a tainted port or a dirty group, an End is charged if and only if the group has surplus or repeated levels that the code does not put down to a merge |
| MbpGroupsUnderLoss.MsgStep | tools/conformance/engine/mbp.go:486-553 | whatever was lost, cut or dropped, no interleaved Begin and no foreign level of a conforming publisher is a violation; an orphan is one exactly after a Begin on a port that shows no loss, an End exactly over a surplus, its group's own End having been lost |
| MbpGroupsUnderLoss.EndStep | tools/conformance/engine/mbp.go:646-730 | the same for a group's End, which leaves the checker's invariant with the publisher intact |
| MbpGroupsUnderLoss.CompletedIsTruthful | tools/conformance/engine/mbp.go:646-738 | whatever was lost or cut, a completed group is the publisher's own level for level, and one during which nothing was always completes |
| MbpGroupsUnderLoss.AccusesExactly | tools/conformance/engine/mbp.go:557-730 | over any run of datagrams lost, scrapped, cut or whole and of resets, a message is a violation of the group structure if and only if it is an End over a surplus or an orphan after a Begin on a port that shows no loss |
| MbpGroupsUnderLoss.LossIsNeverAStructureViolation | tools/conformance/engine/mbp.go:557-730 | with at most one burst lost while any one group is open, no cut losing the End of the group it leaves open, and no group dropped half-way on a port that shows no loss, group structure is never a violation, merged groups included |
| MbpGroupsUnderLoss.ViolationNeedsALostMergedEnd | tools/conformance/engine/mbp.go:557-730 | with any number of bursts and no such cut or drop, a violation arises if and only if the group has absorbed foreign levels and the End carries another ID |
| MbpGroupsAccused.TwoBurstsCanAccuse | tools/conformance/engine/mbp.go:683-721 | a run in which two bursts within one group charge a conforming publisher with a surplus level |
| MbpGroupsAccused.TruncationCanAccuse | tools/conformance/engine/engine.go:526-552 | a run in which one cut datagram taints the port but not the open market-by-price group, so a merge goes unrecognised and is charged |
| MbpGroupsAccused.DroppedGroupCanAccuse | tools/conformance/engine/mbp.go:386-390 | a run in which an InstrumentReset drops the group in flight, and the rest of it is charged as an orphan with every datagram delivered |
| MbpUnderLoss.RunDoneIsTruth | tools/conformance/engine/mbp.go:557-738 | whatever is lost, cut or dropped, every completed group shows its publisher's ladder at the group's own number |
| MbpUnderLoss.TruthSurvivesLossOnBothPorts | tools/conformance/engine/mbp.go:557-833 | from lost or cut snapshot datagrams and lost, repeated or late deltas to the verdict: no completed group of a truthful publisher is a violation |
| IdWindow.StampedOrder | tools/conformance/engine/idwindow.go:52-56 | stamping an ID moves it to the newest end of the recency list |
| IdWindow.PoppedOrder | tools/conformance/engine/idwindow.go:57-64 | taking the oldest entry off forgets the oldest member or only a dead entry |
| IdWindow.CompactedOrder | tools/conformance/engine/idwindow.go:69-80 | compaction leaves the recency list unchanged and the queue within twice the limit |
| IdWindow.RemoveRefinesRecency | tools/conformance/engine/idwindow.go:93-95 | removal takes one ID out of the recency list and keeps one current entry per member |
| IdWindow.Window.Add | tools/conformance/engine/idwindow.go:52-65 | re-adding moves to the newest end and the oldest is dropped over the limit; the live queue ends within twice the limit and every remembered ID is a member or in the evicted range |
| IdWindow.Window.Compact | tools/conformance/engine/idwindow.go:69-80 | drops the dead entries once the live queue outgrows twice the limit, and otherwise touches nothing |
| IdWindow.Window.NoteEviction | tools/conformance/engine/idwindow.go:82-89 | widens the evicted range to the forgotten ID |
| IdWindow.Window.Remove | tools/conformance/engine/idwindow.go:93-95 | forgets one ID and leaves the range and the order of the others |
| IdWindow.Window.Has | tools/conformance/engine/idwindow.go:97-100 | membership in the recency list |
| IdWindow.Window.MayHaveEvicted | tools/conformance/engine/idwindow.go:104-106 | whether the ID lies in the evicted range |
| IdWindow.SteadyEviction | tools/conformance/engine/idwindow.go:69-72 | adding fresh IDs only, the whole queue grows with the adds although the live part stays within the limit |
| IdWindowRuns.HoldsTheLatest | tools/conformance/engine/idwindow.go:52-65 | after any adds the window holds the last `limit` of the IDs added, each counted from its latest add |
| IdWindowRuns.RangeIsTheHull | tools/conformance/engine/idwindow.go:82-89 | the evicted range runs from the least to the greatest ID dropped for lack of room, and is empty while none was |
| InstrBook.Tracker.ApplyOrderAddFull | tools/conformance/engine/book.go:145-160 | a hidden add is only remembered; a visible one becomes live and is no longer removed |
| InstrBook.Tracker.ApplyOrderExecute | tools/conformance/engine/book.go:173-227 | decrements or removes a live order, with overfill and disagreement errors, and leaves a hidden order's quantity |
| InstrBook.Tracker.ApplyOrderCancel | tools/conformance/engine/book.go:233-239 | a live order leaves the book and is remembered as removed |
| InstrBook.Tracker.Miss | tools/conformance/engine/gate.go:1509-1659 | the verdict on an operation whose order is not live, in the code's order of tests |
| InstrBook.Tracker.CheckOrderAdd | tools/conformance/engine/gate.go:1477-1505 | a visible add of a live ID is a duplicate; hidden adds are exempt |
| InstrBook.Tracker.CheckOrderCancel | tools/conformance/engine/gate.go:1509-1557 | the verdict and the new book after a cancel |
| InstrBook.Tracker.CheckOrderExecute | tools/conformance/engine/gate.go:1561-1647 | the verdict and the new book after an execute |
| InstrBook.Tracker.CheckTrade | tools/conformance/engine/gate.go:1665-1687 | a trade without its execute is reported unless the trade ID may have been forgotten |
| InstrBookRuns.QuantityIsConserved | tools/conformance/engine/book.go:145-239 | over any messages, entry quantity is remaining plus fills since the latest add; live and removed are disjoint and no hidden order is live |
| InstrBookRuns.OrphansWereAddedEmpty | tools/conformance/engine/gate.go:574-591 | a live order has nothing remaining if and only if it was added with quantity 0 and has not left |
| InstrBookRuns.NoOrphanWithoutEmptyAdds | tools/conformance/engine/gate.go:574-591 | so batch atomicity is silent for a publisher that adds no empty visible order |
| InstrBookRuns.BothRun | tools/conformance/engine/idwindow.go:52-106 | beside a checker with unbounded sets, the live orders stay equal and every forgotten ID is in a range |
| InstrBookRuns.BoundedNeverMisjudges | tools/conformance/engine/gate.go:1509-1659 | under the gate the bounded checker gives the unbounded verdict, or says overflow for an ID in an evicted range |
| InstrBookRuns.ExecuteVerdictFollowsLife | tools/conformance/engine/gate.go:1561-1647 | with full knowledge an execute is dangling, after removal, overfilling or disagreeing exactly as its order's life says |
| InstrBookRuns.CancelVerdictFollowsLife | tools/conformance/engine/gate.go:1509-1557 | with full knowledge a cancel is dangling or after removal exactly as its order's life says |
| InstrBookRuns.SideChargedExactly | tools/conformance/engine/gate.go:1581-1596 | over any messages, an execute is charged with its side if and only if its order stands and a buy aggressor meets one not added as an ask, or a sell aggressor one not added as a bid |
| InstrBookRuns.SourceChargedExactly | tools/conformance/engine/gate.go:1509-1580 | a cancel or execute is charged with its source if and only if its order stands and both it and the latest add name one, and not the same |
| InstrBookRuns.DuplicateChargedExactly | tools/conformance/engine/gate.go:1477-1507 | an add is charged as a duplicate if and only if it is visible and its order stands |
| InstrBookRuns.TradeChargedExactly | tools/conformance/engine/gate.go:1665-1696 | a trade is charged if and only if it names an ID that no execute named |
| InstrBookRuns.HiddenOrdersAreLetBe | tools/conformance/engine/gate.go:1509-1650 | an operation on an order that was added hidden and does not stand draws nothing |
| InstrBookRuns.GateDecidesStatus | tools/conformance/engine/gate.go:1469-1475 | behind the gate no referential finding is a violation; in front of it each is one or is undecided for overflow |
| InstrBookRuns.FlagBits | tools/conformance/engine/book.go:312-319 | bit 2 of the order flags hides an order and bit 0 of the execute flags fills it |
| Gate.PayloadRing.Record | tools/conformance/engine/gate.go:48-55 | the ring keeps the last sixteen digests |
| Gate.PayloadRing.Lookup | tools/conformance/engine/gate.go:58-66 | finds the most recent digest under a number |
| Gate.Tracker.Premature | tools/conformance/engine/gate.go:602-625 | a delta before recovery is reported once, as NA while the snapshot port was never seen |
| Gate.Tracker.FirstDelta | tools/conformance/engine/gate.go:627-695 | the first delta's findings, and trust earned exactly by number 1 without a recovery point |
| Gate.Tracker.LaterDelta | tools/conformance/engine/gate.go:697-790 | density, wrap, restart and divergent-repeat findings, trust lost on a jump and the replay flag set on a repeat |
| Gate.Tracker.ApplyDeltaSeq | tools/conformance/engine/gate.go:597-790 | all findings of one delta and the whole new tracker |
| Gate.Tracker.Reset | tools/conformance/engine/gate.go:334-356 | the tracker after an InstrumentReset, waiting for its anchor |
| Gate.Tracker.SnapBegin | tools/conformance/engine/gate.go:1426-1436 | a Begin at exactly the reset's anchor names the recovery point |
| Gate.Tracker.SnapEnd | tools/conformance/engine/gate.go:1117-1153 | a completed group answers the reset and its anchor is graded |
| GateTrust.TrustIsEarnedExactly | tools/conformance/engine/gate.go:597-790 | in every reachable state the two flags hold if and only if the received numbers are 1, 2, 3 and so on without hole or repeat |
| GateTrust.TrustedBookIsAsOfLast | tools/conformance/engine/gate.go:597-790 | before the wrap a trusted book is the fold of exactly the deltas 1 to `lastInstrSeq` |
| GateTrust.WrapOutrunsTheNumber | tools/conformance/engine/gate.go:705-716 | at the wrap the book moves on while the number and the trust stay |
| GateTrust.GatedVerdictIsTheFullKnowledgeVerdict | tools/conformance/engine/gate.go:412-437 | on a book no replay touched, a gated verdict is that of a checker that saw every delta and forgets nothing, or says overflow |
| GateTrust.ReplayedFillAccuses | tools/conformance/engine/gate.go:412-437 | after a replayed fill, a correct last fill is reported as an operation after removal |
| GateTrust.RestartChargedExactly | tools/conformance/engine/gate.go:742-760 | in every reachable state, number 1 is charged as a restart if and only if a delta past 1, but none at the wrap, was taken in since the last wipe or reset, and no reset waits for its recovery snapshot |
| GateTrust.EveryResetIsAnsweredOnce | tools/conformance/engine/gate.go:1117-1270 | each InstrumentReset gets exactly one SNAPSHOT_FOLLOWS verdict by the end of the run unless a later reset or wipe replaces it |
| GateTrust.RemembersTheLastSixteen | tools/conformance/engine/gate.go:36-66 | over any run the remembered digests are those of the last sixteen deltas of the lifecycle |
| GateTrust.RepeatsAreNotDivergent | tools/conformance/engine/gate.go:762-773 | deltas that are merely repeated, however often and late, are never divergent |
| GateLaws.RecoveryChargedExactly | tools/conformance/engine/gate.go:627-660 | after a recovery snapshot that began at the reset's anchor with number k and before any delta, the first delta passes if and only if it is k + 1, or 0 after the last u32, and is charged if and only if it is another and the port shows no loss |
| GateLaws.FirstValueChargedExactly | tools/conformance/engine/gate.go:660-695 | without one, the first delta draws a finding if and only if it is not 1, a violation if and only if a reset came before and the port shows no loss |
| GateLaws.PrematureChargedExactly | tools/conformance/engine/gate.go:597-625 | a delta before the recovery is reported if and only if no delta and no completed group came since the reset, as not applicable while the snapshot port was never seen, and charged if and only if neither port shows a loss |
| GateLaws.AnchorGradedExactly | tools/conformance/engine/gate.go:1117-1210 | the first group to complete after a reset answers it, and its anchor is charged if and only if it is not the reset's, the group is clean and the market-data port shows no loss |
| GateLaws.SkipChargedExactly | tools/conformance/engine/gate.go:718-741 | a delta draws a density finding if and only if it skips a number past the greatest so far, a violation if and only if the port shows no loss |
| GateLaws.WrapChargedExactly | tools/conformance/engine/gate.go:705-716 | the delta 0 after the last u32 is charged as a wrap if and only if the port shows no loss, and nothing else is |
| GateLaws.DivergentChargedExactly | tools/conformance/engine/gate.go:762-790 | a repeated number is charged as divergent if and only if the latest delta under it is among the last sixteen and had another body, and the port shows no loss |
| GateLaws.GapNeverChargesADelta | tools/conformance/engine/gate.go:597-790 | no finding on a delta is a violation while the market-data port shows a loss |
| GateLaws.GateOpensExactly | tools/conformance/engine/gate.go:412-437 | over any run, a referential anomaly may be charged if and only if the instrument is known, the port shows no loss, the lifecycle's deltas began with 1 and skipped none, and this one is the next |
| MboGroups.OpenSnapshot.FrameArrives | tools/conformance/engine/gate.go:813-823 | a gap since the group's last frame marks it dirty; a group opened in frame 0 is left alone |
| MboGroups.OpenSnapshot.TakeOrder | tools/conformance/engine/gate.go:915-995 | one order's findings, structural flag and record, the first record of an ID being kept |
| MboGroups.OpenSnapshot.GradeEnd | tools/conformance/engine/gate.go:1046-1088 | field and count findings, an over-count never excused |
| MboGroups.Channel.TakeBegin | tools/conformance/engine/gate.go:880-912 | reports a group still open and opens the new one |
| MboGroups.Channel.TakeEnd | tools/conformance/engine/gate.go:1028-1104 | grades, closes and hands on the open group |
| MboGroups.UnflaggedGroupIsWhatWasSent | tools/conformance/engine/gate.go:915-1104 | a group is unflagged if and only if its End matches, its count is as announced and its orders carry its ID, none twice; its records are then those sent |
| MboGroups.OrderChargedExactly | tools/conformance/engine/gate.go:940-985 | an order of a group is charged with its ID, as an order of an empty book or as a repetition if and only if its ID is not the group's, none were announced, or the group carried its order ID, as a violation if and only if the group shows no gap |
| MboGroups.EndChargedExactly | tools/conformance/engine/gate.go:1046-1088 | an End is charged with its fields if and only if one is not its Begin's and the group shows no gap, and with the count if and only if more orders came than announced, or fewer in a group and on a port that show none |
| MboGroups.GroupingIsCharged | tools/conformance/engine/gate.go:880-1045 | grouping is charged to a Begin if and only if a group without a gap is open, and to an order or End if and only if none is and the port shows no loss |
| MboGroupsUnderLoss.CompletedGroupsAreSent | tools/conformance/engine/gate.go:810-1104 | from any point of a conforming rotation, whatever is lost, cut or dropped, a group handed to the oracle is flagged as ill-formed or is, head and orders, one the publisher sent |
| MboGroupsUnderLoss.GroupingChargedExactly | tools/conformance/engine/gate.go:880-1040 | in any state reached, a grouping violation is reported if and only if the checker is out of touch and meets an order or End without a group, or a Begin with one |
| MboGroupsUnderLoss.TouchIsLostExactly | tools/conformance/engine/gate.go:810-1104 | a checker in touch loses touch in exactly four ways: a loss before the first datagram that leaves the publisher inside a group, a loss while a group opened in frame 0 is held, a cut after a Begin left open, a group dropped while no loss shows |
| MboGroupsUnderLoss.AccusesExactlyOnOverCount | tools/conformance/engine/gate.go:1062-1090 | while the checker is in touch, a message draws a violation if and only if it is an End that finds more orders than announced |
| MboGroupsUnderLoss.OnlyOverCountsAccuse | tools/conformance/engine/gate.go:810-1104 | from the first datagram of a capture that starts between groups, whatever is lost, cut or dropped outside the four ways, only an over-count can be a violation |
| MboGroupsUnderLoss.SparedBeginsAccuseNobody | tools/conformance/engine/gate.go:1062-1070 | if moreover no Begin goes unseen while a group is held, there is no violation at all |
| MboGroupsUnderLoss.LosslessIsSilent | tools/conformance/engine/gate.go:810-1104 | from any state in step, inside a group or not, a conforming publisher draws no finding while nothing is lost |
| MboGroupsUnderLoss.LosslessFromTheStart | tools/conformance/engine/gate.go:810-1104 | so a lossless capture that starts between groups draws none from its first datagram, whatever its number |
| MboGroupsUnderLoss.FirstMessageChargedExactly | tools/conformance/engine/gate.go:880-936 | with no group held, or before a Begin, the first message of a whole datagram is charged if and only if the checker is out of touch |
| MboGroupsUnderLoss.JoinChargedExactly | tools/conformance/engine/gate.go:926-936 | the first message a capture sees is charged if and only if the capture starts inside a group |
| MboGroupsUnderLoss.DropChargedExactly | tools/conformance/engine/gate.go:334-356 | after an InstrumentReset dropped the open group, the next message is charged if and only if the publisher is inside a group and neither a gap nor corruption shows |
| MboGroupsAccused.MergedGroupsOverCount | tools/conformance/engine/gate.go:1062-1070 | a run in which one lost datagram with an End and a Begin makes an over-count |
| MboGroupsAccused.JoiningMidGroupAccuses | tools/conformance/engine/gate.go:926-936 | a capture that starts inside a group charges its first order |
| MboGroupsAccused.GroupOpenedInFrameZeroAccuses | tools/conformance/engine/gate.go:817-823 | a run whose group loses its End charges the next Begin if and only if the group was opened in frame 0 |
| MboGroupsAccused.CutAfterBeginAccuses | tools/conformance/engine/engine.go:545-551 | a run in which a frame cut after its Begin leaves the group it opens clean, so the next Begin is a violation |
| MboGroupsAccused.DroppedGroupAccuses | tools/conformance/engine/gate.go:351-353 | a run in which an InstrumentReset drops the channel's open group, and the rest of that group is charged |
| Oracle.EmptyExactlyWhenTheyAgree | tools/conformance/engine/oracle.go:238-304 | no difference if and only if visible records and resting orders agree in every field, a hidden record masking a resting order |
| Oracle.DiffBooks | tools/conformance/engine/oracle.go:255-304 | the two passes find exactly the differences, in whatever order the maps are walked |
| Oracle.Memory.Count | tools/conformance/engine/oracle.go:188-208 | a repeated signature counts up and a new one starts at 1 |
| Oracle.Memory.RunForGroup | tools/conformance/engine/oracle.go:93-236 | the gates in their order, the comparison, and the report and memory of one group; other instruments are untouched |
| OracleGates.SignatureExactly | tools/conformance/engine/oracle.go:255-304 | which differences two books have, field by field, with hidden records and orders exempt as the code exempts them |
| OracleGates.ComparedExactly | tools/conformance/engine/oracle.go:93-186 | a group is compared if and only if it is well-formed, its instrument known, its history trusted and untouched by a replay, neither port shows a loss and the book stands at the group's number |
| OracleGates.LossIsNeverCharged | tools/conformance/engine/oracle.go:120-186 | on a market-data window with a gap, over a dirty group or for an unknown instrument the report is Unverifiable whatever the books and the memory hold, and the memory is empty afterwards |
| OracleGates.ReasonsExactly | tools/conformance/engine/oracle.go:93-186 | the reason given for not comparing is that of the first gate that fails |
| OracleGates.ComparisonsReportExactly | tools/conformance/engine/oracle.go:188-236 | a comparison without a difference passes, one with a difference is a violation once seen in a row as often as configured, twice by default, and a suspicion before |
| OracleGates.LossyWindowIsNeverCharged | tools/conformance/engine/engine.go:679-732 | over any run of datagrams of an era, once a number up to the greatest is missing or a datagram was damaged, every group is reported as Unverifiable, whatever the books hold and whatever was suspected |
| OracleRuns.ViolationTakesAnUnbrokenStreak | tools/conformance/engine/oracle.go:188-236 | a violation is reported if and only if the last confirmCycles groups were all compared and diverged with one signature |
| OracleTruth.TruthAgreesExactly | tools/conformance/engine/oracle.go:238-304 | a group that lists a book truthfully shows no difference if and only if the checker holds that book's visible orders as they are, and no other that the group does not list |
| OracleTruth.FromEmpty | tools/conformance/engine/book.go:139-240 | deltas from an empty book hold the orders they add just as the publisher does, and of the others nothing |
| OracleTruth.TruthMatchesExactly | tools/conformance/engine/oracle.go:93-236 | whatever was lost, repeated or reset, a truthful group of the current lifecycle is not compared, or matches if and only if no visible order that rested at the opening stands at its number without having been added since |
| OracleTruth.ClearStartSuffices | tools/conformance/engine/gate.go:627-695 | a lifecycle that opens with no visible order never has such an order |
| OracleTruth.ClearStartIsNeeded | tools/conformance/engine/gate.go:627-695 | any book with a visible order, followed by the add of another, makes the truthful group at 1 compared and different |
| OracleTruth.LeftGroupMatchesExactly | tools/conformance/engine/oracle.go:93-236 | a truthful group of a left lifecycle that is compared matches if and only if the new lifecycle's deltas give, from an empty book, the orders it lists |
| OracleTruth.ResetEndsComparison | tools/conformance/engine/gate.go:334-356 | where the numbers go on after an InstrumentReset, no group of any lifecycle is compared |
| OracleTruth.LeftDeltasMatchExactly | tools/conformance/engine/oracle.go:93-236 | where the wiped tracker first took in m deltas of the left lifecycle, a truthful group of the new one is compared only if they were the left one's 1 to m and the new one's first m were not taken in, and matches if and only if that makes no difference to the visible orders |
| OracleTruth.SuspectedExactly | tools/conformance/engine/oracle.go:93-236 | over any interleaving of deltas, resets and completed groups, whatever is lost or repeated and whichever lifecycle a delta is from, a publisher whose groups tell the truth is only passed or left unverifiable if and only if each group compared lists just what the deltas taken in since the last reset or wipe give from an empty book |
| OracleTruth.TruthIsNeverSuspected | tools/conformance/engine/oracle.go:93-236 | in particular if every lifecycle whose deltas start at 1 opens with no visible order and meets no group of an earlier one, and no delta of a left lifecycle is the next one due of a count that began at 1 after the wipe |
| OracleAccused.StandingOrderDanglesExactly | tools/conformance/engine/gate.go:1509-1650 | under the gate, while the deltas taken in are of one lifecycle, a cancel or execute of a visible order that stands in the publisher's book, unless left undecided for overflow, is dangling if and only if the order rested before the lifecycle opened and was not added since |
| OracleAccused.AnnouncedOrdersAreKnown | tools/conformance/engine/book.go:139-240 | every other such order the checker holds just as the publisher does |
| OracleAccused.RestingOrderAccuses | tools/conformance/engine/oracle.go:93-236 | a lossless run, every delta and group truthful and in time, in which the first group is suspected and the second a violation |
| OracleAccused.RestingCancelAccuses | tools/conformance/engine/gate.go:1509-1560 | the cancel that follows in that run is a violation |
| OracleAccused.LeftGroupAccuses | tools/conformance/engine/oracle.go:93-236 | a run whose lifecycles open empty, in which a truthful group of the left one, judged after the wipe, is a violation |
| OracleAccused.LeftDeltaAccuses | tools/conformance/engine/oracle.go:93-236 | a run whose lifecycles open empty and whose groups are all judged in their own, in which a delta 1 of the left one, taken in after the wipe, makes a truthful group a violation |
| OracleUnderLoss.LossOnBothPortsSuspectsExactly | tools/conformance/engine/oracle.go:93-236 | end to end, from any point of the rotation, with snapshot datagrams lost, cut or dropped and deltas lost, repeated, reset or late: every report on a publisher whose finished groups tell the truth is a pass or unverifiable if and only if each group compared lists just what the deltas taken in since the last reset or wipe give from an empty book |
| OracleUnderLoss.TruthSurvivesLossOnBothPorts | tools/conformance/engine/oracle.go:93-236 | and always is if the lifecycles whose deltas start at 1 open with no visible order and meet no group of an earlier one, and no delta of a left lifecycle opens or continues the count after a wipe |
| Density.LossIsNeverASkip | tools/conformance/engine/engine.go:558-806 | within an era, from a cold tracker, a dense stream classified in sequence order is never charged with a skip, whatever was lost, cut, repeated or received without a header |
| Density.LossIsNeverASkipThroughTheBuffer | tools/conformance/engine/engine.go:558-654 | the same for arrivals in any order that the reorder window repairs |
| Density.EverySkipIsCharged | tools/conformance/engine/gate.go:718-741 | on a loss-free run each jump past the greatest number so far draws exactly one violation and nothing else does |
| Density.AfterTheWrapNothingIsDense | tools/conformance/engine/gate.go:697-790 | past the wrap the next delta is charged as a skip |
| Density.OutOfOrderAtTheJoinAccuses | tools/conformance/engine/engine.go:664-732 | a datagram overtaken past the window at the join hides a loss, and a delta is charged as a skip |
| Density.FirstCopyChargedExactly | tools/conformance/engine/state.go:343-362 | on a tracker that holds deltas of the era before, the first datagram of an era to arrive is charged with a skip if and only if it begins with a delta past the one the tracker waits for, whatever was lost before it |
| Density.LeftDeltaHidesALoss | tools/conformance/engine/gate.go:718-741 | a run in which one such delta and the loss of the era's first datagram charge a dense publisher |
| SeqStart.StartChargedExactly | tools/conformance/engine/engine.go:628-633 | over any reset of a channel at rest whose market-data port was heard before, the rule is charged exactly once if the first datagram of the new era to arrive there is not number 0, and never otherwise |
| SeqStart.OvertakenStartAccuses | tools/conformance/engine/engine.go:628-633 | a run in which nothing is lost and the second datagram of the new era arrives first |
| Density.DamageOnlyTaints | tools/conformance/engine/engine.go:526-552 | over any run of whole, cut and headerless copies, corruption changes nothing about the window but its taint |
| Density.CopyIsDivergentExactly | tools/conformance/engine/engine.go:682-688 | over any such run, a copy is charged as a divergent repeat if and only if a frame of its number is among the last accepted ones and none of those has its bytes, and its own damage then taints nothing |
| Density.EqualCopiesAreNotCharged | tools/conformance/engine/engine.go:682-693 | copies that agree byte for byte are never charged, whatever is lost |
| Density.CutRepeatIsDivergent | tools/conformance/engine/engine.go:682-688 | a cut copy of a datagram that arrived whole is a divergent repeat |
| Refdata.ChannelState.OnManifestSummary | tools/conformance/engine/refdata.go:364-655 | a summary's findings and the new state, with incoherent, regressed and out-of-range summaries discarded |
| Refdata.ChannelState.OnInstrumentDef | tools/conformance/engine/refdata.go:769-869 | a definition's findings, its acceptance, and the freeze of a completed set |
| Refdata.ChannelState.Clear | tools/conformance/engine/refdata.go:322-357 | a reset forgets everything but a verdict still held |
| Refdata.ChannelState.ResolveShutdown | tools/conformance/engine/refdata.go:704-758 | at the end of the run a held verdict is given once, by the evidence of the other port |
| RefdataRuns.LaterIsUndefinedHalfway | tools/conformance/engine/refdata.go:46-49 | of two numbers exactly one is later, unless they are equal or half the circle apart |
| RefdataRuns.HalfwaySummaryMovesOnlyTheComparison | tools/conformance/engine/refdata.go:406-437 | a summary half the circle away is neither a regress nor a bump and moves only the count comparison |
| RefdataRuns.HalfwaySummaryHidesACountChange | tools/conformance/engine/refdata.go:439-449 | an input on which such a summary hides a count change under an unchanged number |
| RefdataRuns.CountChangeExactly | tools/conformance/engine/refdata.go:439-449 | over any run, a changed count under the current number is reported if and only if the summary taken in last had that number; a last summary half the circle away hides it |
| RefdataRuns.InvRun | tools/conformance/engine/refdata.go:364-520 | over any run the two validity flags agree, a valid channel expects at least one instrument, and a verdict is held only while invalid |
| RefdataRuns.ReadyExactlyTheFrozenSet | tools/conformance/engine/refdata.go:303-305 | once frozen, a channel is ready if and only if its definitions are the frozen set |
| RefdataRuns.ForeignDefinitionSpoils | tools/conformance/engine/refdata.go:793-812 | a definition outside the frozen set is reported and taken in |
| RefdataRuns.SpoiledUntilRenewed | tools/conformance/engine/refdata.go:793-869 | one such definition keeps the channel unready until a bump, a Valid=0 or a reset |
| RefdataRuns.EachWithdrawalIsJudgedOnce | tools/conformance/engine/refdata.go:382-520 | each Valid=0 over an established set gets exactly one verdict by the end of the run |
| RefdataRuns.EndedIsAnnounced | tools/conformance/engine/refdata.go:382-520 | over any run, the session mark stands if and only if an end of session was classified and nothing was served since |
| RefdataRuns.HeldIsTheWithdrawal | tools/conformance/engine/refdata.go:382-404 | over any run, the held verdict is that of the last set withdrawn and not settled, with the window as it stood then |
| RefdataRuns.ResumeVerdictExactly | tools/conformance/engine/refdata.go:510-522 | over any run, when service resumes a withdrawal is charged if and only if no end of session was classified since the last Valid=1 and the window was clean, and passed if and only if one was |
| RefdataRuns.EndOfRunVerdictExactly | tools/conformance/engine/refdata.go:704-758 | at the end of the run it is charged if and only if, in addition, the market-data port was seen and showed no gap |
| RefdataRuns.NumberChargedExactly | tools/conformance/engine/refdata.go:406-437 | in every reachable state, a number past the current one is reported if and only if it is not the next, one behind it always, and one half the circle away never |
| RefdataRuns.IncoherentExactly | tools/conformance/engine/refdata.go:364-397 | a summary is incoherent if and only if it serves under the number 0, other than straight after 65535, or starts or moves a set with no instrument |
| RefdataRuns.FlagChargedExactly | tools/conformance/engine/refdata.go:451-475 | the valid flag is charged if and only if it is neither 0 nor 1, or serves an empty set under the number of an established one |
| RefdataRuns.DefinitionChargedExactly | tools/conformance/engine/refdata.go:777-825 | a definition is charged with its tag if and only if that is not the current number; under it, as foreign if and only if the set is frozen without it, and as too many if and only if with it there are more than announced |
| RefdataRuns.BufferedEndOfSessionAccuses | tools/conformance/engine/refdata.go:510-522 | an input on which the verdict depends on whether EndOfSession leaves the other port's buffer before the next Valid=1 |
| RefdataRuns.LostEndOfSessionAccuses | tools/conformance/engine/refdata.go:510-522 | an input on which the end of the session was lost: the end of the run leaves the withdrawal undecided, a new Valid=1 charges it |
| RefdataPublisher.LosslessIsSilent | tools/conformance/engine/refdata.go:364-869 | joined at any moment of a conforming publisher's life and with nothing lost, nothing but verdicts on withdrawn sets is reported, while no set is served under the number 0 |
| RefdataPublisher.LosslessCaptureIsSilent | tools/conformance/engine/refdata.go:364-869 | the same from the first datagram of a capture |
| RefdataPublisher.ReadyExactlyWhenComplete | tools/conformance/engine/refdata.go:303-305 | the channel is ready if and only if every instrument of the published set was defined |
| RefdataPublisher.RepeatedSummaryChargedExactlyAtZero | tools/conformance/engine/refdata.go:382-396 | a repeated summary is charged if and only if its number is 0 |
| RefdataPublisher.ZeroIsAcceptedOnce | tools/conformance/engine/refdata.go:382-396 | the step from 65535 to 0 passes and the next repetition is a violation |
| RefdataUnderLoss.ChargedExactlyAtZero | tools/conformance/engine/refdata.go:364-869 | joined at any moment, and whatever is lost, cut, stripped or reset, a conforming publisher's message draws a violation, other than the verdict on a withdrawn set, if and only if it is a summary under the number 0 on a window that shows no loss, and not the step from 65535 |
| RefdataUnderLoss.LossInvRun | tools/conformance/engine/refdata.go:1003-1025 | over any such run, the subscriber is where the publisher is unless the window shows, or is about to show, that something is missing |

## Left out

- Sockets, files, goroutines, metrics, JSON, command line and reports: input, output and library plumbing.
- Single-message field checks and the rule tables: each is settled by one branch.
- Detail texts, severities, wall-clock time, Conditional downgrades and the relabelling of loss as capture loss outside the market-by-price density rule.
- Several publishers on one channel, several channels on one port and eviction at 4096 instances: the state behind the sequencing layer is keyed by channel, but for the market-by-order wipe, which MboWipe models across channels.
- Cadence, heartbeat, cycle-coverage, burst, round-robin and strike rules, and NEVER_REACHES_READY: threshold comparisons on timestamps.
- Snapshot counter rules of a market-by-order Begin (anchor and ID monotonicity, last sequence against deltas): comparisons with one stored predecessor.
- Groups still open at the end of the run, which are reported once.
- The runs of snapshot groups take datagrams in sequence order: the buffer that puts them in that order is modelled in Reorder and PortTracker, and the two are not composed.
- Payload digests: a digest is a value that accompanies the message, so collisions are not modelled.
- The reorder heap: a linear scan for the least item stands in for the heap of the standard library, with the same order.
- Level, order and straggler counters and the taint count are unbounded where the program's are 32 or 64 bits wide.
- MbpInstr.Tracker.InstrumentReset: does not drop the open snapshot group of the instrument (`engine/mbp.go:386-390`), which is the event Reset of MbpGroupsUnderLoss.
- MbpInstr.Tracker.Delta: does not model the check of a level update's Action against its Quantity, a field check that changes no state.
- Market-by-price crossed-book and inside-of-book queries: read-only and unrelated to the verdicts proved here.
- Block framing, section headers and packet blocks of pcapng: length checks around the options and timestamps that are modelled.
- Refdata.ChannelState.OnManifestSummary: does not model the timing fields and the serving-period bookkeeping of the same function, which no modelled verdict reads.
- MboWipe.State.OnResetCountForEra: does not hold the snapshot counters, batch IDs, highest sequence and cycle count that the same call clears (`engine/gate.go:279-290`), which no modelled verdict reads.
- Refdata.ChannelState.OnInstrumentDef: does not model the strike table or the pruning of market-by-order trackers when a set freezes (`engine/gate.go:297-332`), which acts on an instrument as the event Wiped of GateTrust.
- PortTracker.Port.Enqueue: the frame itself is an identifier, and the classification of what is drained and released is modelled in Series, Gate and Density rather than called from here.
