# Verified kernels of go-tor

This project models, in Dafny 4.11, the stateful kernels of the go-tor client and proves what they
promise over every input, every run or every reachable state. It covers circuit-level flow control,
onion layering, replay protection, the circuit pool with isolation keys, the circuit ID allocator,
HSDir selection, onion addresses, cell framing, the circuit breaker, guard persistence with path
selection, and the configuration file. `dafny verify dfyconfig.toml` checks everything.

Each kernel has two layers. Where the source updates fields or loops over buffers there is a class or
a method of the same shape; its contract ties the new state to a function on values. The properties
are lemmas about those functions, usually over whole runs (`IsRun`, `Final`, `After`).

## What is proved

- **Flow control.** Two full-duplex endpoints, one step per lock section: window updates, hand-over to
  the connection, delivery, SENDME check, SENDME goroutine and loss interleave freely. Each deliver
  window always covers the peer's package window and all DATA on the way, so no honest DATA cell is
  refused. Without loss, credit is conserved, a blocked sender always has work outstanding, and under
  any scheduling that work runs out only when its window is open again. The credit in use is accounted
  for exactly: what interruptions of a delivery by a SENDME goroutine cost and what they gain decides
  whether at least 901 of 1000 cells stay usable. Without interruptions they do; the source does not
  exclude one, and a concrete run ends with 900.
- **Onion layers.** A cell is encrypted hop by hop and then handed over, or the send fails; every relay
  takes its layer off in its own time, behind an ordered queue; the steps of several senders interleave
  freely. At every moment of every run the sender's cipher for a hop leads the relay's by the bytes
  queued in between, those in hand that have its layer, and those of failed sends. A cell comes out
  readable exactly when the keystreams at its positions agree: always while the cells pass every hop in
  order and no send has failed; after a failed send, an overtaking, or two senders inside the loop at
  once, only if a keystream repeats itself. The client recovers what the exit sends. In the loops
  themselves, hops may share a cipher object, which then moves on once per hop.
- **Replay protection.** Under any mix of the three entry points no sequence number is accepted twice
  until the 64-bit counter wraps, and a concrete run shows that it then is; the digest map stays a
  bijection onto the window, and both stay within one entry of the window size.
  `ValidateAndTrackAuto` alone refines "not among the last W+1 accepted digests" as long as the counter
  plus 2W stays below 2^64; from there on the wrapped check refuses every fresh cell, which a window
  size of 2^63 - 1 reaches at the third.
- **Pool and isolation.** Without a keyed build (a keyless request that finds no open circuit and gets
  one its builder keyed for isolation) two hand-outs of one circuit are both unisolated or have
  `Equals` keys, unless both levels have no name. Both conditions are exact: a pool with room can be
  led to share a circuit after a run exactly if the run had a keyed build, and otherwise two keys that
  should be kept apart can share one exactly if their levels are unnamed. Circuits are in one place at
  a time; queues respect capacity, and every queue is first in, first out over every run. The exact
  condition under which `Key` agrees with `Equals` is stated.
- **Circuit IDs.** The search finds the first free non-zero ID in cyclic order and fails exactly when
  there is none; an ID is issued again only after a full turn of the cursor.
- **HSDirs and addresses.** The sort is correct, and the three relays whose exclusive-or with the ID is the
  smallest big-endian number are chosen. The distances fix the selection, and publisher and fetcher
  agree, exactly when no two relays that look alike to the ID have fewer than three relays nearer than
  they are. Printing and parsing of onion addresses
  are inverse up to letter case, and exactly the printed strings are accepted.
- **Cells and streams.** Encoded cells are self-delimiting; a cell or relay cell reads back exactly
  when its payload fits; a byte stream crosses relay cells, digest stamping, layers and frames
  unchanged.
- **Breaker, guards, paths, config.** Bounds over every interleaving of the breaker; confirmed guards
  are never evicted; one use of the guard list or the consensus leaves the same guard preferred exactly
  when it neither removes its entry nor makes an earlier one usable, and over any run of such uses every
  path gets that guard as long as it is confirmed again before it expires; a saved configuration is
  restored exactly when its strings are tidy and its durations whole seconds. What a result does in each
  state of the breaker, what each option line does, how each form of a duration is read, and where each
  byte of a cell stands is stated literally, so that both directions of a round trip are fixed.

Four places where the code does not do what its documentation says are followed as coded: a half-open
breaker lets through one call more than `HalfOpenMaxRequests` (pkg/errors/breaker.go:45-46 against
131-157); a duration of a single digit without a suffix is refused, although a number without a suffix is
meant to be in seconds (pkg/config/loader.go:186-196 against 206-212); VERSIONS cells (command 7) are
framed with a fixed size (pkg/cell/cell.go:59-62), where section 3 of tor-spec gives them a length field;
and the flow-control comments cite section 7.4 of tor-spec where section 7.3 is meant.

## Conventions

Bytes are integers 0..255 and exclusive-or is defined bit by bit. Hashes, AES keystreams, checksums and
the clock are parameters. Random choices are nondeterministic. Strings are sequences of characters; in
`OnionAddress` a string is the sequence of its bytes, one character for each. Circuits in the pool are
numbers, with the state and key of each kept in maps of the pool. In flow control, wires between
endpoints may reorder, which includes the ordered connection of the source. `EndToEnd` takes an
ordered path that loses nothing and one sender at a time; what holds without that is in `OnionRuns`.
There, one layer of one cell is one step, since the source holds no lock across the loop over hops;
a single `XORKeyStream` call is not divided further. Stream-0 SENDME cells come only from
`sendCircuitSendme`, and isolation keys do not change once they are handed to the pool.

## Model

| member | source | states |
|---|---|---|
| `FlowControl.Circuit.constructor` | pkg/circuit/circuit.go:113-136 | both windows start at 1000 and both SENDME counters at 0 |
| `FlowControl.Circuit.DecrementPackageWindow` | pkg/circuit/circuit.go:672-682 | refused exactly when the package window is exhausted, otherwise one less and nothing else changes |
| `FlowControl.Circuit.IncrementPackageWindow` | pkg/circuit/circuit.go:686-692 | a SENDME opens the package window by 100 |
| `FlowControl.Circuit.DecrementDeliverWindow` | pkg/circuit/circuit.go:696-708 | refused exactly when the deliver window is exhausted, otherwise one less and one more cell counted |
| `FlowControl.Circuit.ShouldSendCircuitSendme` | pkg/circuit/circuit.go:712-717 | a SENDME is due from 100 counted cells on |
| `FlowControl.Circuit.DeliverData` | pkg/circuit/circuit.go:878-896 | a DATA cell is refused or counted, and a SENDME goroutine is spawned exactly when one is due |
| `FlowControl.Circuit.GrantCircuitSendme` | pkg/circuit/circuit.go:720-725 | the count restarts, one more SENDME, 100 more deliver window |
| `FlowControl.RefusalChangesNoCounter` | pkg/circuit/circuit.go:672-708 | a refused send or delivery leaves all four counters of the endpoint as they were |
| `FlowControl.DeliverWindowCoversSender` | pkg/circuit/circuit.go:672-741 | in every interleaving, with losses and failed sends, both deliver windows cover the peer's package window, DATA on the way and 100 per SENDME on the way |
| `FlowControl.NoDeliveryRefused` | pkg/circuit/circuit.go:696-703 | from the start, no DATA cell that passed the package window meets an exhausted deliver window |
| `FlowControl.LosslessRunsConserveCredit` | pkg/circuit/circuit.go:672-730 | without loss the deliver window equals that credit exactly, and a counter at the threshold has a check or goroutine outstanding |
| `FlowControl.NoCreditDeadlock` | pkg/circuit/circuit.go:878-907 | after any lossless run a sender at window 0 has something on the way, being checked or pending |
| `FlowControl.BlockedSenderRecovers` | pkg/circuit/circuit.go:878-907 | from every such state a run of exchange steps alone (carrying DATA to the receiver and SENDMEs back) opens the sender's window |
| `FlowControl.BlockedRunsAreBounded` | pkg/circuit/circuit.go:878-907 | however the endpoints are scheduled, a lossless run that keeps the sender blocked has a bounded number of exchange steps, and at its end another one is enabled |
| `FlowControl.MirroredRuns` | pkg/circuit/circuit.go:672-730 | both endpoints run the same code, so every run has its mirror image and the results hold in both directions |
| `FlowControl.CreditAccount` | pkg/circuit/circuit.go:696-730 | in every lossless run the credit in use is 1000 less the cells counted but not covered and what interruptions cost beyond what they gained; at least 901 exactly when those come to at most 99 |
| `FlowControl.CreditLostOnlyToInterruptions` | pkg/circuit/circuit.go:712-725 | so it is at least 901 less the deliveries whose check a SENDME goroutine forestalled |
| `FlowControl.UsableCreditAtLeast901` | pkg/circuit/circuit.go:887-895 | so if goroutines do not interrupt deliveries it is at least 901 |
| `FlowControl.InterruptionLosesCredit` | pkg/circuit/circuit.go:712-725 | with one interruption a lossless run reaches a quiet state with 900 |
| `OnionLayers.CipherStream.XORKeyStream` | pkg/circuit/circuit.go:537-540 | the buffer is masked in place with the keystream at the current position, which moves on by the length |
| `OnionLayers.MaskLastToFirst` | pkg/circuit/circuit.go:535-541 | the loop of `encryptForward` wraps the buffer in every hop's layer; every cipher object moves on once for each hop that holds it |
| `OnionLayers.MaskFirstToLast` | pkg/circuit/circuit.go:560-565 | the loop of `decryptBackward` strips every hop's layer; every cipher object moves on once for each hop that holds it |
| `OnionLayers.Circuit.EncryptForward` | pkg/circuit/circuit.go:524-544 | the result carries the layers of all hops, shared ciphers at the positions earlier uses left; with separate ciphers all layers are at the old positions and all ciphers advance by the length |
| `OnionLayers.Circuit.DecryptBackward` | pkg/circuit/circuit.go:549-568 | all hops' layers are stripped in order, shared ciphers at the positions earlier uses left; with separate ciphers at the old positions |
| `OnionLayers.PeelPrefix` | pkg/circuit/circuit.go:524-544 | after relays 0..i-1 exactly the layers of hops i.. are left |
| `OnionLayers.ComesThroughIff` | pkg/circuit/circuit.go:524-568 | for any ciphers at the two ends a payload comes through exactly when their combined keystreams agree over its length |
| `OnionRuns.SenderLeadsBy` | pkg/circuit/circuit.go:525-541 | in every run, encryption interleaving hop by hop, the sender's cipher for hop i is ahead of relay i by the bytes queued before it, those in hand with its layer, and those of failed sends |
| `OnionRuns.ComesOutIff` | pkg/circuit/circuit.go:785-812 | in every run, with failed sends, overtaking and senders that interleave, a cell comes out as its payload exactly when the keystreams at the positions of its layers agree with the relays' |
| `OnionRuns.ForwardRunPeels` | pkg/circuit/circuit.go:524-544 | when the cells pass every hop in order, a cell before which no send failed reaches relay i under exactly the layers of hops i.. |
| `OnionRuns.OneAtATimeIsInOrder` | pkg/circuit/circuit.go:785-812 | they do when a cell is begun only after the one before is handed over or failed |
| `OnionRuns.ForwardRunDeliversIff` | pkg/circuit/circuit.go:785-812 | then a cell is delivered exactly when the keystreams repeat after the bytes of the sends that failed before it, so always if none did |
| `OnionMishaps.FailedSendGarblesUnless` | pkg/circuit/circuit.go:790-812 | a run with one failed send after which the next cell is readable exactly when the keystream repeats |
| `OnionMishaps.OvertakingGarblesUnless` | pkg/circuit/circuit.go:790-812 | a run of two senders of which one hands over first, with the same condition |
| `OnionMishaps.InterleavingGarblesUnless` | pkg/circuit/circuit.go:525-541 | a run of two senders inside the loop over two hops, with the same condition on the first hop's keystream |
| `OnionRuns.BackwardRunRecovers` | pkg/circuit/circuit.go:549-568 | in every run the client recovers every payload the last hop sends, in order |
| `Replay.Tracker.ValidateSequence` | pkg/cell/replay.go:177-195 | duplicate, too old, too far ahead (with 64-bit wrap-around) or accepted |
| `Replay.Tracker.CleanupWindow` | pkg/cell/replay.go:198-232 | exactly the entries at or above the threshold remain, in the window and in the digest map |
| `Replay.Tracker.JudgeAndRecord` | pkg/cell/replay.go:342-362 | a rejected cell only counts as a replay; an accepted one is added to window and digests |
| `Replay.Tracker.Validate` | pkg/cell/replay.go:109-140 | the verdict and the whole new state of `validateForward` and `validateBackward` |
| `Replay.Tracker.ValidateAuto` | pkg/cell/replay.go:320-339 | the verdict and the whole new state of the automatic call, which evicts before it counts |
| `Replay.ReplayProtection.constructor` | pkg/cell/replay.go:69-79 | two separate fresh trackers |
| `Replay.ReplayProtection.ValidateAndTrack` | pkg/cell/replay.go:89-106 | empty cells are refused without effect; only the given direction changes |
| `Replay.ReplayProtection.ValidateAndTrackAuto` | pkg/cell/replay.go:307-339 | empty cells are refused without effect; only the given direction changes |
| `Replay.ReplayProtection.GetNextSequence` | pkg/cell/replay.go:287-300 | returns the expected number and moves it on, in one direction only |
| `Replay.ReplayProtection.Reset` | pkg/cell/replay.go:269-282 | both directions are fresh again and keep their statistics |
| `Replay.ExplicitVerdict` | pkg/cell/replay.go:109-195 | while nothing wraps, a number is accepted exactly when it and its digest are new and it lies from the counter less W up to the counter plus 2W; and which check refuses which other one |
| `Replay.AcceptedMovesOn` | pkg/cell/replay.go:126-139 | an accepted number moves the counter past itself, leaves exactly the numbers seen that are not too old, and counts as out of order if it is behind |
| `Replay.AcceptedAutoMovesOn` | pkg/cell/replay.go:307-368 | an accepted automatic call takes the counter as its number and moves it on by one, after the window has been cleaned |
| `Replay.EveryCellIsCounted` | pkg/cell/replay.go:109-195 | over every run each cell is accepted or counted as a replay |
| `Replay.NoSequenceAcceptedTwice` | pkg/cell/replay.go:109-195 | for any mix of calls none of which wraps the counter: accepted numbers are pairwise distinct, each is in the window or below the threshold, and the digest map is a bijection onto the window |
| `Replay.WrappedCounterAcceptsAgain` | pkg/cell/replay.go:177-195 | a run round the 64-bit counter that accepts one number and digest twice |
| `Replay.ThresholdOnlyAdvances` | pkg/cell/replay.go:183-186 | the too-old threshold never moves back between resets |
| `Replay.StateStaysSmall` | pkg/cell/replay.go:198-232 | window and digest map have equal size, at most W+1, at most W after an accepting `ValidateAndTrack` |
| `Replay.AutoDecides` | pkg/cell/replay.go:342-368 | for any window size one automatic call is a duplicate exactly for the last W+1 kept digests, and accepts another exactly while the counter plus 2W (mod 2^64) stays below 2^64 |
| `Replay.AutoRefinesRecentDigests` | pkg/cell/replay.go:307-339 | a run of automatic calls keeps exactly what the simple specification keeps; the counter is the number kept and all others count as replays |
| `Replay.AutoAcceptsUnlessRecent` | pkg/cell/replay.go:307-339 | from a fresh or reset state call k is decided by the last W+1 accepted digests and the room that is left |
| `Replay.HugeWindowRefusesThird` | pkg/cell/replay.go:188-192 | with the window size 2^63 - 1 the third different cell is refused |
| `Isolation.KnownKeysDecode` | pkg/circuit/isolation.go:161-174 | equal pool keys of known levels have equal level and payload |
| `Isolation.KeysSpelled` | pkg/circuit/isolation.go:156-174 | the key of each level as it is spelled; levels without a name spell nothing |
| `Isolation.KeyAgreesWithEquals` | pkg/circuit/isolation.go:156-208 | `Key` equality and `Equals` agree exactly when one key has a known level, both are nil, or both have level none |
| `Pooling.TakesFirstOpen` | pkg/pool/circuit_pool.go:106-125 | everything skipped is closed and the circuit taken is open |
| `Pooling.GetIsFifo` | pkg/pool/circuit_pool.go:88-140 | the first open circuit is returned, only closed ones before it are dropped, other queues are untouched, the builder is used only when all are closed, and what it returns gets the request's key or keeps its own |
| `Pooling.PrebuildFillsQueue` | pkg/pool/circuit_pool.go:212-231 | a round appends the open circuits without an isolation key in the order in which they were built, as long as there is room |
| `PoolOrder.QueuesAreFifo` | pkg/pool/circuit_pool.go:88-186 | for every queue and run, what was queued followed by what joined is what left followed by what is queued at the end |
| `PoolOrder.HandedIsLastToLeave` | pkg/pool/circuit_pool.go:106-140 | a request is handed the first open circuit of its queue, or else what the builder returns; what leaves before it is closed |
| `PoolOrder.PutsComeOutInOrder` | pkg/pool/circuit_pool.go:88-186 | any number of open circuits put into an empty queue with room are handed out in the order in which they were put |
| `Pooling.RunKeepsSorted` | pkg/pool/circuit_pool.go:88-186 | over any run every queued circuit carries the key of its queue; and without a keyed build every hand-out matches its circuit's key |
| `Pooling.CircuitsAreNotShared` | pkg/pool/circuit_pool.go:88-186 | without a keyed build two hand-outs of one circuit are both unisolated, or isolated with `Equals` keys if one level is known |
| `PoolSharing.UnknownLevelsShareIff` | pkg/circuit/isolation.go:163-174 | two keys that should be kept apart are handed one circuit by some run without keyed builds exactly when both are isolated at unnamed levels |
| `PoolSharing.SharingIff` | pkg/pool/circuit_pool.go:127-140 | after any run, some continuation without keyed builds hands one circuit to requests of different queues exactly when the pool has room and the run had a keyed build |
| `Pooling.LeasesAreExclusive` | pkg/pool/circuit_pool.go:143-186 | with a fresh builder and one Put per Get, no duplicates, nothing both queued and held, no queue above capacity, over any run |
| `Pooling.LeasedMeansOnePlace` | pkg/pool/circuit_pool.go:143-186 | a queued circuit is not held and occupies one slot of one queue |
| `Pooling.CircuitPool.GetWithIsolation` | pkg/pool/circuit_pool.go:88-140 | the loop computes exactly the specified take; the key of a request is set on a built circuit, and without one the builder's stays |
| `Pooling.CircuitPool.Put` | pkg/pool/circuit_pool.go:143-186 | closed circuits and full queues are left alone, otherwise the circuit goes to the back of its key's queue |
| `Pooling.CircuitPool.EnsureMinCircuits` | pkg/pool/circuit_pool.go:207-232 | nothing at or above the minimum, otherwise each successful build is put in turn |
| `Manager.CyclicCovers` | pkg/circuit/circuit.go:209-221 | the cyclic order meets every non-zero ID exactly once |
| `Manager.FirstFreeCorrect` | pkg/circuit/circuit.go:207-221 | the ID found is the first free one in cyclic order, and the search fails exactly when all non-zero IDs are in use |
| `Manager.Apply` | pkg/circuit/circuit.go:199-296 | no call makes 0 an ID or the next ID, and a closed manager holds no circuit |
| `Manager.After` | pkg/circuit/circuit.go:199-296 | the same over any run |
| `Manager.ReuseNeedsFullTurn` | pkg/circuit/circuit.go:207-226 | an ID is reissued only after every other ID was issued in between or was in use |
| `Manager.IssuedAgainOnlyAfterAllOthers` | pkg/circuit/circuit.go:207-226 | the same from the moment an ID was issued |
| `Manager.ClosedIdIsFree` | pkg/circuit/circuit.go:245-257 | closing a circuit frees its ID and no other, and a new circuit can be made |
| `Manager.OnlyFreeIdIsIssued` | pkg/circuit/circuit.go:199-257 | with all IDs in use, the ID of a closed circuit is the next one issued |
| `Manager.CircuitManager.FindUnusedID` | pkg/circuit/circuit.go:207-221 | the wrap-around loop terminates and computes the first free ID |
| `Manager.CircuitManager.CreateCircuit` | pkg/circuit/circuit.go:199-230 | a fresh building circuit under an unused ID; an open manager fails exactly when all IDs are in use; nothing else changes |
| `Manager.CircuitManager.CloseCircuit` | pkg/circuit/circuit.go:245-257 | the circuit is closed and removed, all others are unchanged |
| `Manager.CircuitManager.Close` | pkg/circuit/circuit.go:279-297 | all circuits are closed and removed, once |
| `HSDirs.ComputeXORDistance` | pkg/onion/onion.go:1095-1106 | the byte-wise exclusive-or on the common length |
| `HSDirs.CompareBytes` | pkg/onion/onion.go:1110-1133 | -1, 0 or 1 by the first difference, shorter first |
| `HSDirs.CompareIsLexicographic` | pkg/onion/onion.go:1110-1133 | the comparison is negative exactly when the first sequence is a proper prefix or smaller at the first difference |
| `HSDirs.CompareAsNumbers` | pkg/onion/onion.go:1110-1133 | it is the comparison of the two as big-endian numbers of a common length, shorter first between equal numbers |
| `Bytes.XorByBit` | pkg/onion/onion.go:1095-1106 | a bit of the exclusive-or is set exactly when the two bits differ |
| `HSDirs.CompareTotal` | pkg/onion/onion.go:1110-1133 | the comparison is antisymmetric and 0 only for equal sequences |
| `HSDirs.CompareTransitive` | pkg/onion/onion.go:1110-1133 | the comparison is transitive |
| `HSDirs.EquallyFarIffVisiblyEqual` | pkg/onion/onion.go:1095-1106 | two fingerprints are equally far from an ID exactly when they agree on the ID's length |
| `HSDirs.SortByDistance` | pkg/onion/onion.go:1060-1068 | the array is sorted, a permutation of what it was, and left alone if already sorted |
| `HSDirs.SelectHSDirs` | pkg/onion/onion.go:1031-1082 | min(3, n) relays, nearest first: those whose exclusive-or with the replica's ID is the smallest number |
| `HSDirs.ClosestAreNearest` | pkg/onion/onion.go:1031-1082 | the front of any sorted order is min(3, n) relays with the smallest exclusive-or as numbers, nearest first |
| `HSDirAgreement.SelectionUniqueIff` | pkg/onion/onion.go:1031-1082 | the distances fix the selection exactly when no two look-alike relays have fewer than three relays strictly nearer |
| `HSDirAgreement.SelectionIgnoresOrder` | pkg/onion/onion.go:1031-1082 | then the selection does not depend on input order |
| `HSDirAgreement.ContestedSelectionsDiffer` | pkg/onion/onion.go:1060-1077 | otherwise two orders of the input, both sorted already, begin with different selections |
| `HSDirAgreement.LookalikesFollowInputOrder` | pkg/onion/onion.go:1060-1077 | two different look-alike relays alone are sorted in either order, and the two selections differ |
| `HSDirAgreement.PublisherAndFetcherAgree` | pkg/onion/onion.go:1142-1164 | in one time period and over the same relays, no place contested, publisher and fetcher use the same directories for each replica |
| `HSDirAgreement.PeriodIsNoonToNoon` | pkg/onion/onion.go:496-513 | a time period is the 24 hours from noon to noon |
| `HSDirs.TotalIsNumberOfAccepting` | pkg/onion/service.go:508-524 | the number of successful uploads is the number of accepting pairs of replica and place |
| `HSDirs.PublishDescriptor` | pkg/onion/service.go:508-530 | both replicas go to their nearest directories, uploads that succeed are counted, and no success is an error |
| `Base32.DecodeOfEncode` | pkg/onion/onion.go:148-150 | decoding undoes encoding on whole 5-byte groups |
| `Base32.EncodeOfDecode` | pkg/onion/onion.go:75-85 | encoding undoes decoding on whole 8-symbol groups |
| `Base32.SymbolsAreBits` | pkg/onion/onion.go:148-150 | the eight symbols of a group are, letter by letter of the alphabet, the five-bit digits of the number its five bytes form |
| `OnionAddress.UpperInPlace` | pkg/onion/onion.go:76-81 | exactly the letters a to z are raised |
| `OnionAddress.ParseAddress` | pkg/onion/onion.go:58-114 | suffix, length, alphabet, decoded length (line breaks are dropped), version and checksum are checked in this order |
| `OnionAddress.AddressFromPublicKey` | pkg/onion/service.go:158-181 | a 32-byte key gets the address that `Encode` prints and the parser accepts |
| `OnionAddress.AcceptsExactlyPrinted` | pkg/onion/onion.go:58-153 | a string is accepted with a key exactly when its trimmed lower-case form is that key printed |
| `OnionAddress.ParseOfPrint` | pkg/onion/onion.go:136-153 | parsing a printed key returns the key |
| `OnionAddress.PrintOfParse` | pkg/onion/onion.go:109-113 | re-encoding an accepted address gives its lower-case form |
| `OnionAddress.PrintInjective` | pkg/onion/onion.go:136-153 | different keys have different addresses |
| `OnionAddress.PrintedShape` | pkg/onion/onion.go:136-153 | a printed address has 56 lower-case letters and digits 2 to 7 and ends in d.onion |
| `OnionAddress.SuffixIsOptional` | pkg/onion/onion.go:58-70 | a string is parsed alike with and without the suffix |
| `OnionAddress.RefusalReasons` | pkg/onion/onion.go:58-114 | which strings are refused with which of the five errors, and what the others parse to |
| `CellFraming.Writer.Encode` | pkg/cell/cell.go:116-157 | what is written, including the header left behind by an over-long variable cell and the unpadded over-long fixed cell |
| `CellFraming.Reader.DecodeCell` | pkg/cell/cell.go:160-195 | the first cell is returned and the rest kept, or the reader is drained |
| `CellFraming.HeaderBytes` | pkg/cell/cell.go:116-126 | four bytes of circuit ID, highest first, and the command |
| `CellFraming.FixedCellBytes` | pkg/cell/cell.go:142-154 | commands below 128: the payload and zeros up to 514 bytes, and no cut of a longer one |
| `CellFraming.VariableCellBytes` | pkg/cell/cell.go:128-145 | commands from 128 on: two bytes of length, the higher first, and the payload; nothing after the header if it is too long |
| `CellFraming.ReadsBackIffFits` | pkg/cell/cell.go:116-195 | a cell reads back, zero-padded and with the rest untouched, exactly when its payload fits |
| `CellFraming.PrefixesAreIncomplete` | pkg/cell/cell.go:160-195 | no proper prefix of an encoded cell decodes |
| `CellFraming.StreamsReadBack` | pkg/cell/cell.go:116-195 | decoding the concatenation of any cells gives the list back and consumes every byte |
| `RelayCells.Encode` | pkg/cell/relay.go:69-92 | header, data and zero padding in 509 bytes, or an error above 498 data bytes |
| `RelayCells.DecodeRelayCell` | pkg/cell/relay.go:95-124 | the fields of the header and as much data as it announces, or an error |
| `RelayCells.EncodedBytes` | pkg/cell/relay.go:69-92 | where each field stands in the 509 bytes, and that more than 498 bytes of data are refused |
| `RelayCells.DecodedBytes` | pkg/cell/relay.go:95-124 | what is read from those places, and which lengths are refused |
| `RelayCells.DecodedOfEncoded` | pkg/cell/relay.go:69-124 | for any length field, what comes back of data and padding |
| `RelayCells.NewCellReadsBackIff` | pkg/cell/relay.go:50-124 | a new relay cell survives exactly when its data is at most 498 bytes |
| `EndToEnd.StampedReadsBack` | pkg/circuit/circuit.go:766-788 | overwriting the digest field leaves the data readable |
| `EndToEnd.PayloadBytes` | pkg/circuit/circuit.go:734-788 | under the layers each chunk is a DATA cell (2) with its stream, stamped digest and length in their places |
| `EndToEnd.SendsOneCellEach` | pkg/circuit/circuit.go:734-818 | each chunk is sent as one RELAY cell (3) of 514 bytes under the circuit ID |
| `EndToEnd.StreamArrives` | pkg/circuit/circuit.go:734-818 | a stream in chunks of at most 498 bytes arrives unchanged and in order through relay cells, stamping, layers and frames |
| `CircuitBreakers.CircuitBreaker.BeforeRequest` | pkg/errors/breaker.go:120-162 | when a call is admitted and the state after it |
| `CircuitBreakers.CircuitBreaker.AfterRequest` | pkg/errors/breaker.go:165-198 | the state after a result |
| `CircuitBreakers.CircuitBreaker.CheckShouldOpen` | pkg/errors/breaker.go:201-216 | failure limit reached, or enough requests and the error rate at the threshold |
| `CircuitBreakers.CircuitBreaker.Reset` | pkg/errors/breaker.go:282-293 | closed with all counters zero |
| `CircuitBreakers.CircuitBreaker.ForceOpen` | pkg/errors/breaker.go:296-309 | opened now, unless already open |
| `CircuitBreakers.CountersStayConsistent` | pkg/errors/breaker.go:120-236 | over every interleaving failures + successes = requests, a closed breaker is below its limit, and an episode admits at most HalfOpenMaxRequests + 1 calls |
| `CircuitBreakers.ClosedAdmitsEveryCall` | pkg/errors/breaker.go:124-127 | a closed breaker admits every call and is not changed by it |
| `CircuitBreakers.TimeoutHalfOpens` | pkg/errors/breaker.go:129-137 | the first call after the timeout is admitted and starts a half-open episode with nothing counted |
| `CircuitBreakers.HalfOpenFailureReopens` | pkg/errors/breaker.go:187-191 | a failed result in the half-open state opens the breaker at that time, and no call is admitted in any run before the timeout has passed again |
| `CircuitBreakers.HalfOpenSuccessCloses` | pkg/errors/breaker.go:192-195 | a successful one closes it with every counter zero |
| `CircuitBreakers.LateResultIgnored` | pkg/errors/breaker.go:169-197 | a result that arrives while it is open changes nothing |
| `CircuitBreakers.ClosedResultCounts` | pkg/errors/breaker.go:170-185 | a closed breaker counts a result under its outcome, and a failed one opens it exactly at MaxFailures or, with MinRequests counted, at the error rate |
| `CircuitBreakers.ResetAndForceOpen` | pkg/errors/breaker.go:282-309 | a reset closes and clears in any state; a forced opening keeps the counters and the time of an open breaker |
| `CircuitBreakers.ClosedBreakerCounts` | pkg/errors/breaker.go:170-206 | over any run that keeps it closed the counters are the numbers of its results, and fewer than MaxFailures have failed |
| `CircuitBreakers.BelowThresholdAfterFailure` | pkg/errors/breaker.go:201-216 | after every failed result of any run a breaker that is still closed is below both limits |
| `CircuitBreakers.OpenAdmitsNothing` | pkg/errors/breaker.go:129-144 | between opening and timeout no call is admitted and nothing but Reset changes the breaker |
| `CircuitBreakers.HalfOpenAdmitsOneMore` | pkg/errors/breaker.go:131-157 | HalfOpenMaxRequests + 1 calls are admitted one after the other, and then no more |
| `Guards.GuardManager.IndexOf` | pkg/path/guards.go:146-154 | the first entry with the fingerprint |
| `Guards.GuardManager.GetGuards` | pkg/path/guards.go:121-136 | the unexpired entries in order |
| `Guards.GuardManager.AddGuard` | pkg/path/guards.go:139-190 | refresh in place, append, replace the first unconfirmed entry, or nothing |
| `Guards.GuardManager.ConfirmGuard` | pkg/path/guards.go:193-207 | the entry is confirmed and used now, or reported missing |
| `Guards.GuardManager.RemoveGuard` | pkg/path/guards.go:210-223 | the entry is removed, or reported missing |
| `Guards.GuardManager.CleanupExpired` | pkg/path/guards.go:226-249 | exactly the unexpired entries remain |
| `Guards.AddEvictsOldestUnconfirmed` | pkg/path/guards.go:157-174 | AddGuard keeps every entry, or drops only the oldest unconfirmed one of a full list |
| `Guards.AddedGuard` | pkg/path/guards.go:139-190 | a known guard is confirmed and used now in its place; a new one comes last, unconfirmed, under its nickname and address; the list stays as it is exactly when it is full of confirmed guards |
| `Guards.ConfirmedGuardIsKept` | pkg/path/guards.go:139-207 | ConfirmGuard confirms its entry and no other, and no later AddGuard evicts it |
| `Guards.RemovedGuard` | pkg/path/guards.go:210-223 | RemoveGuard removes exactly the entry of that fingerprint |
| `Guards.ConfirmedGuardsStay` | pkg/path/guards.go:139-249 | over any run in time order the list keeps distinct fingerprints, size and age order, and a confirmed guard stays until removed by name or expired at a cleanup |
| `Paths.Selector.FindPersistent` | pkg/path/path.go:160-168 | the relay of the first persisted guard found in the consensus |
| `Paths.Selector.SelectGuard` | pkg/path/path.go:151-192 | the preferred guard with the list untouched, or a random one that is then added |
| `Paths.Selector.SelectExit` | pkg/path/path.go:208-238 | an exit-flagged relay besides the guard if there is one, otherwise any other; fails exactly when there is none |
| `Paths.Selector.SelectMiddle` | pkg/path/path.go:241-260 | a relay that is neither guard nor exit; fails exactly when there is none |
| `Paths.Selector.SelectPath` | pkg/path/path.go:112-148 | three different fingerprints; success exactly when two further fingerprints exist; the preferred guard is used without changing the list |
| `Paths.PreferredIsFirstUsable` | pkg/path/path.go:157-168 | the preferred guard is the consensus relay of the first unexpired entry found there |
| `Paths.GuardIsSticky` | pkg/path/path.go:157-168 | over an unchanged list it stays the same until its own entry expires |
| `GuardRuns.SameGuardAfterIff` | pkg/path/guards.go:139-249 | after a selection, an operation of the guard manager or a new consensus the same guard is preferred exactly when the use neither removed its entry nor made an earlier one usable |
| `GuardRuns.SameGuardOverRun` | pkg/client/client.go:360-411 | over any run of uses that spare it, every path gets the same guard while it is renewed before it expires |
| `GuardRuns.PickedGuardLeads` | pkg/path/path.go:174-191 | a guard picked because none was preferred starts such a run, if the list had its entry, room or an unconfirmed entry |
| `Paths.PickedGuardIsRemembered` | pkg/path/path.go:174-191 | a newly picked guard is preferred afterwards exactly when the list had its entry, room, or an unconfirmed entry |
| `Words.JoinOfFieldsIffTidy` | pkg/config/loader.go:51-61 | joining the fields of a string gives it back exactly when it is trimmed and single-spaced |
| `Durations.DurationTruncates` | pkg/config/loader.go:172-213 | formatting and parsing a duration drops the fraction of a second and nothing else |
| `Durations.FractionReads` | pkg/config/loader.go:172-180 | a signed number with a dot is parsed as its whole units plus the fraction of a unit in nanoseconds, rounded down, or refused if that does not fit 64 bits |
| `Durations.DurationRoundTripIff` | pkg/config/loader.go:323-334 | a duration comes back exactly when it is a whole number of seconds |
| `DurationForms.SumReads` | pkg/config/loader.go:181-184 | a sum of numbers with Go's units, with or without a minus sign, is read as their sum if it fits 64 bits |
| `DurationForms.LargeSumRefused` | pkg/config/loader.go:181-212 | one that does not fit is refused, unless it is a single number of s, m or h |
| `DurationForms.SmallUnitReads` | pkg/config/loader.go:181-184 | ms, us and ns in nanoseconds |
| `DurationForms.ClockReads` | pkg/config/loader.go:181-184 | hours, minutes and seconds |
| `DurationForms.SuffixReads` | pkg/config/loader.go:186-205 | an integer with one of s, m, h and d in either letter case; what does not fit 64 bits wraps around |
| `DurationForms.BareNumberReads` | pkg/config/loader.go:186-212 | an integer without a suffix is in seconds, but a single digit other than 0 is refused |
| `DurationForms.PrintsDays` | pkg/config/loader.go:323-334 | whole days are printed in days |
| `DurationForms.PrintsHours` | pkg/config/loader.go:323-334 | other whole hours in hours |
| `DurationForms.PrintsMinutes` | pkg/config/loader.go:323-334 | other whole minutes in minutes |
| `DurationForms.PrintsSeconds` | pkg/config/loader.go:323-334 | and the rest in seconds, rounded down |
| `Decimal.AtoiSigns` | pkg/config/loader.go:84-95 | a plus sign is read, a sign alone or a number beyond 64 bits is not |
| `ConfigFile.LineReadsTidied` | pkg/config/loader.go:44-61 | a written line reads back as its key and its value made tidy |
| `ConfigFile.LineReadsBackIffTidy` | pkg/config/loader.go:44-61 | it reads back unchanged exactly when the value is tidy |
| `OptionLines.ProcessIsSwitch` | pkg/config/loader.go:82-167 | for every name and value, what an option does is the switch over the fifteen names |
| `OptionLines.LineTakesEffect` | pkg/config/loader.go:43-71 | a line of a word and a tidy value does what the switch says |
| `OptionLines.OtherLinesDoNothing` | pkg/config/loader.go:46-50 | blank lines and comments do nothing |
| `OptionLines.LinesInOrder` | pkg/config/loader.go:43-71 | lines take effect in order, and the first error stops the loading |
| `OptionLines.PortBounds` | pkg/config/config.go:131-168 | the ports that are valid together |
| `OptionLines.FieldBounds` | pkg/config/config.go:169-191 | the bounds of the other fields that the file carries |
| `OptionLines.UncheckedFields` | pkg/config/config.go:130-231 | the fields that are not checked |
| `OptionLines.PoolBounds` | pkg/config/config.go:206-228 | the pool sizes and isolation levels that are valid |
| `OptionLines.ServiceBounds` | pkg/config/config.go:193-204 | the onion services that are valid |
| `ConfigFile.ExcludeText` | pkg/config/loader.go:302-307 | the lines written for the two lists of excluded relays |
| `ConfigFile.BridgeText` | pkg/config/loader.go:299-301 | the lines written for the bridges |
| `OptionLines.SwitchesSaved` | pkg/config/loader.go:297-298 | the lines written for the switches |
| `ConfigFile.ConfigStore.SetOption` | pkg/config/loader.go:83-164 | the effect of each known option, or an error that changes nothing |
| `ConfigFile.ConfigStore.ProcessConfigOption` | pkg/config/loader.go:82-167 | unknown options are ignored |
| `ConfigFile.ConfigStore.LoadFromFile` | pkg/config/loader.go:39-78 | lines take effect in order up to the first error, then the whole of `Validate` (pkg/config/config.go:130-231) decides |
| `ConfigFile.ConfigStore.SaveToFile` | pkg/config/loader.go:278-319 | the lines written, in order |
| `ConfigFile.LoadOfSaved` | pkg/config/loader.go:39-167 | loading a saved config over any other leaves the cleaned config merged into it, and succeeds exactly when that is valid |
| `ConfigFile.LoadRestoresSavedIff` | pkg/config/loader.go:278-342 | over empty lists and for an ASCII level every written field is restored exactly when strings are tidy, the level lower-case and durations whole seconds |

## Left out

- Relay-cell digest recognition: the sender stamps the sum after absorbing a cell (pkg/circuit/circuit.go:777-786) and the receiver compares the sum before absorbing it (651-658), so no recognition claim is made; stamped digests are arbitrary in `EndToEnd`.
- Cells that originate at a middle hop: `decryptBackward` strips every hop's layer, so backward layering is stated for the last hop.
- An upper bound of 1000 on the deliver window: delayed SENDME goroutines can grant more than once per hundred cells.
- Refund of package credit: a send that fails after the decrement loses its credit in the source and in the model.
- Replay statistics are unbounded numbers; their 64-bit wrap-around is not modelled.
- The pool's `Stats` and `Close`, and the client's legacy circuit list, which also holds pooled circuits (pkg/client/client.go:420-424).
- The object identity of pooled circuits: they are numbers, so two references to one circuit are one number.
- Durations.FractionReads: the fraction of a unit is rounded down exactly, where Go computes it in floating point and ignores digits beyond 64 bits.
- ConfigFile.ConfigStore.SetOption: takes over that rounding, and lower-casing covers ASCII letters.
- ConfigFile.ConfigStore.ProcessConfigOption: the same.
- ConfigFile.ConfigStore.LoadFromFile: lines are given as a list, so opening the file and its path check, values with a line break in them, and the scanner's line-length limit are outside the model.
- ConfigFile.LoadRestoresSavedIff: a log level beyond ASCII is left out, as lower-casing covers ASCII letters.
- ConfigFile.LoadOfSaved: the same.
- Of the configuration only the fields that the file or `Validate` touch are kept.
- CircuitBreakers.CircuitBreaker.CheckShouldOpen: the error rate is compared over reals rather than floating point.
- Circuit breaker state-change callbacks and the time of the last failure.
- Paths: the exit port is unused by the source and not a parameter; of `UpdateConsensus` only the new lists are modelled, not its filter.
- Guards: loading and saving the JSON state file; a loaded list is taken as well formed where a claim needs it.
- The VERSIONS/NETINFO handshake, onion descriptor text, consensus parsing, stream ID allocation, padding, retry backoff with floating-point jitter, TLS, HTTP, SOCKS sockets, control port, metrics, logging and command-line tools.
- Real cryptography: SHA, AES, Curve25519, Ed25519 and HKDF are abstract functions.
