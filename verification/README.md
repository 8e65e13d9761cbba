# Proofs about the server's state machines and encoders

A Dafny model of nine independent parts of the Go server, with proofs of what
each is for. `dafny verify dfyconfig.toml` checks everything.

| part | modules |
|---|---|
| QR encoder (ISO/IEC 18004, level M, versions 1 to 10) | `Bits`, `Gf256`, `ReedSolomon`, `Segment`, `SegmentCodewords`, `Interleave`, `Zigzag`, `QrGrid`, `QrMask`, `QrPenalty`, `QrEncode`, `QrPatterns` |
| RTP relay timeline | `RtpPump`, `RtpContinuity`, `RtpSources` |
| Wake and cancel protocol of the gateway | `Gateway`, `WakeProtocol`, `WakeDelivery` |
| Delta-synced directory | `Directory`, `DirectoryReplace`, `DirectorySync` |
| Licence seats | `Seats` |
| Strict JSON walk | `JsonWalk` |
| Token buckets with sweeping | `RateLimiter` |
| Event ring | `EventRing` |
| Registration loop of a PBX line | `PbxLine`, `RegistrationLoop` |

`Common` holds what several of them share.

Code that changes state is modelled in that form: classes whose methods update
fields and arrays, with loops where the source has loops. Each such method is
proved equal to a function of the old state, and the laws are proved about those
functions. A Go map's iteration order is left open wherever the source iterates
over one. Concurrent parts are state machines: one step for each section under a
lock, one for each frame written or channel operation, in any order.

## Results in brief

- **QR.** For every input of at most 213 bytes the symbol decodes to the input,
  every block is a Reed-Solomon codeword with more than d places between any two,
  the mask is the best of the eight with ties to the lowest, and every other module is
  as drawn. The order of the modules, the codewords as numbers, the patterns and the
  format words are those of the standard. None of the encoder's panics about sizes is
  reached.
- **RTP.** Every outbound sequence number and timestamp of every run is accounted
  for, through rebases, own audio, frozen clocks and hand-overs; which packets start a
  stream is told from the packets alone.
- **Wakes.** Every session in the table at a Wake, and every one that connects while the
  wake is pending, gets it; at most one wake for a call on a connection; a cancel after it for exactly
  the sessions it was addressed to or that still find it remembered; and neither without
  its having been issued.
- **Directory.** A client that applies deltas holds exactly the live contacts after
  each sync; a replace leaves exactly the list, and a dry run predicts its counts in
  every iteration order.
- **Seats.** No write takes a licence from a device it does not name, while the clock
  does not go back behind an unrecorded place; as many are licensed as there are seats;
  replayed announcements always give the licensed set.
- **JSON.** Accepted if and only if one object with no repeated key at any depth.
- **Limiter.** A request is let through if and only if burst plus rate times length
  bounds every window that ends with it; forgetting idle sources changes no decision.
- **Ring.** A polling reader has every event once and in order, but for marked gaps.
- **Registration.** No wait begins with a stale late token; refusals are bounded by
  credential changes; retries are paced.

## What the proofs turned up

Cases outside what the comments promise, and branches no input takes. Each is a
lemma, next to the law it bounds.

- A forward jump of exactly 2^15 - 1 sequence numbers moves the source's highest
  number but not ours, so a rebase after it falls back behind a number already sent,
  which a long enough stream of our own then sends again
  (`RtpContinuity.CouplingKept`, `RtpContinuity.ExtremeJumpFallsBack`,
  `RtpContinuity.ExtremeJumpRepeats`).
- A ring read with a cursor more than 2^63 past its newest event goes wrong: the
  narrowed cursor turns negative (`EventRing.Ring.Since`, `EventRing.Narrowed`,
  `EventRing.GreatestCursor`).
- A device loaded without a place in the queue can take another's licence by a
  rotation if the clock has gone back (`Seats.EarlyClockDisplaces`).
- A frozen source that moves its clock after a gap of two frames or more is still
  paced (`RtpContinuity.PacingEnds`).
- A session superseded between a wake and its cancel, with its own replay already
  past the cancels, is not told of the cancel (`WakeProtocol.ToldIffInTable`,
  `WakeProtocol.SupersededMissesCancel`).
- A session can be up before a wake its replay read has been written: the server's Wake
  marked it first and is still writing it (`WakeDelivery.ReplayDelivers`,
  `WakeDelivery.UpBeforeWritten`).
- `walk` accepts input that ends inside the object; only the typed decode after it
  refuses (`JsonWalk.CutShort`, `JsonWalk.CutAtRepeat`).
- A reader polling with cursor 0 loses overwritten events without a mark
  (`EventRing.PageMarks`, `EventRing.UnmarkedLoss`).
- With a start spread, a corrected credential can be taken by the catch-up wait and
  never tried: the snapshot is older than the wait
  (`RegistrationLoop.ParkedOnCurrent`, `RegistrationLoop.UntriedCredential`).
- The segment's shortened terminator and alignment padding are branches no input
  takes (`Segment.TerminatorAligns`).
- The mask choice's -1 sentinel is sound only because the side is odd
  (`QrPenalty.EvenSideCanBeNegative`).

## Model

| member | source | states |
|---|---|---|
| Gf256.MulComm | server/internal/qr/qr.go:232-255 | Multiplication modulo 0x11D, defined by shift and add, is commutative |
| Gf256.MulAssoc | server/internal/qr/qr.go:232-255 | Multiplication modulo 0x11D is associative |
| Gf256.MulDistrib | server/internal/qr/qr.go:232-255 | Multiplication modulo 0x11D distributes over XOR on both sides |
| Gf256.NoZeroDivisors | server/internal/qr/qr.go:232-255 | A product is zero only when a factor is, so the 256 bytes are a field |
| Gf256.PowPeriod | server/internal/qr/qr.go:244-246 | The powers of 2 repeat after 255, which is what lets the exponent table be extended to 512 entries |
| Gf256.OrderIs255 | server/internal/qr/qr.go:234-248 | No positive exponent below 255 gives 1: the order of 2 is exactly 255 |
| Gf256.EveryByteIsAPower | server/internal/qr/qr.go:234-248 | Every nonzero byte is a power of 2 below 255, so the logarithm table has no holes |
| Gf256.Tables.GfMul | server/internal/qr/qr.go:250-255 | The table lookup, zero case included, is multiplication in the field for all 65536 pairs |
| Gf256.BuildTables | server/internal/qr/qr.go:234-248 | The loop builds tables with that property: exponents by doubling with reduction, logarithms as their inverse |
| ReedSolomon.EvalProduct | server/internal/qr/qr.go:257-289 | Evaluating a product of polynomials multiplies the values (Horner evaluation against convolution) |
| ReedSolomon.GeneratorRoot | server/internal/qr/qr.go:257-274 | The product of (x - 2^i) for i below d vanishes at each of those powers |
| ReedSolomon.RsGenerator | server/internal/qr/qr.go:257-274 | The in-place loop computes exactly the coefficients of that product below the leading one, for every positive degree |
| ReedSolomon.RsRemainder | server/internal/qr/qr.go:276-289 | The shift register computes the remainder function, for every data and every generator |
| ReedSolomon.CodewordIsMultiple | server/internal/qr/qr.go:276-289 | Data followed by the remainder is a multiple of the monic generator: the division identity |
| ReedSolomon.RemainderUnique | server/internal/qr/qr.go:276-289 | It is the only remainder of that length: any quotient and tail that satisfy the identity are these |
| ReedSolomon.SyndromesVanish | server/internal/qr/qr.go:257-289 | Data followed by its error correction codewords evaluates to zero at 2^i for every i below the degree |
| ReedSolomon.FewTermsManyRoots | server/internal/qr/qr.go:257-289 | A polynomial of at most 255 terms that vanishes at 2^0 to 2^(m-1) and has at most m nonzero coefficients is zero |
| ReedSolomon.MinimumDistance | server/internal/qr/qr.go:257-289 | Two different blocks of data give codewords that differ in more than d places |
| ReedSolomon.NearestCodeword | server/internal/qr/qr.go:257-289 | A word with at most d/2 places of a codeword wrong is nearer to it than to the codeword of any other block |
| Bits.ValueOfToBits | server/internal/qr/qr.go:142-146 | Writing any value in n bits and reading it back gives it modulo 2^n |
| Segment.BitBuf.Append | server/internal/qr/qr.go:138-146 | The loop over shifted bits appends the n-bit big-endian representation and nothing else |
| Segment.AppendBytes | server/internal/qr/qr.go:159-161 | The data is appended eight bits a byte, in order |
| Segment.AppendPads | server/internal/qr/qr.go:174-176 | The alternating pad loop fills exactly to the capacity, starting with 0xEC |
| Segment.PackBits | server/internal/qr/qr.go:177-183 | Unpacking the packed bytes gives the bits back |
| Segment.TerminatorAligns | server/internal/qr/qr.go:166-173 | The terminator always has its four bits and always ends on a byte boundary, so the shortening and the alignment branches are never taken |
| Segment.EncodeBytes | server/internal/qr/qr.go:148-184 | The whole segment: header, length, data, terminator and pads, in exactly the data codewords; the overflow panic is not reached |
| Segment.ParseSegment | server/internal/qr/qr.go:148-161 | A reader of the mode and count fields finds the input bytes, whatever follows them |
| Segment.EncodedRoundTrip | server/internal/qr/qr.go:148-184 | Parsing what the encoder wrote gives the input back, for every input that fits |
| SegmentCodewords.CodewordsAre | server/internal/qr/qr.go:148-184 | Every data codeword as a number: mode indicator 4, character count, the data and the terminator, four bits after four bits, then 236 and 17 in turn |
| Interleave.Layout.SizesSum | server/internal/qr/qr.go:191-210 | The short and long block sizes sum to the data length for any totals, so the panic is not reached |
| Interleave.SplitBlocks | server/internal/qr/qr.go:197-210 | The splitting loop takes every block in turn and uses up the data |
| Interleave.AppendColumns | server/internal/qr/qr.go:216-228 | The nested column loops read the blocks column by column, skipping short ones |
| Interleave.InterleaveBlocks | server/internal/qr/qr.go:186-230 | The whole of interleave computes the specified sequence |
| Interleave.DataAt | server/internal/qr/qr.go:216-223 | Each data codeword stands at a position given in closed form |
| Interleave.EcAt | server/internal/qr/qr.go:224-228 | Each error correction codeword stands at a position given in closed form |
| Interleave.BlocksReadBack | server/internal/qr/qr.go:186-230 | A reader using those positions finds each block and, with its error correction, a codeword of the code |
| Interleave.InterleaveRoundTrip | server/internal/qr/qr.go:186-230 | The output is as long as the total and de-interleaves to the data |
| Zigzag.WholeIs | server/internal/qr/qr.go:448-473 | On any odd side of at least 7 the zigzag visits every module outside column 6 exactly once |
| Zigzag.WholeAt | server/internal/qr/qr.go:454-473 | The order of the visit in closed form: pairs of columns from the right edge with column 6 left out, the first upward and each next one the other way, the right module of a row before the left |
| QrGrid.RowMajorCountIsCapacity | server/internal/qr/qr.go:434-446 | Counting free modules row by row gives the capacity of the zigzag, whenever all of column 6 is reserved |
| QrGrid.Grid.RawDataModules | server/internal/qr/qr.go:434-446 | The nested loop counts the free modules |
| QrGrid.Grid.PlaceModule | server/internal/qr/qr.go:464-471 | One module of the zigzag takes the next bit if it is free and bits remain, and is left alone otherwise |
| QrGrid.Grid.PlacePair | server/internal/qr/qr.go:454-473 | One two-module column extends the placement by its part of the zigzag, whose order Zigzag.WholeAt gives in closed form |
| QrGrid.Grid.PlaceCodewords | server/internal/qr/qr.go:448-477 | Every bit is written once, in order, along the free modules of the zigzag of Zigzag.WholeAt and nothing else changes; the panic is not reached when the bits fit |
| QrMask.ApplyMask | server/internal/qr/qr.go:502-511 | Masking in place flips exactly the free modules the mask selects |
| QrMask.MaskedTwice | server/internal/qr/qr.go:126-129 | Applying a mask twice gives the grid back |
| QrMask.DrawFormatBits | server/internal/qr/qr.go:391-416 | On any grid, reserved or not: both copies of the format bits and the dark module are drawn and reserved, every other module and reservation is unchanged, and where the format modules were reserved no reservation changes |
| QrMask.TrialIndependent | server/internal/qr/qr.go:121-129 | A trial from any grid that differs from the placed one in format modules only gives the symbol of that mask |
| QrMask.TrialUndone | server/internal/qr/qr.go:121-129 | Undoing a trial leaves a grid that differs from the placed one in format modules only, so no trial influences another |
| QrPatterns.Patterns | server/internal/qr/qr.go:479-500 | The eight formulas draw the eight patterns, told row by row by the columns each row inverts |
| QrPatterns.FormatBitsListed | server/internal/qr/qr.go:291-302 | The computed remainder and inversion give the eight words the standard lists for level M |
| QrPatterns.FormatTellsMask | server/internal/qr/qr.go:291-302 | No two masks have the same format information |
| QrPatterns.FormatReads | server/internal/qr/qr.go:391-416 | In a correct symbol a reader finds the listed word of its mask at the fifteen places beside the top left finder and again at the fifteen beside the other two, and the dark module dark |
| QrPenalty.WholeRun | server/internal/qr/qr.go:561-575 | Penalty rule 1 counted by five-module windows is 3 plus the excess over 5 for each maximal run |
| QrPenalty.PenaltyRuns | server/internal/qr/qr.go:561-575 | The run-skipping loop computes rule 1 so defined |
| QrPenalty.PenaltyFinderLike | server/internal/qr/qr.go:577-602 | The shifted seven-bit comparison computes rule 3: the pattern beside four light modules, once for each side |
| QrPenalty.ComputePenalty | server/internal/qr/qr.go:521-559 | The accumulating loops compute the sum of the four rules over rows, columns, blocks and balance |
| QrPenalty.BalanceSign | server/internal/qr/qr.go:552-557 | The balance term is non-negative exactly when the dark modules are not half of all |
| QrPenalty.BalanceIs | server/internal/qr/qr.go:552-559 | Unless half the modules are dark, the balance term is the least number of 5% steps beyond 45% to 55% that the dark share is within |
| QrPenalty.PenaltyNonNegative | server/internal/qr/qr.go:121-128 | The penalty is never negative on an odd side, so the -1 sentinel means only "no mask yet" |
| QrPenalty.EvenSideCanBeNegative | server/internal/qr/qr.go:552-558 | On an even side it can be: a 2 by 2 checkerboard scores -10 |
| QrEncode.CapacityExact | server/internal/qr/qr.go:85-96 | For each version the capacity table holds exactly the greatest length whose segment fits, and the length fits its count field |
| QrEncode.BlockTable | server/internal/qr/qr.go:81-93 | Blocks, error correction codewords, data codewords and longer blocks of every version, as the standard lists them |
| QrEncode.SmallestVersion | server/internal/qr/qr.go:101-111 | The smallest version that fits is chosen, and none exactly when the input is over 213 bytes |
| QrEncode.ChooseMask | server/internal/qr/qr.go:121-131 | The final grid is the symbol with the least penalty of the eight, lowest index on ties |
| QrEncode.SymbolReads | server/internal/qr/qr.go:121-133 | Unmasking the final symbol and following the zigzag gives the placed bits |
| QrEncode.CarriesData | server/internal/qr/qr.go:113-133 | A symbol whose codewords are the interleaved segment decodes to the data, and each block read from it is a codeword |
| QrEncode.EncodeAt | server/internal/qr/qr.go:113-133 | At a given version the symbol decodes to the data, its mask is the best, and it is the drawn patterns with its codewords placed, masked, and the format information |
| QrEncode.Encode | server/internal/qr/qr.go:98-134 | For every input: the error exactly over 213 bytes; otherwise, at the smallest version, unmasking, zigzag, de-interleaving and parsing return the input, every block is a Reed-Solomon codeword, the mask is the best of the eight, and the symbol is the drawn patterns with those codewords placed and nothing else |
| QrEncode.EveryModule | server/internal/qr/qr.go:113-133 | What each module of the symbol is: format information, a function pattern as drawn, a codeword bit or an untouched remainder module in zigzag order, the last two inverted where the mask says |
| RtpPump.Pump.RebaseSeq | server/internal/b2bua/b2bua.go:2033-2039 | The offset maps the source number to the one after the last sent, or to a random one for a first packet |
| RtpPump.Pump.Judge | server/internal/b2bua/b2bua.go:1784-1857 | The decision about a new stream and the frozen-clock bookkeeping, tied to a function of the old state, which RtpSources.NewSource spells out from the packets alone |
| RtpPump.Pump.AccountSeq | server/internal/b2bua/b2bua.go:1890-1909 | Expectation, loss and reordering after one in-stream packet, tied to a function of the old state |
| RtpPump.Pump.Rebase | server/internal/b2bua/b2bua.go:1858-1875 | The rebase of both numberings and the reset of the episode, tied to a function of the old state |
| RtpPump.Pump.Send | server/internal/b2bua/b2bua.go:1921-1938 | The number, timestamp and marker that go out and the continuation point kept, tied to a function of the old state |
| RtpPump.Pump.Forward | server/internal/b2bua/b2bua.go:1767-1940 | The whole of forward is those steps in order |
| RtpPump.Pump.WriteLocal | server/internal/b2bua/b2bua.go:1942-1963 | Our own frame continues the stream and marks the source as needing a rebase |
| RtpPump.Pump.InheritTimeline | server/internal/b2bua/b2bua.go:1965-1988 | The numbering of a predecessor on the same writer is taken over, and of no other pump |
| RtpPump.Replace | server/internal/b2bua/transfer.go:98-133 | A replacement pump, whatever codec its leg has now, takes the numbering of the last of the old pumps that wrote on its writer and nothing else of their state |
| RtpContinuity.Invariants | server/internal/b2bua/b2bua.go:1767-1988 | In every run: while relaying, the last timestamp sent is the source's plus the offset, and the episode flag says exactly that the missing timeline is over its limit |
| RtpContinuity.InStreamNumber | server/internal/b2bua/b2bua.go:1890-1931 | An in-stream packet stands from the highest number sent as the source numbered it from its own highest, and the drift between the two numberings more, unless the source renumbered; then it is the next number |
| RtpContinuity.CouplingKept | server/internal/b2bua/b2bua.go:1893-1936 | When the numberings are in step, an in-stream packet leaves them in step if and only if it is not a forward jump of exactly 2^15 - 1 |
| RtpContinuity.DriftStep | server/internal/b2bua/b2bua.go:1893-1936 | How the drift between the numberings moves with any in-stream packet, a function of the drift and the source's step alone |
| RtpContinuity.DriftIs | server/internal/b2bua/b2bua.go:1767-1988 | In every run while a source is relayed, the drift between the numberings is the one computed from the source's numbers alone, whatever was sent |
| RtpContinuity.TwoJumpsCancel | server/internal/b2bua/b2bua.go:1893-1936 | A second jump of 2^15 - 1 straight after the first takes the drift from 2^15 back to zero |
| RtpContinuity.Coupled | server/internal/b2bua/b2bua.go:1767-1988 | In every run with no such jump since the last rebase, renumbering, own audio or hand-over the numberings are in step, whatever came before |
| RtpContinuity.ExtremeJumpRepeats | server/internal/b2bua/b2bua.go:1893-1936 | After such a jump and 2^15 - 1 further frames of our own, its number goes out a second time |
| RtpContinuity.ExtremeJumpFallsBack | server/internal/b2bua/b2bua.go:1893-1936 | After such a jump our next own packet stands 2^15 - 1 numbers behind one already sent |
| RtpContinuity.ExtremeJumpRun | server/internal/b2bua/b2bua.go:1893-1936 | A run with such a jump, whose packets are numbered 0, 2^15 and then 1, which was not sent before; the own frame puts the numberings in step again |
| RtpContinuity.FollowsOn | server/internal/b2bua/b2bua.go:1858-1875 | A packet that starts a stream, and one of our own, has the number after the last and a timestamp one frame later |
| RtpContinuity.Continuity | server/internal/b2bua/b2bua.go:1767-1988 | Over every run of relayed packets, own audio and hand-overs every packet after the first follows the last one sent, or stands from the highest number sent as the source's numbering says and more by a drift computed from the source's own numbers; the source's own distance goes out if and only if that drift is zero, as it is without an extreme jump since the numberings were last put in step |
| RtpContinuity.BoundedTimestamps | server/internal/b2bua/b2bua.go:1797-1875 | Over every run a packet's outbound step is one frame (a rebase, own audio, pacing) or the source's own, within the break limit of the arrival gap, and back by at most a frame when beyond everything seen |
| RtpContinuity.FrozenEpisode | server/internal/b2bua/b2bua.go:1823-1856 | A source repeating one timestamp, whatever its numbers, losses and reordering included: exactly the packets past the limit go out one frame apart, and the break is counted once |
| RtpContinuity.ClockResumes | server/internal/b2bua/b2bua.go:1834-1856 | When the source's clock keeps up again within two frames no break is counted and the outbound step is the source's own |
| RtpContinuity.PacingEnds | server/internal/b2bua/b2bua.go:1834-1856 | Pacing of a frozen source ends if and only if a packet comes within two frames and its timestamp keeps up to a quarter frame; until then packets go out one frame apart and no further break is counted |
| RtpContinuity.MissingCount | server/internal/b2bua/b2bua.go:1890-1909 | The slots still missing number the sequence span less the packets received |
| RtpContinuity.LossAccounting | server/internal/b2bua/b2bua.go:1890-1909 | Within one orderly stream the loss counter has grown by exactly the slots still missing, so span equals received plus lost, across wraparound |
| RtpContinuity.ReorderAccounting | server/internal/b2bua/b2bua.go:1890-1909 | And the reordering counter by exactly the number of packets that came after a later one |
| RtpSources.RunSent | server/internal/b2bua/b2bua.go:1921-1988 | In every run the relay continues from the timestamp of the last packet sent and the highest number sent, over rebases, own audio and hand-overs |
| RtpSources.SourceIsLast | server/internal/b2bua/b2bua.go:1784-1800 | In every run a packet is taken to go on with its source if and only if the event before it was a packet of the same SSRC |
| RtpSources.NewSource | server/internal/b2bua/b2bua.go:1784-1940 | In every run, from the packets alone: a packet of another SSRC than the one before it, or after own audio or a transfer, has the next number, a timestamp one frame later and the marker, and counts as no loss, reordering or break; any other does so exactly when its ticks part from its arrival gap beyond the limit or step back while its number goes forward, and is counted; else the marker is its own |
| RtpSources.MusicContinues | server/internal/b2bua/b2bua.go:1942-1963 | In every run our own frame has the next number, a timestamp one frame later, and the marker asked for |
| Gateway.Hub.Wake | server/internal/gateway/gateway.go:211-222 | The locked part of Wake: the cancel is dropped, the wake remembered while unexpired, and the targets are the connected sessions |
| Gateway.Hub.CancelWake | server/internal/gateway/gateway.go:236-252 | The locked part of CancelWake: the wake is forgotten and the cancel remembered past the wake's expiry |
| Gateway.Hub.ForgetWake | server/internal/gateway/gateway.go:278-289 | Only the pending wake goes |
| Gateway.Hub.Attach | server/internal/gateway/gateway.go:342-353 | The session takes the place of one of its kind |
| Gateway.Hub.Detach | server/internal/gateway/gateway.go:362-373 | Only the session in the table is removed |
| Gateway.Hub.HandleAck | server/internal/gateway/gateway.go:402-416 | A wake is forgotten unless the device will answer, and the answer says whether it was known |
| Gateway.Hub.Sweep | server/internal/gateway/gateway.go:383-400 | The pruning loop, for every iteration order: returns the live entries of the device and removes its expired ones only |
| Gateway.Hub.PendingFor | server/internal/gateway/gateway.go:383-400 | Returns the unexpired wakes of the device and prunes its expired ones only |
| Gateway.Hub.CancelsFor | server/internal/gateway/gateway.go:258-276 | Returns the unexpired cancels of the device and prunes its expired ones only |
| Gateway.Session.MarkWake | server/internal/gateway/gateway.go:439-450 | A call is marked once; the first to mark it writes |
| Gateway.WakeRead | server/internal/gateway/gateway.go:211-222 | After a Wake a session that connects later no longer reads a cancel of the call and reads its wake until the expiry; nothing else it reads has changed |
| Gateway.CancelRead | server/internal/gateway/gateway.go:236-252 | After a CancelWake a session that connects later no longer reads the wake and reads the cancel until 30 seconds past the expiry of the wake, or for 90 seconds when none was pending; nothing else it reads has changed |
| Gateway.PrunedRead | server/internal/gateway/gateway.go:258-276 | Pruning removes exactly what nobody could read later |
| WakeProtocol.InvStep | server/internal/gateway/gateway.go:211-276 | Each of the eighteen kinds of step keeps the invariant of every call, device and connection |
| WakeProtocol.RunInv | server/internal/gateway/gateway.go:211-276 | The invariant of every call, device and connection holds after every interleaving |
| WakeProtocol.WakeAtMostOnce | server/internal/gateway/gateway.go:439-452 | In every interleaving a connection carries a call's wake at most once |
| WakeProtocol.OnceForAnySenders | server/internal/gateway/gateway.go:439-452 | The same for any number of Wakes of the same call at work on one connection, each made of the two sections of sendWake |
| WakeProtocol.CancelReaches | server/internal/gateway/gateway.go:532-561 | In every interleaving, once the replay and CancelWake have finished, a connection that carried the wake carries a cancel after it, if the cancel was addressed to it or it is in the table |
| WakeProtocol.CancelExactly | server/internal/gateway/gateway.go:236-276 | In every interleaving a finished session ends on the cancel if and only if it was addressed to it or was still remembered when its replay read the cancels |
| WakeProtocol.ToldIffInTable | server/internal/gateway/gateway.go:236-276 | A session whose replay had read its cancels when the cancel was issued ends on it if and only if it was in the table then: one superseded or detached by then is never told |
| WakeProtocol.ReplayingIsTold | server/internal/gateway/gateway.go:553-561 | A session between reading the wakes and reading the cancels at that moment ends on the cancel, superseded or not |
| WakeProtocol.TargetsEndCancelled | server/internal/gateway/gateway.go:236-256 | Every session a cancel was addressed to ends on it, with no exception |
| WakeProtocol.SupersededMissesCancel | server/internal/gateway/gateway.go:342-360 | The exception is real: a run in which a superseded session keeps its wake uncancelled |
| WakeProtocol.NothingUnissued | server/internal/gateway/gateway.go:236-276 | In every interleaving a connection carries no wake that was not issued for its device and no cancel of a call that was not cancelled |
| WakeDelivery.MarkedIsWritten | server/internal/gateway/gateway.go:439-450 | In every interleaving a call marked on a connection is in its log, unless the one that marked it is writing it right now |
| WakeDelivery.ReplayDelivers | server/internal/gateway/gateway.go:553-555 | In every interleaving, once its replay is over, a session has every wake in its log that was pending and unexpired when the replay read them, unless the Wake itself is writing it right now |
| WakeDelivery.UpBeforeWritten | server/internal/gateway/gateway.go:439-450 | The exception is real: a run in which a session is up with nothing in its log though it read a pending wake, because the Wake marked the call first and is still writing it |
| WakeDelivery.WakeDelivers | server/internal/gateway/gateway.go:211-234 | In every interleaving, once the Wake has returned, every session in the table for the device at its lock has the wake in its log, unless its own replay is writing it right now |
| WakeDelivery.PendingExactly | server/internal/gateway/gateway.go:211-289 | In every interleaving, until it expires, a wake is pending if and only if no cancel, forget, or ack other than will-answer has been taken since |
| WakeDelivery.LateSessionRings | server/internal/gateway/gateway.go:207-222 | A wake for a device that was offline is in the log of a session that connects before it expires and before anything drops it |
| WakeDelivery.TableExactly | server/internal/gateway/gateway.go:342-373 | In every interleaving a session is in the table exactly from its attach until its own detach or the attach of another of its device and kind |
| WakeDelivery.HandlerCanMove | server/internal/gateway/gateway.go:553-562 | A session that is not up can always take a step of its own, unless its replay of the wakes has outlasted the grace |
| WakeDelivery.SenderCanMove | server/internal/gateway/gateway.go:223-256 | In every interleaving a Wake or CancelWake that has not returned can take a step |
| Directory.Book.CollapseOne | server/internal/directory/directory.go:312-328 | One round of the loop: keep the first live match, tombstone any other, at one new version at most |
| Directory.Book.Collapse | server/internal/directory/directory.go:309-328 | For every iteration order one live contact with the URI is left, the rest are tombstoned at one version |
| Directory.Book.UpsertLocked | server/internal/directory/directory.go:301-347 | The whole upsert: one live contact with the URI, with the given content, every changed contact at one version |
| Directory.UpsertStanding | server/internal/directory/directory.go:301-347 | Afterwards the URI stands as one contact with that content and no other URI's standing has changed, whatever was kept |
| Directory.Book.Upsert | server/internal/directory/directory.go:349-380 | Succeeds exactly for a valid contact, a matching precondition and a saved file; otherwise no contact is changed; and whether the device has a directory afterwards |
| Directory.Book.Delete | server/internal/directory/directory.go:382-422 | The exact answer in every case, a device without a directory included: it tombstones exactly a live contact, at the next version; otherwise the directory is as before |
| Directory.Book.LiveByURI | server/internal/directory/directory.go:545-560 | For every iteration order: the contact if it is the only live one with the URI, and none otherwise |
| Directory.Book.UpsertListed | server/internal/directory/directory.go:513-527 | After the first loop every listed URI stands as its last listed content; the counts are functions of directory and list, spelled out in DirectoryReplace |
| Directory.Book.RemoveOthers | server/internal/directory/directory.go:528-536 | The second loop tombstones exactly the live contacts the list does not name, and counts them |
| Directory.Book.ReplaceLocked | server/internal/directory/directory.go:507-543 | The reconcile leaves one live contact for each listed URI, last content, none for any other; identical ones keep id and version; one new version or none |
| Directory.LastListed | server/internal/directory/directory.go:514-527 | The content a listed URI ends with is that of its last entry in the list, whatever the entries before it |
| Directory.ReplaceFinished | server/internal/directory/directory.go:510-543 | What the two loops leave is the specified result, also from a directory that held duplicates |
| Directory.Book.Replace | server/internal/directory/directory.go:432-477 | The counts are the function of directory and list, the result is the specified one, each error comes exactly in its case and changes nothing |
| Directory.Book.DryRun | server/internal/directory/directory.go:479-505 | The counts are the same function, so they equal what Replace reports in every iteration order, and nothing is changed |
| DirectoryReplace.ReplaceLeaves | server/internal/directory/directory.go:507-543 | After a replace each listed URI is exactly one live contact with the name, mode and favourite mark of the last entry for it, and every live contact is a listed one |
| DirectoryReplace.ReplaceReports | server/internal/directory/directory.go:514-543 | The counts, field by field: added are the entries for a URI neither the directory nor an earlier entry has, changed those that differ in name, mode or mark from the entry before them for the URI or from the directory, and there is one new version if anything was counted |
| DirectoryReplace.NothingToDo | server/internal/directory/directory.go:517-520 | No addition and no change is reported if and only if the directory already has each entry as its only live contact for the URI, with that name, mode and mark |
| DirectoryReplace.ReplaceValid | server/internal/directory/directory.go:432-477 | A replace leaves only live contacts with a URI and a known mode, whatever was there |
| DirectoryReplace.UpsertValid | server/internal/directory/directory.go:294-347 | An upsert of a valid contact keeps every live contact valid |
| Directory.FoldedAlike | server/internal/directory/directory.go:313-317 | Two URIs are one if and only if they differ at most in the case of letters |
| Directory.Book.ChangesSince | server/internal/directory/directory.go:582-619 | Every contact changed after the cursor, once, ordered by version and then by id, tombstones omitted for cursor zero |
| Directory.OrderedIs | server/internal/directory/directory.go:612-619 | That order spelled out: versions rise, and equal versions go by id |
| Directory.LessIs | server/internal/directory/directory.go:612-619 | Ids are compared at the first character in which they differ |
| Directory.UpsertAdvances | server/internal/directory/directory.go:301-347 | An upsert raises the version and gives every contact it changes a version above the old one |
| Directory.ReplaceAdvances | server/internal/directory/directory.go:510-543 | A replace raises the version if it changes anything and gives every contact it changes a version above the old one |
| DirectorySync.SyncConverges | server/internal/directory/directory.go:582-604 | A client right up to its cursor holds, after applying the delta, exactly the live contacts, also on the first sync |
| DirectorySync.WriteKeepsSynced | server/internal/directory/directory.go:301-422 | Any write leaves every client right up to its cursor |
| DirectorySync.HistoryKeepsSynced | server/internal/directory/directory.go:1-7 | In every history of writes and of syncs by any number of clients, every client is right up to its cursor |
| DirectorySync.DeltaSyncConverges | server/internal/directory/directory.go:1-7 | In every such history, right after its sync a client holds exactly the server's live contacts |
| Seats.RankIsIndex | server/internal/enroll/enroll.go:1020-1039 | In the sorted queue a holder's index is the number of holders ranked before it by seat time, then id |
| Seats.LicensedIff | server/internal/enroll/enroll.go:1007-1040 | Who is licensed, from the records alone: a device with a credential that is not revoked, ahead of which fewer such devices stand than there are seats, by seat time (or time of issue when none is recorded) and then by id |
| Seats.LicensedCount | server/internal/enroll/enroll.go:1012-1040 | Exactly as many are licensed as there are seats, or all the holders when they are fewer |
| Seats.Queue | server/internal/enroll/enroll.go:1020-1031 | Gathering in any map order and sorting gives every holder in rank order |
| Seats.DeviceStore.RecomputeSeats | server/internal/enroll/enroll.go:1012-1040 | The unlicensed set is exactly the holders ranked at or beyond the count |
| Seats.FixUp | server/internal/enroll/enroll.go:309-318 | The loop gives a holder without a place its time of issue, and changes no other record |
| Seats.DeviceStore.constructor | server/internal/enroll/enroll.go:290-322 | Nobody's rank is changed, everybody is licensed and the invariant holds; every holder has a place exactly when each was loaded with a place or a time of issue |
| Seats.DeviceStore.Announce | server/internal/enroll/enroll.go:1053-1074 | Replaying all announcements gives the licensed set; nothing is announced when it did not change |
| Seats.DeviceStore.Commit | server/internal/enroll/enroll.go:373-413 | On a failed mutation or save records, counts, suspensions and announcements are exactly as before; otherwise they follow the mutation |
| Seats.DeviceStore.IssueToken | server/internal/enroll/enroll.go:468-525 | Exactly when it succeeds and when each error comes; it announces exactly the difference, takes nobody else's licence unless the clock has gone back behind the device's unrecorded place, and changes nobody's standing when the device keeps its place |
| Seats.DeviceStore.Claim | server/internal/enroll/enroll.go:634-686 | For every iteration order, exactly when it succeeds and when each error comes: a valid code of a holder, or of any device while a seat is free, if it is saved; nobody else loses a licence unless the clock has gone back behind the device's unrecorded place; a holder in its place changes nobody's standing, and a refused code is kept |
| Seats.DeviceStore.Revoke | server/internal/enroll/enroll.go:800-822 | Frees the place and takes nobody else's licence; fails exactly when there is something to save and it is not saved |
| Seats.DeviceStore.Purge | server/internal/enroll/enroll.go:824-838 | Removes the record and takes nobody else's licence; fails exactly when it is not saved |
| Seats.DeviceStore.SetSeats | server/internal/enroll/enroll.go:947-965 | Raising the count suspends nobody; the difference is announced exactly |
| Seats.RoomForAll | server/internal/enroll/enroll.go:1007-1040 | With no more holders than seats nobody is unlicensed |
| Seats.EnterStable | server/internal/enroll/enroll.go:507-512 | A device that enters while a seat is free displaces nobody and is licensed |
| Seats.StayStable | server/internal/enroll/enroll.go:468-474 | A write that changes no place in the queue changes nobody's standing |
| Seats.LeaveStable | server/internal/enroll/enroll.go:800-838 | A device that leaves costs no other its licence |
| Seats.BackStable | server/internal/enroll/enroll.go:1026-1039 | A device that goes back in the queue costs no other its licence |
| Seats.IssueStable | server/internal/enroll/enroll.go:489-520 | Reissuing the credential of a holder in its recorded place or of a revoked device changes nobody's standing; otherwise nobody else loses a licence while the clock has not gone back behind the device's place |
| Seats.ClaimStable | server/internal/enroll/enroll.go:656-678 | A holder in its recorded place rotating its credential by a code changes nobody's standing; otherwise nobody else loses a licence on the same clock condition |
| Seats.RaisingHelps | server/internal/enroll/enroll.go:1034-1039 | The unlicensed set shrinks as the count grows |
| Seats.UnplacedRotationMoves | server/internal/enroll/enroll.go:309-318 | Without the fix-up at load the law fails: a rotation would send the first in the queue to its back |
| Seats.EarlyClockDisplaces | server/internal/enroll/enroll.go:489-520 | With a clock that has gone back, a rotation from an unrecorded place takes another device's licence |
| Seats.CodeSpent | server/internal/enroll/enroll.go:634-686 | A code is good once, until it expires: a claim ends the code of its device and no other |
| Seats.ReturnsBehind | server/internal/enroll/enroll.go:489-520 | A device that comes back into the queue, by a claim or a credential, stands behind every holder placed earlier |
| Seats.RevokedIs | server/internal/enroll/enroll.go:800-822 | A revoked device is no holder, gives up its place and keeps everything else; no other record changes |
| JsonWalk.PathString | server/internal/admin/decode.go:85-98 | The closure's string is the rendering of the steps on the stack |
| JsonWalk.Edit | server/internal/admin/decode.go:117-160 | The edits of one round are one step of the automaton |
| JsonWalk.Walk | server/internal/admin/decode.go:76-162 | The loop over the tokens computes the automaton's answer |
| JsonWalk.RunValue | server/internal/admin/decode.go:117-160 | Reading a whole value, at any depth, leaves the stack as a scalar would, unless the value repeats a key |
| JsonWalk.WalkExact | server/internal/admin/decode.go:73-162 | On the tokens of whole values the automaton answers what the recursive definition on trees does, the reported path included |
| JsonWalk.NoneIffUnrepeated | server/internal/admin/decode.go:140-150 | The recursive definition finds no duplicate if and only if the keys of every object at every depth are pairwise distinct |
| JsonWalk.AcceptedIff | server/internal/admin/decode.go:73-75 | A body of whole values is accepted if and only if it is one object with no key repeated in any object at any depth |
| JsonWalk.DuplicateIsReal | server/internal/admin/decode.go:140-150 | The path found leads to an object of the tree that holds its last key at least twice |
| JsonWalk.ReportedPath | server/internal/admin/decode.go:140-150 | A reported duplicate is rendered from such a path, array indices included |
| JsonWalk.RenderedAs | server/internal/admin/decode.go:85-98 | A key after a key takes a dot, also across indices; a first key or index takes none |
| JsonWalk.DigitsSpell | server/internal/admin/decode.go:95 | An index is written as the decimal digits that spell it, without a leading zero |
| JsonWalk.MalformedNeverAccepted | server/internal/admin/decode.go:101-109 | A syntax error at any point is never accepted |
| JsonWalk.CutShort | server/internal/admin/decode.go:101-107 | The walk does not ask whether the object was closed: of an acceptable object and what follows it, cut off anywhere, exactly the nonempty beginnings of the object pass (the typed decode that follows refuses them) |
| JsonWalk.CutAtRepeat | server/internal/admin/decode.go:101-150 | Of an object that repeats a key, cut off anywhere, exactly the nonempty beginnings before the repeated key pass, and every longer one is refused with the same report |
| RateLimiter.RateLimiter.Sweep | server/internal/admin/limit.go:207-220 | For every iteration order: at most once a second, exactly the sources idle over a minute go |
| RateLimiter.RateLimiter.Allow | server/internal/admin/limit.go:175-205 | The decision and the whole new state, tied to functions of the old, which RateLimiter.AllowedIff spells out over runs |
| RateLimiter.MatchesStep | server/internal/admin/limit.go:175-220 | One request keeps the forgetful limiter equal to one that never forgets, but for buckets idle over a minute |
| RateLimiter.SweepInvisible | server/internal/admin/limit.go:207-220 | Over every run with a clock that does not step back the two decide alike, whenever a minute refills a bucket |
| RateLimiter.LevelConserved | server/internal/admin/limit.go:187-194 | An allowed request costs its source and the listener one token each, a refused one nothing, and no other source anything |
| RateLimiter.WindowBound | server/internal/admin/limit.go:141-205 | In any window of any run the requests allowed, of one source or of all, are at most the burst plus the rate times its length |
| RateLimiter.ServerBound | server/internal/admin/limit.go:28-31 | With the server's constants: 100 + 50 T for a source, 200 + 200 T in all |
| RateLimiter.LevelIsLeast | server/internal/admin/limit.go:180-205 | A bucket holds the least of what it would hold had it been full at any one request so far, or now |
| RateLimiter.AllowedIff | server/internal/admin/limit.go:141-205 | Over every run with a clock that does not step back, a request is let through if and only if, counted from every request so far, the requests allowed and it are within burst plus rate times length, for its source and for all |
| RateLimiter.ServerAllowsIff | server/internal/admin/limit.go:28-31 | With the server's constants: if and only if in every T seconds up to it that begin with a request fewer than 100 + 50 T of its source and 200 + 200 T in all have been allowed |
| RateLimiter.ServerAdmits | server/internal/admin/limit.go:28-31 | So a request is let through while fewer than 100 of its source and 200 in all have been |
| RateLimiter.Forgets | server/internal/admin/limit.go:207-220 | In every run a source that asked within the last minute is remembered, and right after a request of an unknown source nobody is who has been idle for over 61 seconds |
| EventRing.Ring.Emit | server/internal/events/events.go:92-113 | The event is the next of the log, also when the oldest is overwritten; a held lock drops and counts it |
| EventRing.Ring.Since | server/internal/events/events.go:119-172 | For every 64-bit cursor: the page, cursor and mark are what reading the whole log would give, for any wraparound, if and only if the cursor is not past the newest event by more than 2^63; beyond that, events where the page should be empty, or slice bounds out of range |
| EventRing.Narrowed | server/internal/events/events.go:149-158 | What the signed arithmetic makes of a cursor: the part of the ring to copy, nothing, or more than there is from before the buffer, the last exactly for misread cursors |
| EventRing.GreatestCursor | server/internal/events/events.go:149-158 | The greatest 64-bit cursor is misread by any ring that holds an event |
| EventRing.HoldsRun | server/internal/events/events.go:149-169 | A run of the ring's contents is read right wherever the buffer's end falls in it |
| EventRing.PageMarks | server/internal/events/events.go:122-128 | A page is contiguous and moves a reader that is behind; it is marked exactly when events after a nonzero cursor are gone |
| EventRing.PageSize | server/internal/events/events.go:119-137 | A page is as long as the limit asked for, at most 1000, and 200 when none is asked for, or all there is, and begins after the cursor or with the oldest kept |
| EventRing.RunFaithful | server/internal/events/events.go:119-172 | For any mix of emits, drops, limits and wraparounds a polling reader has every event once and in order since its reading began, but for marked gaps, which hold only overwritten events |
| EventRing.UnmarkedHasAll | server/internal/events/events.go:119-172 | A reader with no marked page has exactly the log from where its reading began |
| EventRing.BeganAtCursor | server/internal/events/events.go:126-128 | A reader that starts with a nonzero cursor has its reading begin there, in every run |
| EventRing.UnmarkedLoss | server/internal/events/events.go:126-128 | A reader that polled an empty ring and comes back after one event more than the ring holds misses the first, unmarked |
| EventRing.RestartResyncs | server/internal/events/events.go:122-125 | A cursor ahead of the log, as after a restart, gets an empty page and the end of the log |
| PbxLine.Line.SetCredential | server/internal/pbxline/pbxline.go:338-344 | The write replaces the credential and reports whether it was the same |
| PbxLine.Line.Signal | server/internal/pbxline/pbxline.go:690-696 | A signal leaves the one wake token in the channel, whether or not there was one |
| PbxLine.Line.DisarmDeadline | server/internal/pbxline/pbxline.go:705-715 | Deadline and late token go together |
| PbxLine.Line.FlagIfOverdue | server/internal/pbxline/pbxline.go:717-731 | An overdue deadline is traded for a late token; nothing else changes |
| PbxLine.Backoff | server/internal/pbxline/pbxline.go:657-674 | The doubling loop gives the base times 2^(n-1), or the limit if that is less |
| PbxLine.RefreshBeforeLapse | server/internal/pbxline/pbxline.go:646-655 | The refresh falls within the lease if and only if the lease is longer than the floor, and after three quarters of it when the floor does not bind |
| RegistrationLoop.InvStep | server/internal/pbxline/pbxline.go:458-629 | Each of the sixteen kinds of step of loop, sweep and write keeps the invariant |
| RegistrationLoop.NoStaleToken | server/internal/pbxline/pbxline.go:571-590 | In every interleaving no wait begins with a late token in its channel, and one that ends late had its own deadline passed at a sweep made during it |
| RegistrationLoop.SweepFlags | server/internal/pbxline/pbxline.go:595-619 | In every interleaving a wait can be ended as late after a sweep if and only if that sweep, or one before it in the same wait, came at or after its deadline |
| RegistrationLoop.RetryPaced | server/internal/pbxline/pbxline.go:539-555 | In every interleaving the n-th failure in a row is retried no sooner than min(limit, base 2^(n-1)), less a fifth, and until then the line waits and says it is retrying for the n-th time, unless a wake, the sweep, the timer or a stop ends the wait |
| RegistrationLoop.WaitsOut | server/internal/pbxline/pbxline.go:458-467 | The first REGISTER waits for the start spread drawn, and the next of a registered line for its refresh, unless something ends the wait |
| RegistrationLoop.CatchUpOnlyLate | server/internal/pbxline/pbxline.go:472-495 | Only a loop whose last refresh wait ended late makes a catch-up wait |
| RegistrationLoop.RefusalsBounded | server/internal/pbxline/pbxline.go:526-537 | In every interleaving a line is refused at most once more than its credential was changed |
| RegistrationLoop.ParkedOnCurrent | server/internal/pbxline/pbxline.go:526-537 | A line parked with nothing to wake it was refused on the credential in force, always when there is no start spread, and otherwise unless a catch-up wait took the change |
| RegistrationLoop.UntriedCredential | server/internal/pbxline/pbxline.go:472-495 | With a start spread the exception is real: for any two credentials a run parks the line on the old one with the corrected one never tried |
| RegistrationLoop.ParkedUntilChange | server/internal/pbxline/pbxline.go:621-629 | Nothing but a write that changes the credential, or a stop, moves a parked line or sends another REGISTER |
| RegistrationLoop.RefreshInHand | server/internal/pbxline/pbxline.go:512-524 | While registered, the refresh is due before the lease lapses if and only if the lease is longer than the floor |

## Left out

- QrEncode.Encode: the drawing of finder, timing, alignment and version patterns is a parameter; any drawing that reserves column 6 and the format modules and leaves the version's codeword count is allowed, and that the source's drawings are such is finite table checking.
- QrEncode.CapacityExact: the codeword totals of the ten versions are constants here; the source counts them from the drawn grid.
- QR SVG output and the version information's BCH code: presentation and a finite table.
- Bytes are eight booleans, and grids are sequences or two-dimensional arrays of booleans; the machine width of the encoder's counters is not modelled, since none can exceed a few thousand.
- RtpPump.Pump.Forward: a write is taken to succeed with the wanted timestamp; what the RTP writer keeps after a failed one is not visible. Jitter and skew statistics and the byte-copy path without RTP are not modelled; they decide nothing.
- RtpContinuity.LossAccounting: assumes no duplicates, nothing older than the stream's first packet, reordering under 64 and jumps under 2^15, as the source's switch does; so does RtpContinuity.ReorderAccounting.
- RtpPump.Replace: bridge and transfer orchestration around it is library calls; in a run a hand-over is to one successor.
- WakeProtocol.CancelReaches: assumes one Wake for a call and device, a replay that takes less than the cancel grace, and writes that do not fail; WakeProtocol.ToldIffInTable, WakeProtocol.ReplayingIsTold and WakeProtocol.CancelExactly say which superseded or detached sessions are told. Frames of other kinds, presence callbacks and heartbeats are not modelled. WakeDelivery.WakeDelivers, WakeDelivery.ReplayDelivers and WakeDelivery.LateSessionRings are on the same assumptions.
- Gateway.Hub.Wake: the nested maps of devices and calls are one map over pairs, which has the same entries; the content of a wake and the reason of a cancel are not carried.
- Directory.Book.Delete: purge of a directory and the migration of an old file are not modelled.
- Directory.Book.Replace: a write of memory and file is one step that succeeds or fails; a sync that reads between the two is outside the claim. Times of update, writers' names and 64-bit overflow of versions are not modelled. URI folding maps the ASCII letters, one equivalence for both of the source's.
- Seats.DeviceStore.SetSeats: operations are sequential, so its overlap with a commit's unlocked save is outside the claim. Ids are numbers in place of strings, hashes and codes are opaque strings, and the length check of a given token is not modelled.
- Seats.StayStable: stands for the writes that touch no seat field (descriptions, settings, codes, lines), which are not modelled one by one.
- JsonWalk.WalkExact: tokens are those of whole values; the decoder's lexing and the wording of its errors are library behaviour.
- RateLimiter.RateLimiter.Allow: exact rationals in place of floating point, and a clock that does not step back.
- EventRing.Ring.Since: rings that have numbered 2^63 - 1 events or more are not modelled; the fields of an event other than its number are one string.
- RegistrationLoop.RefusalsBounded: one line's loop at a time; deleting a line and adding it again starts a new one. The clock is an integer, timers may fire at any time, and a retry's wait is any within a fifth of its interval.
- PbxLine.Backoff: the source's doubling could overflow only for limits above 2^62 nanoseconds; numbers are unbounded here.
- SIP, TLS, sockets, HTTP handlers, file formats, templates, cryptography, the mobile app and the admin pages: library behaviour, or easy members.
