# gr-autopilot: verified model

A Dafny model of the algorithmic core of gr-autopilot, a system that designs, runs and attacks
software-defined-radio links. Four parts are modelled.

**The coded link.** The K = 3 (7,5) convolutional code with its hard and soft Viterbi decoders, the
rate-3/4 puncturer, payload sizing, the constellation mappers and slicer, the pseudo-random payload,
and the composition of all of them into one trial over an arbitrary channel (`Trellis`, `Viterbi`,
`HardDecoder`, `HardSentinel`, `SoftDecoder`, `ConvCode`, `ErrorCorrection`, `Puncturing`, `Coding`, `Gray`,
`Modulation`, `Prbs`, `PrbsPeriod`, `CodedLink`, `SoftLink`, `SparseErrors`, `Ties`). The decoder loops run
over arrays as in the source and are proved equal to a trellis recursion; that recursion is proved to return
the first of the best flushed payloads, ties included; the free distances 5 and 3 are proved by a potential on
the trellis; the correction radii follow. A second potential
bounds the weight of a detour by its length, so that any number of errors is corrected as long as they are
sparse in every window. The payload's
period is proved to be exactly 2^m - 1 for all six orders and every seed: powers of x are computed modulo
the feedback polynomial by verified squaring (`LinearRecurrence`, `PowersOfX`), and none that belongs to a
proper divisor of 2^m - 1 is 1 (`Divisors`, with Euclid's lemma and the primes involved).

**Flowgraphs.** Validation of skill chains, execution with samples-per-symbol tracking, export to a
Companion document and import by walking its edges (`Flowgraph`, `ChainRates`, `Companion`,
`GrcExport`, `GrcImport`, `GrcRoundTrip`). The exporter draws whatever the executor runs, with the
executor's own parameters, and export followed by import reaches a normal form in one step, which keeps both
chains precisely when the only demodulator is the last receive stage.

**Synchronization.** The Schmidl-Cox timing metric and pilot-assisted slip removal, over exact
complex numbers (`Complex`, `SchmidlCox`, `Psam`).

**Adversaries and hopping.** The jammer instrument as a protocol between lock holders, a FIFO owner
thread and transmitter processes (`Jammer`, with `JammerService` for what its commands achieve and
`JammerShutdown` for what survives a shutdown), the
escalating jammer (`ArmsRace`), the split of a payload over dwells and their grading (`HopAllocation`) and
the decorator that retunes an inner backend each dwell (`HoppingBackend`).

`Basics` holds what several modules share.

## What the proofs found

- `Jammer`: two transmitters can end up live. If a follower's retune times out while still queued,
  its transmitter dies, and the operator arms again, the queued retune later restarts the old
  transmitter, which nothing holds any more (`hardware/jammer.py:148-149` arms whenever the held one
  is not running). `Jammer.TwoTransmitters` is one run from the start to that state, and
  `JammerShutdown.OrphanOutlivesShutdown` shows that a shutdown does not reach the orphan: it runs on until
  the owner thread returns, and past that unless the kernel ends it there. `Jammer.ArmingIsSafeIff` proves
  that arming over a dead transmitter is safe exactly when no restart of it is queued;
  `Jammer.AlwaysSafe` covers all runs under that guard.
- `JammerShutdown`: `shutdown` queues the `None` that retires the owner thread outside the lock
  (`hardware/jammer.py:296`), so an arming command may slip in front of it, and its transmitter is still
  running when the owner thread has returned (`JammerShutdown.ShutdownCanLoseTheRace`). Arming after a
  shutdown is harmless exactly when the `None` is already queued (`JammerShutdown.LateArmingIsSafeIff`).
  What does rescue the case is the kernel's death signal, requested at best effort
  (`hardware/interferer.py:36-45`) and delivered when the starting thread exits
  (`hardware/jammer.py:25-31`): with it in place nothing outlives the owner thread, over all runs
  (`JammerShutdown.RetiredIsSilent`).
- The sentinels are the exact limits of optimality, not formalities: 2^30 mismatches for the hard
  decoder (`HardSentinel.HardSentinelIsTheBound`, with a word on which it fails just beyond) and a
  magnitude of 1e18 for the soft one (`SoftDecoder.SentinelIsTheBound`). The two decoders agree on every
  word that the hard one can decode, however many positions it knows (`SoftDecoder.SoftRefinesHard`), and
  no further (`HardSentinel.AgreementIsTheBound`). The correction radii and the link delivery results do
  not depend on the sentinels and hold for words of any length.
- `HopAllocation`: rounding can give the first dwell a negative share, which is then skipped, so more
  bits are graded than were requested: 3 bits over 5 channels grade 4
  (`HopAllocation.NegativeShareOvercounts`; `HopAllocation.DwellsConserveBits` has the exact condition).
  With coding every dwell is graded on its own info bits, at least two, so small requests are exceeded
  without any negative share as well, while larger ones fall short: 5 bits over 5 channels grade 10
  (`HopAllocation.OneBitDwellsOvercount`); `HopAllocation.CodedDwellsOvergradeIff` lists the requests that are exceeded,
  for either rate and any symbol width.
- `GrcExport`: what the executor runs is drawn, but not everything that is drawn runs: a Costas loop over
  square QAM is drawn with order 4 although the executor refuses it
  (`GrcExport.CostasOverQamIsOnlyDrawn`; `GrcExport.RunsIffDrawn` is exact).
- `Modulation`: the labels of the 32-QAM cross are not Gray throughout, as `modulation.py:59-60` says they
  are within a quadrant: two pairs of neighbours in each quadrant differ in three bits, all others in one
  (`Modulation.CrossNeighbours`).
- `ChainRates`: validation admits one sample per symbol (`flowgraph/builder.py:78`), but the canonical
  link then never reports itself synchronized (`ChainRates.CanonicalSynchronizes`).
- `ChainRates`: the matched filter is to leave two samples per symbol (`flowgraph/gr_blocks.py:81-86`), which it does
  exactly for whole even rates; three samples per symbol pass through (`ChainRates.DecimatesToTwoIff`).
- `GrcRoundTrip`: validation accepts chains with demodulators in the middle, which the exporter drops;
  the chains survive exactly when there is none (`GrcRoundTrip.ChainsSurviveIffShaped`;
  `GrcRoundTrip.MiddleDemodulatorIsLost` is a case).
- `SchmidlCox`: the metric normalises by the later half only, so it can exceed 1 where the earlier half is
  stronger (`SchmidlCox.MetricCanExceedOne`); `SchmidlCox.MetricBelowOne` gives the condition that keeps it
  below, and `SchmidlCox.ProportionalHalvesAttain` shows that condition exact on proportional halves.
- `Psam`: the vote over pilots needs only a strict plurality, not the majority that its comment names
  (`link/sync.py:309`): `Psam.PluralityRemovesSlip`, and `Psam.SlipRemovedIffItWins` for ties.
- `Coding`: the correction loop of `info_bits_for_budget` never runs, for either rate, and below the
  two-bit minimum the function returns 2 although 2 does not fit (`Coding.InfoBitsForBudget`).

## How the model reads

Source exceptions are result datatypes. Metrics of the soft decoder, weights, rates and samples are
exact reals; the hard decoder's metrics are integers as in the source. The constellation tables are on
the integer grid, before the scaling to unit energy, which changes no nearest-point decision. The
channel of `CodedLink.RunLink` is an arbitrary function of the symbols, standing for noise, phase
offset and the receiver's own de-rotation. `Kept`, `Potential` and `FreeDistance` of `ConvCode` are
analysis devices, not program state.

Loops that the source runs over arrays are methods over arrays with invariants; each is tied by its
`ensures` to a function, and the lemmas are about that function.

## Model

| member | source | states |
|---|---|---|
| Trellis.GeneratorsMeanTaps | gr_autopilot/coding.py:15-32 | masking the register with the generators 7 and 5 and taking the parity is the exclusive or of the tapped bits, for every state and input |
| Trellis.BuildTrellis | gr_autopilot/coding.py:25-37 | the tables filled by the two loops hold the shift-register successor and both generator outputs of every state and input |
| Viterbi.MetricIsLowerBound | gr_autopilot/coding.py:65-80 | no input path whose cost stays below the sentinel on its way costs less than the metric of the state it reaches |
| Viterbi.TraceIsAPath | gr_autopilot/coding.py:82-88 | the traceback from a reached state is a path from state 0 that ends in that state and costs exactly its metric |
| Viterbi.ReachedIff | gr_autopilot/coding.py:59-80 | for arbitrary branch weights a state is reached if and only if some path into it stays below the sentinel |
| Viterbi.DecodeIsOptimal | gr_autopilot/coding.py:54-88 | for arbitrary branch weights the decoded path is flushed to state 0 and no dearer than any flushed path that stays below the sentinel |
| Viterbi.DecodeRescaled | gr_autopilot/coding.py:54-125 | scaling the weights by k > 0 and adding a constant per position changes no decision, ties included |
| Viterbi.DecodeTracks | gr_autopilot/coding.py:54-125 | for two decoders with different sentinels on rescaled weights: once the first reaches the flushed state below its own sentinel, both return the same bits, whatever either of them prunes elsewhere |
| Viterbi.Traceback | gr_autopilot/coding.py:82-88 | the backward loop over the two survivor tables reads the inputs of the surviving path and cuts them to the info bits |
| HardDecoder.Step | gr_autopilot/coding.py:65-80 | one pass over all states and inputs, overwriting as it goes, leaves every state with the first of its cheapest branches, and leaves the rows of the other steps alone |
| HardDecoder.ViterbiDecode | gr_autopilot/coding.py:54-88 | the array program with its four metrics, two survivor tables and backward walk returns the first n_info inputs of the trellis recursion's survivor |
| ErrorCorrection.PathCostIsFlips | gr_autopilot/coding.py:73-75 | a path's accumulated metric is its number of mismatches with the received word on the positions that are not erased |
| ErrorCorrection.HardIsMaximumLikelihood | gr_autopilot/coding.py:54-88 | for every received word over 0, 1 and erasure that some payload fits with fewer than 2^30 mismatches, the output, re-encoded, mismatches it on as few known positions as any payload of that length, and its path is flushed |
| ErrorCorrection.FewKnownIsDecodable | gr_autopilot/coding.py:59-76 | in particular every word with fewer than 2^30 known positions qualifies |
| ErrorCorrection.DecodableIffReached | gr_autopilot/coding.py:59-76 | the decoder reaches the flushed state if and only if some payload fits with fewer than 2^30 mismatches |
| ErrorCorrection.FitsIffReached | gr_autopilot/coding.py:59-76 | the same for a word of any length: the flushed state is reached if and only if some flushed path fits with fewer than 2^30 mismatches |
| HardSentinel.HardSentinelIsTheBound | gr_autopilot/coding.py:59-88 | the decoder is optimal on all words that some payload fits with fewer than a bound of mismatches if and only if the bound is at most 2^30 |
| HardSentinel.AgreementIsTheBound | gr_autopilot/coding.py:54-125 | the hard and the soft decoder agree on all words that some payload fits with fewer than a bound of mismatches if and only if the bound is at most 2^30 |
| HardSentinel.NoFreeBlock | gr_autopilot/coding.py:25-34 | the parity check of the code: from no state can three inputs produce 10 00 00 |
| HardSentinel.LostReadsZeros | gr_autopilot/coding.py:69-87 | for any weights: from a step at which every state is lost on, every state stays lost and the traceback reads zeros, whatever the rest of the word says |
| HardSentinel.DecodesToZero | gr_autopilot/coding.py:69-87 | on the word of that proof the traceback is that of the lost prefix followed by zeros |
| ConvCode.ConvEncode | gr_autopilot/coding.py:40-51 | the register loop writes the two coded bits of every input and of the two flush zeros |
| ConvCode.EncodeIsConvolution | gr_autopilot/coding.py:40-51 | the encoder's output is the convolution of the input with 1+D+D^2 and 1+D^2 |
| ConvCode.FlushEndsAtZero | gr_autopilot/coding.py:46 | the two tail zeros bring the encoder back to state 0 |
| ConvCode.Linearity | gr_autopilot/coding.py:40-51 | codewords differ exactly where the codeword of the payloads' difference has a one |
| ConvCode.PotentialStep | gr_autopilot/coding.py:25-34 | no branch lowers the least remaining transmitted weight by more than it transmits, at any phase of the puncturing pattern, and leaving state 0 secures the free distance |
| ConvCode.WeightSoFar | gr_autopilot/coding.py:40-51 | a path that has left state 0 has transmitted at least the free distance less the potential of where it is now |
| ConvCode.CodewordsFarApart | gr_autopilot/coding.py:40-51 | two different flushed payloads differ in at least 5 coded bits, and in at least 3 of the bits that rate 3/4 transmits |
| ErrorCorrection.StepTriangle | gr_autopilot/coding.py:73-75 | where two codewords differ at a transmitted position, that position was lost or one of them mismatches it |
| ErrorCorrection.NotBothFit | gr_autopilot/coding.py:40-76 | for any two different payloads, a word's mismatches with both and its lost transmitted positions make up at least the free distance |
| ErrorCorrection.WithinRadius | gr_autopilot/coding.py:54-88 | with f flips and e lost transmitted positions, 2f + e below the free distance makes the decoder return the payload, however long the word |
| ErrorCorrection.HalfRateCorrects | gr_autopilot/coding.py:40-88 | any payload of any length survives f flips and e erasures anywhere in its codeword as long as 2f + e <= 4 |
| ErrorCorrection.HalfRateRadiusIsSharp | gr_autopilot/coding.py:40-88 | 2f + e = 5 can already lose the payload |
| ErrorCorrection.EveryPayloadCanBeLost | gr_autopilot/coding.py:40-88 | every non-empty payload, of any length, is decoded wrongly from some word with three flips and no erasure |
| SparseErrors.ReserveStep | gr_autopilot/coding.py:25-34 | off state 0 every branch, at any phase of the pattern, pays its step's share of the weight that a detour of L steps needs: (L + 7) / 2 transmitted ones, or (L + 10) / 6 at rate 3/4 |
| SparseErrors.AwayWeight | gr_autopilot/coding.py:40-51 | hence a path that leaves state 0 and is back after L steps has transmitted at least that many ones in between |
| SparseErrors.DetourIsDearer | gr_autopilot/coding.py:65-80 | where twice the flips plus the losses in the window of a detour stay below that weight, the detour costs more there than the payload's own path |
| SparseErrors.SparseErrorsCorrected | gr_autopilot/coding.py:54-88 | however many errors the word holds in all: if every window of three or more steps holds fewer than a detour of its length needs, and some payload fits with fewer than 2^30 mismatches, the payload is returned |
| SparseErrors.RadiusIsSparse | gr_autopilot/coding.py:54-88 | within half the free distance every window is sparse in this sense |
| SparseErrors.SpacedFlipsCorrected | gr_autopilot/coding.py:40-88 | at rate 1/2 a word of any length with at most one flip in any four successive inputs, one in eight coded bits, is decoded to its payload, given that some payload fits with fewer than 2^30 mismatches |
| SparseErrors.SparseLinkCorrects | gr_autopilot/coding.py:128-192 | the same on the channel bits of either rate, bits missing at the end counting as lost |
| SparseErrors.SparseLinkDelivers | gr_autopilot/link/numpy_sim.py:65-70 | a trial over any table and channel whose slicer errors are sparse returns the transmitted info bits |
| Puncturing.Puncture | gr_autopilot/coding.py:133-143 | the loop keeps the bits the pattern marks, in order, for any pattern |
| Puncturing.Depuncture | gr_autopilot/coding.py:146-158 | the loop with its read cursor puts every received bit at its kept position and -1 everywhere else, also when the stream ends early |
| Puncturing.DepunctureSoft | gr_autopilot/coding.py:161-173 | the same with a zero ratio for every hole |
| Puncturing.PuncturedAtRank | gr_autopilot/coding.py:133-143 | a kept bit is found in the stream at the number of kept positions before it |
| Puncturing.RebuildAfterPuncture | gr_autopilot/coding.py:133-158 | rebuilding a punctured stream restores every kept bit and erases every other position, for any pattern |
| Puncturing.SentClosedForm | gr_autopilot/coding.py:128-143 | m inputs send 4 (m div 3) + {0, 2, 3}[m mod 3] bits |
| Puncturing.RebuiltErrors | gr_autopilot/coding.py:146-158 | flips and losses of the rebuilt word are those of the channel word, missing trailing bits counting as lost |
| Puncturing.ThreeQuarterRateCorrects | gr_autopilot/coding.py:128-192 | rate 3/4 returns the payload after any one flip, or any two losses, whether erased or missing at the end |
| Puncturing.ThreeQuarterRadiusIsSharp | gr_autopilot/coding.py:128-192 | three losses can already cost the payload |
| Puncturing.PuncturedIsMaximumLikelihood | gr_autopilot/coding.py:54-192 | at rate 3/4, if some payload's stream fits the channel word with fewer than 2^30 mismatches, no payload's stream fits it better than that of the payload returned, missing bits included |
| SoftDecoder.Step | gr_autopilot/coding.py:104-119 | one pass of the soft loop leaves every state with the first of its cheapest branches and touches no other step |
| SoftDecoder.ViterbiDecodeSoft | gr_autopilot/coding.py:91-125 | the soft array program returns the first n_info inputs of the recursion's survivor for the weights llr (2c - 1) |
| SoftDecoder.SoftBeats | gr_autopilot/coding.py:91-125 | no payload whose running correlation stays below 1e18 beats the decoder's output |
| SoftDecoder.SoftIsOptimal | gr_autopilot/coding.py:91-125 | with a total magnitude below 1e18 the output minimises the sum of llr (2c - 1) over all flushed codewords of that length |
| SoftDecoder.SoftScaleInvariant | gr_autopilot/modulation.py:166-182 | scaling all ratios by a positive constant changes no decoded bit, which is why the demodulator may leave the noise scale out |
| SoftDecoder.SoftRefinesHard | gr_autopilot/coding.py:54-125 | on ratios +1, -1 and 0 for bits 0, 1 and erasure the soft decoder returns the hard decoder's bits, ties included, for every word that some flushed path fits with fewer than 2^30 mismatches |
| SoftDecoder.SoftRefinesHardOnFewKnown | gr_autopilot/coding.py:54-125 | in particular for every word with fewer than 2^30 known positions |
| SoftDecoder.ConfidentRebuilt | gr_autopilot/coding.py:146-173 | turning bits into ratios commutes with rebuilding a punctured stream |
| SoftDecoder.Margin | gr_autopilot/coding.py:91-125 | any codeword that leaves the favoured one costs strictly more than minus the word's total magnitude |
| SoftDecoder.SoftFollowsSigns | gr_autopilot/coding.py:91-125 | if every transmitted ratio favours the bit that was sent the soft decoder returns the payload, however small or large the ratios and however long the word |
| SoftDecoder.SentinelIsTheBound | gr_autopilot/coding.py:98-110 | optimality holds for all words of reliability below a bound exactly when the bound is at most 1e18 |
| SoftDecoder.BreakingDecodes | gr_autopilot/coding.py:98-110 | a word just past the sentinel on which the decoder returns the worse of two payloads |
| Ties.FirstSourceWinsTies | gr_autopilot/coding.py:76-80 | of two equally cheap branches into a state the one from the lower-numbered state survives, the other only by being strictly cheaper |
| Ties.PrecedesOneWay | gr_autopilot/coding.py:73-80 | the order that breaks ties is strict: no two paths precede each other, and a path that precedes another differs from it |
| Ties.TraceIsFirst | gr_autopilot/coding.py:65-88 | the traceback from a state precedes every other path of the same cost into it: at the last input where they differ it has the 0 |
| Ties.DecodeIsFirst | gr_autopilot/coding.py:54-125 | for arbitrary branch weights the decoded path precedes, in that order, every other flushed path below the sentinel that costs as much |
| Ties.HardBitsIsFirstOfBest | gr_autopilot/coding.py:54-88 | the hard decoder exactly: a payload is returned if and only if it mismatches a decodable word in fewer known positions than any other payload, or in as many and precedes it |
| Ties.SoftBitsIsFirstOfBest | gr_autopilot/coding.py:91-125 | the soft decoder exactly, below the sentinel: least correlation, ties broken in the same order |
| Ties.ReceivedIsFirstOfBest | gr_autopilot/coding.py:186-192 | the same for the channel bits of either rate, when some payload fits them with fewer than 2^30 mismatches |
| Ties.ReceivedSoftIsFirstOfBest | gr_autopilot/coding.py:195-201 | the same for the channel ratios of either rate, below the sentinel |
| Coding.CodingEncode | gr_autopilot/coding.py:176-183 | dispatch on the code name, and the error for any other name |
| Coding.CodingDecode | gr_autopilot/coding.py:186-192 | dispatch of hard decoding, rebuilding n_info + 2 inputs first at rate 3/4 |
| Coding.CodingDecodeSoft | gr_autopilot/coding.py:195-201 | dispatch of soft decoding |
| Coding.HardLinkCorrects | gr_autopilot/coding.py:176-192 | decoding inverts encoding at either rate within half the free distance, counting flipped, erased and missing channel bits |
| Coding.ReceivedIsBest | gr_autopilot/coding.py:176-192 | maximum likelihood at either rate: if some payload fits the channel word with fewer than 2^30 mismatches none fits it better than the one decoded |
| Coding.RebuiltRatios | gr_autopilot/coding.py:161-173 | rebuilding a punctured stream of ratios changes neither its correlation with a payload nor its total magnitude |
| Coding.ReceivedSoftIsBest | gr_autopilot/coding.py:176-201 | soft optimality at either rate: with a total magnitude below 1e18 no payload's channel bits correlate less with the ratios than those of the payload decoded |
| Coding.SoftRefinesHardAtEitherRate | gr_autopilot/coding.py:186-201 | on fully confident ratios soft decoding returns what hard decoding does at either rate, wherever some flushed path fits the rebuilt word with fewer than 2^30 mismatches |
| Coding.SoftLinkFollowsSigns | gr_autopilot/coding.py:176-201 | soft decoding inverts encoding at either rate whenever every channel ratio favours the bit sent |
| Coding.TransmittedLength | gr_autopilot/coding.py:176-183 | the coded length has a closed form in the payload length for either rate |
| Coding.CodedLengthGrows | gr_autopilot/coding.py:204-206 | the coded length is strictly increasing |
| Coding.CodedBitCount | gr_autopilot/coding.py:204-206 | encoding n zero bits and counting gives that closed form |
| Coding.FirstGuessFits | gr_autopilot/coding.py:211-213 | once two bits fit, the initial guess already is the largest payload that fits, so the correction loop never runs |
| Coding.GuessIsNotShort | gr_autopilot/coding.py:211 | one bit more than the guess never fits, and a budget below the two-bit minimum guesses no more than two |
| Coding.InfoBitsForBudget | gr_autopilot/coding.py:209-214 | the loop returns the largest payload that fits when two bits fit and two bits otherwise |
| Coding.LargestFitIsMaximum | gr_autopilot/coding.py:209-214 | a payload fits the budget if and only if it is no longer than that largest one |
| Gray.CodeIsABijection | gr_autopilot/modulation.py:29-30 | n xor (n >> 1) permutes the k-bit numbers, with an explicit inverse, for every k |
| Gray.NeighboursDifferInOneBit | gr_autopilot/modulation.py:29-30 | consecutive levels have labels that differ in exactly one bit |
| Gray.CircleCloses | gr_autopilot/modulation.py:76-82 | the last label and the first differ in one bit too, so the labels run round the circle of M-PSK for every M |
| Gray.HammingSplits | gr_autopilot/modulation.py:44-52 | the bits in which two indices differ are those of their high halves and those of their low halves |
| Gray.BitsOfIndex | gr_autopilot/modulation.py:144-146 | spelling the index of a bit group, most significant first, gives the group back |
| Gray.FirstBitCountsMost | gr_autopilot/modulation.py:144-146 | the first bit of a group has the largest weight |
| Modulation.GrayPam | gr_autopilot/modulation.py:33-41 | the loop stores at every label the amplitude of the level that label encodes |
| Modulation.SquareQam | gr_autopilot/modulation.py:44-52 | the loops fill the table with the point of every index's two half labels |
| Modulation.QamPlace | gr_autopilot/modulation.py:29-52 | in row i and column j of the grid, in steps of 2 from -(m-1), stands the point whose label is the Gray code of i, on the I axis, in front of that of j |
| Modulation.GridNeighboursDifferInOneBit | gr_autopilot/modulation.py:44-52 | points of a square QAM that agree on one axis and are 2 apart on the other carry labels that differ in exactly one bit, at every size |
| Modulation.NearestIsFirstMinimum | gr_autopilot/modulation.py:157-158 | the decision is the first index of least distance |
| Modulation.DecisionInside | gr_autopilot/modulation.py:138-164 | on any table whose points are apart on the grid, less than half a grid step of noise on each axis leaves the nearest-point search at the transmitted index |
| Modulation.QamIsSeparated | gr_autopilot/modulation.py:44-52 | square QAM of every size is such a table |
| Modulation.SmallTablesAreSeparated | gr_autopilot/modulation.py:94-101 | so are the tables of BPSK and QPSK |
| Modulation.CrossIsSeparated | gr_autopilot/modulation.py:55-73 | so is the 32-QAM cross, whose points are 32 different ones |
| Modulation.CrossNeighbours | gr_autopilot/modulation.py:55-73 | nearest neighbours of the 32-QAM cross differ in one bit, except two pairs in every quadrant that differ in three |
| Modulation.PskNeighboursDifferInOneBit | gr_autopilot/modulation.py:94-101 | QPSK points that agree on one axis differ in one bit, as do the two of BPSK |
| Modulation.SoftBits | gr_autopilot/modulation.py:166-182 | the loops fill in, symbol by symbol and bit by bit, the difference of the least squared distances to points with a 1 and with a 0 there |
| Modulation.LlrNeverContradicts | gr_autopilot/modulation.py:149-182 | a positive ratio means the hard decision has a 0 there, a negative one a 1, for any table and any received point |
| Modulation.LlrInside | gr_autopilot/modulation.py:166-182 | on any such table every ratio of a symbol inside its cell strictly favours the bit that was sent |
| Prbs.Generate | gr_autopilot/scoring/payload.py:26-53 | the register loop, its masked non-zero seed and its two error cases |
| Prbs.ClockIsInjective | gr_autopilot/scoring/payload.py:48-52 | no two register states have the same successor |
| Prbs.RegisterNeverZero | gr_autopilot/scoring/payload.py:41-52 | from any seed the register stays in range and never locks up at zero |
| Prbs.RegisterHoldsTheFuture | gr_autopilot/scoring/payload.py:46-52 | register bit j is the payload bit m - 1 - j clocks later |
| Prbs.PayloadRecurrence | gr_autopilot/scoring/payload.py:14-53 | out[i+m] = out[i] xor out[i+m-t] for taps (m, t) |
| Prbs.WindowsAreNotZero | gr_autopilot/scoring/payload.py:41-53 | every window of m payload bits holds a one |
| Prbs.ShorterIsPrefix | gr_autopilot/scoring/payload.py:56-58 | a shorter payload is a prefix of a longer one with the same order and seed |
| PrbsPeriod.PayloadSpellsTheSeed | gr_autopilot/scoring/payload.py:40-48 | the first m payload bits spell the low m bits of the seed, most significant first, or those of 1 where they are zero |
| PrbsPeriod.SeedsTellPayloadsApart | gr_autopilot/scoring/payload.py:40-53 | two seeds in range give payloads that agree on the first m bits only if they are equal |
| LinearRecurrence.SquareSpreads | gr_autopilot/scoring/payload.py:14-23 | squaring a combination of future payload bits moves its places to twice the distance, so a known distance can be doubled |
| PowersOfX.PowersAhead | gr_autopilot/scoring/payload.py:14-23 | a power of x computed modulo the feedback polynomial by squaring and division in word operations tells the payload bit that many clocks ahead from the next m bits |
| PrbsPeriod.DoesNotReturn | gr_autopilot/scoring/payload.py:41-52 | where the n-th power is not 1 the register is not back at seed 1 after n clocks |
| PrbsPeriod.EveryRegister | gr_autopilot/scoring/payload.py:14-52 | for the six supported orders the register takes every value from 1 to 2^m - 1 within 2^m - 1 clocks |
| PrbsPeriod.RegisterPeriod | gr_autopilot/scoring/payload.py:26-52 | from any seed the register is back after p clocks if and only if p is a multiple of 2^m - 1 |
| PrbsPeriod.PayloadPeriod | gr_autopilot/scoring/payload.py:3-32 | the payload of any seed repeats p bits later if and only if p is a multiple of 2^m - 1 |
| PrbsPeriod.PayloadIsBalanced | gr_autopilot/scoring/payload.py:3-6 | the first 2^m - 1 payload bits of any seed hold 2^(m-1) ones, one more than zeros |
| CodedLink.SpellOfGroups | gr_autopilot/modulation.py:138-163 | grouping bits into symbol indices and spelling them out is the identity on whole symbols |
| CodedLink.PaddingCompletes | gr_autopilot/link/numpy_sim.py:40-42 | padding adds the fewest zero bits that complete the last symbol |
| CodedLink.SymbolsCarryTheBits | gr_autopilot/link/numpy_sim.py:31-49 | the symbols of a trial carry the payload without coding and the padded codeword with it, no more and no less |
| CodedLink.FlipsAreDisplaced | gr_autopilot/modulation.py:149-164 | with decisions that miss by one label bit, bit errors equal symbol errors |
| CodedLink.BurstCorrects | gr_autopilot/link/numpy_sim.py:37-70 | with fewer than half the free distance of symbols off by one label bit, truncating to the coded length and decoding returns the payload, whatever the padding |
| CodedLink.HardLinkDelivers | gr_autopilot/link/numpy_sim.py:23-83 | for any labelled table and channel, at most two such symbols (one at rate 3/4) leave the received info bits equal to the transmitted ones |
| CodedLink.SymbolBudgetKept | gr_autopilot/link/numpy_sim.py:31-44 | a coded trial takes no more symbols than an uncoded one, and one info bit more would not fit |
| CodedLink.LinkIsMaximumLikelihood | gr_autopilot/link/numpy_sim.py:65-70 | whatever the channel did, at either rate: if some payload fits the demodulated bits with fewer than 2^30 mismatches, no payload's codeword is closer to them than that of the payload received |
| CodedLink.QamHardLinkDelivers | gr_autopilot/link/numpy_sim.py:23-83 | on square QAM of every size: at most two symbols (one at rate 3/4) decided as a nearest neighbour of the point sent, the others as that point, and the link returns the transmitted info bits |
| CodedLink.PskHardLinkDelivers | gr_autopilot/link/numpy_sim.py:23-83 | the same on BPSK and QPSK, with at most two symbols (one at rate 3/4) decided as a neighbour |
| CodedLink.TablesAreOnGrid | gr_autopilot/modulation.py:88-120 | square QAM of every size, BPSK, QPSK and the 32-QAM cross are tables of 2^bits points apart on the grid, as the next three rows ask |
| CodedLink.QuietLinkDelivers | gr_autopilot/link/numpy_sim.py:51-72 | on every such table, noise of less than half a grid step per axis, whatever its shape, leaves a hard-decision link without a single bit error |
| CodedLink.QuietSoftLinkDelivers | gr_autopilot/link/numpy_sim.py:66-70 | on every such table, with soft decisions and less than half a grid step of noise per axis the link returns the transmitted info bits at either rate |
| CodedLink.NoiselessLinkDelivers | gr_autopilot/link/numpy_sim.py:23-83 | on every such table, without noise every coded trial is error-free, hard or soft, at every budget, payload order and seed |
| SoftLink.SoftLinkIsOptimal | gr_autopilot/link/numpy_sim.py:65-70 | whatever the table and the channel, at either rate: with ratios of total magnitude below 1e18 no payload's channel bits correlate less with them than those of the payload received |
| SoftLink.BpskIsAdditive | gr_autopilot/modulation.py:166-182 | on BPSK the ratios of a symbol add up, with the signs of its bits, to twice its squared distance from the received point, up to a constant of that point |
| SoftLink.QpskIsAdditive | gr_autopilot/modulation.py:166-182 | on QPSK as well |
| SoftLink.RatiosAreCoordinates | gr_autopilot/modulation.py:166-182 | on QPSK the two ratios are the received coordinates times 4, on BPSK the one ratio is the first coordinate times -4 |
| SoftLink.BurstCorrelation | gr_autopilot/modulation.py:166-182 | on such a table the correlation over a whole burst is twice its squared distance from what arrived, up to a constant |
| SoftLink.SoftLinkIsNearest | gr_autopilot/link/numpy_sim.py:51-72 | so a soft trial on BPSK or QPSK returns a payload whose burst, padding included, is nearest in squared distance to what arrived, at either rate and whatever the channel did |
| SoftLink.TrialIsAligned | gr_autopilot/link/numpy_sim.py:65-83 | every trial returns as many bits as it sent |
| CodedLink.UncodedLinkCounts | gr_autopilot/link/numpy_sim.py:46-49 | without coding the payload fills whole symbols and its bit errors are the symbols decided a label bit away |
| SchmidlCox.DifferenceIsWindow | gr_autopilot/link/sync.py:108-112 | a difference of the cumulative sum is the sum over the window between |
| SchmidlCox.MetricIsDirect | gr_autopilot/link/sync.py:95-114 | at every position the cumulative-sum arrays equal the windowed sums of the definition, and there are N - 2D + 1 positions |
| SchmidlCox.OffsetInsensitive | gr_autopilot/link/sync.py:95-114 | a frequency offset turns P by D samples' worth of phase and leaves its magnitude, R and M unchanged |
| SchmidlCox.PeakOnRepeatedHalves | gr_autopilot/link/sync.py:95-114 | on two halves equal up to a phase P is R turned by that phase, so the magnitudes agree and M is R^2 / (R^2 + 1e-12) |
| SchmidlCox.CauchySchwarz | gr_autopilot/link/sync.py:107-112 | the squared magnitude of P is at most the product of the two half-window energies |
| SchmidlCox.MetricBelowOne | gr_autopilot/link/sync.py:113 | with F and R the energies of the earlier and the later half, the squared magnitude of P is at most F R, so the metric stays below 1 wherever F R < R^2 + 1e-12, in particular where F <= R |
| SchmidlCox.ProportionalHalvesAttain | gr_autopilot/link/sync.py:107-113 | where the later half is the earlier one times any complex factor, the squared magnitude of P is F R and the metric is below 1 if and only if F R < R^2 + 1e-12 |
| SchmidlCox.MetricCanExceedOne | gr_autopilot/link/sync.py:110-113 | with a stronger earlier half M can exceed 1 |
| Psam.PsamLayout | gr_autopilot/link/sync.py:238-252 | the block loop builds the mask and total of the layout, and rejects a spacing below 1 |
| Psam.PilotsAtMultiples | gr_autopilot/link/sync.py:238-252 | pilots sit exactly at the multiples of spacing + 1, last short block included |
| Psam.LayoutGaps | gr_autopilot/link/sync.py:243-252 | the layout leaves room for exactly the data |
| Psam.PsamInsert | gr_autopilot/link/sync.py:255-262 | the masked assignments build the frame of the data for its own layout |
| Psam.PilotsAreInserted | gr_autopilot/link/sync.py:255-262 | every multiple of spacing + 1 of the inserted frame holds the pilot |
| Psam.DataOfFramed | gr_autopilot/link/sync.py:255-262 | reading a frame back through its mask returns the data it was built from |
| Psam.IntactVotesTheTurn | gr_autopilot/link/sync.py:308 | a pilot within 45 degrees of its reference votes for the number of quarter turns applied to it |
| Psam.WinnerIffWins | gr_autopilot/link/sync.py:309 | the first maximum of the counts is a given turn if and only if that turn has more votes than every smaller one and no fewer than any larger one |
| Psam.SlipRemovedIffItWins | gr_autopilot/link/sync.py:303-310 | with some non-zero data, the correction returns the data if and only if the applied turn has more votes than every smaller one and no fewer than any larger one |
| Psam.PluralityRemovesSlip | gr_autopilot/link/sync.py:285-310 | a frame turned by any quarter turns comes back as its data as long as more pilots vote for that turn than for any other one |
| Psam.MajorityRemovesSlip | gr_autopilot/link/sync.py:285-310 | a frame turned by any quarter turns comes back as its data as long as more pilots are intact than spoilt, whatever the spoilt ones read |
| Psam.InsertTurnCorrect | gr_autopilot/link/sync.py:238-310 | insertion, any number of quarter turns, pilots spoilt in any way as long as more are intact than agree on any one wrong reading, correction: the original data, even when most of the pilots are spoilt |
| Psam.FewChangedPilots | gr_autopilot/link/sync.py:238-310 | in particular with any pilot but zero and fewer than half of the inserted pilots changed into anything |
| Psam.TurnedFrameComesBack | gr_autopilot/link/sync.py:238-310 | for any data but none, any pilot but zero and any number of quarter turns: inserting, turning the frame as a whole and correcting gives the data back |
| Psam.NoPilotNoChange | gr_autopilot/link/sync.py:303-307 | without a pilot the samples come back as they are |
| Jammer.StepKeepsInv | gr_autopilot/hardware/jammer.py:86-296 | every step of an operator, a follower, a timeout, a death, a shutdown or the owner thread keeps the protocol invariant |
| Jammer.OwnerKeepsInv | gr_autopilot/hardware/jammer.py:86-98 | the owner thread's steps keep it, half-way through a start or a retune included |
| Jammer.TimeoutKeepsInv | gr_autopilot/hardware/jammer.py:100-108 | a caller that gives up waiting keeps it, though its command stays queued |
| Jammer.AlwaysSafe | gr_autopilot/hardware/jammer.py:86-296 | over every guarded interleaving, whenever nothing is queued at most one transmitter runs, and it is the one the instrument holds |
| Jammer.DisabledNeverTransmits | gr_autopilot/hardware/jammer.py:139-142 | an instrument that is not enabled never builds an interferer, over all runs without exception |
| Jammer.OwnerMakesProgress | gr_autopilot/hardware/jammer.py:86-98 | every owner step uses up queued work |
| Jammer.RestartWins | gr_autopilot/hardware/interferer.py:229-241 | a queued retune that no close cancels brings its transmitter back |
| Jammer.ArmingOverRestart | gr_autopilot/hardware/jammer.py:148-149 | from every such state, arming over a dead transmitter whose restart is queued ends with two live transmitters |
| Jammer.QuietMeansNoRestart | gr_autopilot/hardware/jammer.py:250-258 | for the held transmitter the guard says just that no command that starts it is queued |
| Jammer.ArmingIsSafeIff | gr_autopilot/hardware/jammer.py:143-151 | arming over a dead transmitter is safe for all guarded continuations if and only if no restart of it is queued |
| Jammer.UnguardedStateIsReachable | gr_autopilot/hardware/jammer.py:241-261 | a timed-out retune and a process death reach such a state from the start |
| Jammer.TwoTransmitters | gr_autopilot/hardware/jammer.py:139-151 | one run from a fresh instrument ends idle with two live transmitters, only one of which is held |
| JammerService.ArmingTransmits | gr_autopilot/hardware/jammer.py:189-209 | arming an instrument at rest ends with one more interferer, held and transmitting with the parameters of the command |
| JammerService.ChangeReachesTheAir | gr_autopilot/hardware/jammer.py:143-151 | a change of parameters on an armed jammer ends with the old transmitter closed and a new one transmitting with the new parameters |
| JammerService.SameAgainIsIgnored | gr_autopilot/hardware/jammer.py:143-151 | the same parameters again leave a transmitting jammer alone |
| JammerService.FollowerArrives | gr_autopilot/hardware/jammer.py:241-261 | a follower's retune ends with the held interferer transmitting on the new frequency and the parameters updated |
| JammerService.RetuneInPlaceIsNothing | gr_autopilot/hardware/interferer.py:229-234 | a retune to where the transmitter already is leaves it alone |
| JammerService.DisarmSilences | gr_autopilot/hardware/jammer.py:211-216 | after a disarm and until the next arming nothing is held, and nothing transmits once the owner thread has nothing left to do |
| JammerService.DeathIsReported | gr_autopilot/hardware/jammer.py:265-275 | over all runs, whenever a transmitter is held that does not transmit the condition for the status error holds |
| JammerService.DisarmIsNotReported | gr_autopilot/hardware/jammer.py:265-275 | from a disarm until the next arming that condition never holds |
| JammerService.DeadStartIsNotHeld | gr_autopilot/hardware/jammer.py:189-209 | a process that exits while it settles fails the arming: nothing is held, nothing transmits, and the status error holds |
| JammerService.GivingUpStartsNothing | gr_autopilot/hardware/jammer.py:100-118 | a caller that gives up queues at most the close of what it was starting |
| JammerShutdown.RetiredIsSilent | gr_autopilot/hardware/jammer.py:25-31 | where the kernel signals the death of the starting thread nothing transmits once the owner thread has returned, over all runs without exception |
| JammerShutdown.StepKeepsClosing | gr_autopilot/hardware/jammer.py:86-98 | once the None is queued behind commands that leave nothing running, no step of anyone, late arming commands included, lets a transmitter survive it |
| JammerShutdown.ShutdownLeavesNothing | gr_autopilot/hardware/jammer.py:287-296 | after a shutdown, unless an arming takes effect before its None is queued, nothing transmits once the owner thread has returned or its queue is empty |
| JammerShutdown.EarlyArmingSurvives | gr_autopilot/hardware/jammer.py:287-296 | from every state between a shutdown and its None, an arming ends, without the death signal, with a transmitter running and the owner thread gone |
| JammerShutdown.LateArmingIsSafeIff | gr_autopilot/hardware/jammer.py:287-296 | once a shutdown has released the lock, an arming is harmless for all continuations if and only if the None is already queued |
| JammerShutdown.ShutdownCanLoseTheRace | gr_autopilot/hardware/jammer.py:287-296 | a fresh instrument, shut down and then armed, ends with a transmitter that outlives the owner thread |
| JammerShutdown.OrphanOutlivesShutdown | gr_autopilot/hardware/jammer.py:139-296 | the transmitter orphaned by a queued restart runs on through a later shutdown, and past the owner thread exactly where there is no death signal |
| ArmsRace.AdaptiveJammer.Escalate | gr_autopilot/control/arms_race.py:51-73 | when the jammer escalates, to what reaction time and level, and that a concession changes nothing |
| ArmsRace.RunArmsRace | gr_autopilot/control/arms_race.py:85-122 | the round loop with its three exits returns the race's winner, rounds, ladder and the hop rate it was won with, and leaves the jammer in the final stance |
| ArmsRace.Decided | gr_autopilot/control/arms_race.py:104-116 | a decided race stays decided, whatever the round limit |
| ArmsRace.WinnerIsTheLastRow | gr_autopilot/control/arms_race.py:85-122 | after any number of rounds the ladder lists the agent's outcomes with the stances the escalations left; the jammer has won if and only if the last row is lost, the agent if and only if it is won and not answered, at that row's hop rate and against a jammer that cannot escalate; all rows before are won and answered |
| ArmsRace.FixedAlwaysAnswers | gr_autopilot/control/arms_race.py:51-60 | a fixed jammer always escalates, to a follower with its starting reaction time |
| ArmsRace.EscalationCatchesTheHop | gr_autopilot/control/arms_race.py:61-71 | a follower that escalates then reacts within nine tenths of a dwell, or at its floor |
| ArmsRace.ConcededStance | gr_autopilot/control/arms_race.py:61-71 | a jammer that concedes is a follower; with a reaction time above two nanoseconds against a hopping link it is within a nanosecond of its floor or of nine tenths of a dwell |
| ArmsRace.FewerDirect | gr_autopilot/control/arms_race.py:64-67 | each hop rate sets the reaction time directly at most once |
| ArmsRace.EscalationUsesUp | gr_autopilot/control/arms_race.py:61-71 | every escalation of a follower lowers its reaction time, respects the floor, and uses up one halving or one hop rate |
| ArmsRace.RaceSoFar | gr_autopilot/control/arms_race.py:85-122 | after any number of rounds the escalations made and the ones still possible total at most the number of rates + k + 1 |
| ArmsRace.RaceTerminates | gr_autopilot/control/arms_race.py:85-122 | against finitely many hop rates and a start of at most 2^k floors there are at most that many escalations, and one more round decides the race |
| Flowgraph.ValidateChain | gr_autopilot/flowgraph/builder.py:27-46 | the walk reports no error if and only if the chain is non-empty, every skill is known and placeable, and the port types join up from end to end |
| Flowgraph.ValidateSpec | gr_autopilot/flowgraph/builder.py:49-83 | no error if and only if both chains type-check, their first modulator and last demodulator match the declared modulation and the pulse parameters are in range |
| Flowgraph.EndsOfChains | gr_autopilot/flowgraph/skills_registry.py:40-80 | a well-typed transmit chain opens with the modulator that is checked, a receive chain closes with the demodulator that is checked |
| Flowgraph.ModOnlyFirst | gr_autopilot/flowgraph/builder.py:27-46 | without demodulators a modulator can only stand first in a chain fed with bits |
| ChainRates.BuildChain | gr_autopilot/link/gr_spec.py:94-103 | the loop builds the blocks and the rate of the chain, or stops at the first rejected skill |
| ChainRates.DecimationRate | gr_autopilot/flowgraph/gr_blocks.py:78-89 | the matched filter keeps at least two samples per symbol of a stream that has two and passes a slower one through |
| ChainRates.DecimatesToTwoIff | gr_autopilot/flowgraph/gr_blocks.py:78-89 | of a stream of two or more the matched filter leaves fewer than four samples per symbol, and exactly two if and only if half the rate is whole; three pass through |
| ChainRates.FilterDelayIsWhole | gr_autopilot/flowgraph/gr_blocks.py:52-55 | with an even number of taps a symbol the shaping filter has as many taps before its middle one as after it, a whole number of samples |
| ChainRates.SyncRate | gr_autopilot/flowgraph/gr_blocks.py:92-109 | timing recovery takes a stream of two or more samples per symbol to one and halves a slower one |
| ChainRates.OnlySyncReachesOne | gr_autopilot/link/gr_spec.py:94-103 | a chain without timing recovery fed with two or more samples per symbol never falls below two |
| ChainRates.ReceiveChain | gr_autopilot/link/gr_spec.py:94-103 | the closing rate of a receive chain in the number of its timing recoveries |
| ChainRates.SynchronizedIff | gr_autopilot/link/gr_spec.py:195-202 | a link shaped once at the transmitter is synchronized if and only if it recovers timing exactly once, or never at one sample per symbol |
| ChainRates.CanonicalSynchronizes | gr_autopilot/flowgraph/spec.py:47-63 | the canonical link builds and is synchronized if and only if it has two or more samples per symbol |
| ChainRates.CanonicalIsValidIff | gr_autopilot/flowgraph/builder.py:74-83 | the canonical specification is valid exactly for 1 to 16 samples per symbol and an excess bandwidth from 0 to 1, and with the defaults |
| Companion.FlowIdIsNormal | gr_autopilot/flowgraph/grc_export.py:218-224 | an exported identifier is non-empty and exports to itself |
| Companion.FlowIdKeepsIdentifiers | gr_autopilot/flowgraph/grc_export.py:218-224 | an identifier that starts with a letter and is alphanumeric stays as it is; any other keeps its alphanumeric characters in place, the rest become underscores, behind a prefix or none |
| Companion.Round6IsNormal | gr_autopilot/flowgraph/grc_export.py:100 | the six-decimal loop bandwidth is a fixed point of the rounding |
| Companion.Round6IsNear | gr_autopilot/flowgraph/grc_export.py:100 | the rounded bandwidth is a whole number of millionths and within half a millionth |
| GrcExport.EmitChain | gr_autopilot/flowgraph/grc_export.py:151-160 | the drawing loop appends one node and one wire a skill, skips demodulators, tracks the rate, and fails where a skill has no block |
| GrcExport.BuildGrc | gr_autopilot/flowgraph/grc_export.py:120-246 | the blocks and connections of the whole document, with and without a carrier offset |
| GrcExport.ExportIsFaithful | gr_autopilot/flowgraph/grc_export.py:74-117 | whatever chain the executor accepts is drawn block for block, with the executor's own decimation, interpolation and timing rate at each position and the same rate at the end |
| GrcExport.RunsIffDrawn | gr_autopilot/flowgraph/grc_export.py:8-12 | a chain runs if and only if it is drawn and has neither a Costas loop over a constellation without one nor an unregistered modulator's name |
| GrcExport.CostasOverQamIsOnlyDrawn | gr_autopilot/flowgraph/grc_export.py:105-108 | a Costas loop over 16-QAM is drawn, with order 4, and does not run |
| GrcExport.CostasOrderIsPoints | gr_autopilot/flowgraph/gr_blocks.py:112-121 | the loop's order is the number of points of BPSK, QPSK and 8-PSK, and no other constellation has one |
| GrcExport.OffsetIsDrawn | gr_autopilot/flowgraph/grc_export.py:163-200 | a carrier offset is drawn as a rotator wired into the channel, with variables for the offset and the sample rate; the noise enters the channel's second input |
| GrcImport.OrderedChain | gr_autopilot/flowgraph/grc_import.py:91-114 | the walk follows the first wire out of every block from the source, noise wires excepted, and stops at a repetition |
| GrcImport.WalkIsAPath | gr_autopilot/flowgraph/grc_import.py:109-114 | the walk starts where it is told, goes along the wires, meets no block twice and ends only where the wiring does or returns to a block it has met |
| GrcImport.FirstWireLeads | gr_autopilot/flowgraph/grc_import.py:91-101 | of several wires out of a block the first in document order is followed |
| GrcImport.FirstStartIsFirst | gr_autopilot/flowgraph/grc_import.py:102-108 | the start is the first block in document order that nothing feeds, a payload source if one is asked for |
| GrcImport.LoadGrc | gr_autopilot/flowgraph/grc_import.py:130-212 | the reading loop over the ordered blocks, its refusals, and the specification it assembles |
| GrcImport.EditsAreRead | gr_autopilot/flowgraph/grc_import.py:160-189 | an edited interpolation overrides the taps, the first excess bandwidth read stands against the matched filter's, and the loop bandwidth is taken as written |
| GrcImport.InstrumentsAreIgnored | gr_autopilot/flowgraph/grc_import.py:142-160 | sources, sinks, noise, rotator, variables and throttles on the path change nothing that is read |
| GrcImport.ForeignBlockRefuses | gr_autopilot/flowgraph/grc_import.py:142-189 | one unknown block on the path, or a mapper of no known size, refuses the document |
| GrcImport.NoMapperIsRefused | gr_autopilot/flowgraph/grc_import.py:190-196 | a document without a constellation mapper is refused |
| GrcImport.TruncTowardsZero | gr_autopilot/flowgraph/grc_import.py:84-88 | numbers are cut towards zero |
| GrcImport.ImportsAreShaped | gr_autopilot/flowgraph/grc_import.py:134-200 | whatever the document, an imported specification has exactly one demodulator, last in the receive chain and of its modulation |
| GrcRoundTrip.ChainReadsBack | gr_autopilot/flowgraph/grc_import.py:142-189 | a drawn chain reads back skill by skill, at any position and rate |
| GrcRoundTrip.WalkFollows | gr_autopilot/flowgraph/grc_import.py:109-114 | along wires that lead down a path of distinct names the walk returns the path |
| GrcRoundTrip.ImportReadsThePath | gr_autopilot/flowgraph/grc_import.py:91-212 | importing a drawn document reads its signal path from source to sink, noise branch and variables left aside |
| GrcRoundTrip.TripIsNormal | gr_autopilot/flowgraph/grc_export.py:74-246 | export then import of a valid drawable specification returns its normal form: modulation and both chains kept, carried settings kept, the others at their defaults |
| GrcRoundTrip.SettingsSurviveIff | gr_autopilot/flowgraph/grc_import.py:171-210 | samples per symbol and excess bandwidth each survive if and only if a drawn block carries them or they are the default, and a loop bandwidth comes back, with six decimals, if and only if there is a synchronizer |
| GrcRoundTrip.NormalIsValid | gr_autopilot/flowgraph/builder.py:49-83 | the normal form of a valid drawable specification is valid and drawable |
| GrcRoundTrip.TripIsIdempotent | gr_autopilot/flowgraph/grc_export.py:130-136 | a second export and import changes nothing |
| GrcRoundTrip.ChainsSurviveIffShaped | gr_autopilot/flowgraph/grc_import.py:196-200 | both chains of a valid specification survive if and only if its only demodulator is the last receive stage |
| GrcRoundTrip.MiddleDemodulatorIsLost | gr_autopilot/flowgraph/builder.py:49-83 | a specification with a demodulator in the middle of its receive chain that is valid and whose chains do not survive |
| HopAllocation.Allocate | gr_autopilot/link/interference_sim.py:130-133 | the rounded shares with the remainder on the first largest weight sum to the payload |
| HopAllocation.EqualAllocation | gr_autopilot/link/interference_sim.py:127-133 | for k equal dwells every dwell but the first gets the rounded share and the first the rest |
| HopAllocation.DwellsConserveBits | gr_autopilot/link/interference_sim.py:126-141 | without coding, over equal dwells: the graded bits exceed the request if and only if the whole symbols of the dwells after the first already do, and with a non-negative first share they fall short by less than a symbol a dwell; at least k(k-1)/2 bits suffice for that |
| HopAllocation.NegativeShareOvercounts | gr_autopilot/link/interference_sim.py:126-137 | 3 bits over 5 dwells are shared as -1, 1, 1, 1, 1 and grade 4 |
| HopAllocation.RunHopped | gr_autopilot/link/interference_sim.py:130-149 | the dwell loop skips dwells without bits, grades the others on their own channel and seed and concatenates them; it succeeds if and only if there are bits to share and the coding is known |
| HopAllocation.HoppedBitsCounted | gr_autopilot/link/interference_sim.py:134-143 | the concatenated bits number what the books count: whole symbols without coding, the info bits of the dwell's budget with it |
| HopAllocation.HoppedIsTheTrials | gr_autopilot/link/interference_sim.py:134-145 | cutting the transmitted and the received aggregate at the dwells gives back the bits of every dwell's own trial: its allotment, its channel, the seed moved on by its number |
| HopAllocation.HoppedErrorsAddUp | gr_autopilot/link/interference_sim.py:134-145 | the two aggregates are equally long and their bit errors are the sum of the dwells' own |
| HopAllocation.CodedDwellsOvergradeIff | gr_autopilot/link/numpy_sim.py:37-45 | with coding the total is the first dwell's payload and k - 1 times that of the others, and it exceeds the request if and only if the request is a single bit or, for k of at least 2, is above k/2 and at the same time below 3k/2, below 2k - 2 or equal to 2k - 1; at either rate and any symbol width |
| HopAllocation.OneBitDwellsOvercount | gr_autopilot/link/numpy_sim.py:37-45 | 5 coded bits over 5 dwells are shared one each and grade 10, at either rate and any symbol width |
| HopAllocation.SmallShares | gr_autopilot/link/interference_sim.py:127-132 | where rounding gives k equal dwells a share of 0, 1 or 2 bits |
| HopAllocation.FollowerSharesAreSound | gr_autopilot/link/interference_sim.py:120-133 | a follower's jammed and clean shares are never negative and total the payload |
| HopAllocation.FollowerOvergradesIff | gr_autopilot/link/interference_sim.py:120-133 | a follower's two coded dwells exceed the request if and only if one of them is a single bit and the other has at most two |
| HoppingBackend.DwellFitsItsAirTime | gr_autopilot/link/hopping_backend.py:98-113 | above the acquisition floor a dwell carries no more than its share and no more than its air time holds |
| HoppingBackend.DwellUsesItsAirTime | gr_autopilot/link/hopping_backend.py:98-113 | and it is the most that fits: whatever is no more than the share and fits the air time is no more than the dwell |
| HoppingBackend.DwellWithoutRate | gr_autopilot/link/hopping_backend.py:98-113 | without a sample rate the dwell is the larger of the share and the floor |
| HoppingBackend.Backend.SetCondition | gr_autopilot/link/hopping_backend.py:82-92 | the plan is kept here, a tuning is recorded and passed on, and the live channel follows it only outside a plan |
| HoppingBackend.Backend.RunLink | gr_autopilot/link/hopping_backend.py:115-163 | one capture per channel, in order, concatenated with its counts; the starting channel is restored when known and otherwise the last hop stays; without a plan the inner trial unchanged |
| HoppingBackend.DwellIsItsCapture | gr_autopilot/link/hopping_backend.py:129-151 | dwell i is the capture on channel i with the seed moved on by i |
| HoppingBackend.CountsPartition | gr_autopilot/link/hopping_backend.py:142-161 | cutting the aggregate at the recorded counts gives back every dwell's own bits, however short each capture fell |
| HoppingBackend.ErrorsAddUp | gr_autopilot/link/hopping_backend.py:152-156 | the errors of the aggregate are the sum of the dwells' errors |

## Left out

- ErrorCorrection.HardIsMaximumLikelihood: needs some payload to fit with fewer than 2^30 mismatches, which HardSentinel shows to be the exact limit; beyond it the output is described only for the words of that proof.
- Puncturing.ThreeQuarterRadiusIsSharp: shows one word with three losses that fails, not that every payload has one.
- Jammer.AlwaysSafe: closing an interferer is taken to succeed, and whether the instrument is armed is read once per command.
- JammerShutdown.ShutdownLeavesNothing: starts with no `None` of an earlier shutdown still queued; with one, JammerShutdown.StepKeepsClosing applies instead.
- ArmsRace.RunArmsRace: the floor rate in the result is a constant of the jammer and left out, and so are the texts of the ladder.
- CodedLink.QamHardLinkDelivers: on the 32-QAM cross, where not all neighbours are a bit apart, CodedLink.HardLinkDelivers applies under its condition on labels.
- GrcExport.BuildGrc: canvas coordinates, comments, option texts and the parameters that are the same in every document; and aliases of modulation names such as qam16, which the source draws although validation refuses them.
- GrcImport.LoadGrc: the warnings, the record of overridden settings and the file hash.
- The 8-PSK table: its points are irrational; of its labels Gray.CircleCloses says what is needed.
- Jammer.StepKeepsInv: the instrument is a state machine over values rather than a class, because lock holders, follower threads, the owner thread and processes interleave inside its methods; follower threads are retunes at arbitrary moments, their start and join are not modelled, and neither are parameter validation and `status`.
- GrcRoundTrip.TripIsNormal: starts from the document tree with exact numbers; YAML, regular expressions and number printing are left out, the six-decimal rounding of the loop bandwidth is not, and block names are a stem and a number. The coding field is not drawn and does not come back.
- SchmidlCox.MetricIsDirect: over exact reals; the rounding of cumulative sums is not modelled.
- Psam.MajorityRemovesSlip: the vote rounds an angle exactly, by comparing real and imaginary parts; at exactly 45 degrees the source's choice depends on floating point.
- HoppingBackend.Backend.RunLink: the inner backend is a function of its tuning, the bit count and the seed; symbol lists, timing and the per-dwell callback are left out.
- Floating-point rounding everywhere, random number generation, the conversion of Es/N0 to noise, and the error for a missing Es/N0.
- Unit-energy normalisation of constellations.
- Negative payload sizes and argument types other than the documented ones.
- The texts of error messages, of escalation descriptions and of block comments.
- `pluto.py`, `acquire`, `dd_carrier`, `rrc_taps`, `psam_derotate`, `band.py`, `bo.py` and `perception/`: numeric signal processing without an exact discrete claim.
- `daemon.py`, `telemetry/`, `dashboard/`, `wiki.py`, `logsetup.py`, `scripts/`, GNU Radio and HackRF internals: servers, interfaces and drivers.
- `claim.py`, `topology.py`, `objective.py`, `avoidance.py`, `ledger/`, `skill_author.py`, `power.py`: guards, lookups and storage.
