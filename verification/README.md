# Verified model of the protection chain

Two distance relays and a series-compensation relay run on single-board computers: windows
of samples are read from a file, transformed to phasors, turned into loop impedances, held
against two zones, and a trip is latched and sent from relay A to relay B as GOOSE messages.
This project models that chain in Dafny and proves what it computes.

## How the model reads the code

- `double` is `real` and `double complex` is a pair of reals; rounding is set aside.
- `cexp(-2*PI*I*k/N)` is a power of a root of unity. The transform uses of it only that
  w^(N/2) = -1; that it lies on the unit circle is then proved (`Spectrum.RootOnUnitCircle`).
  A sub-call with stride s uses the power s of the top-level root.
- In the distance chain a phasor is kept in rectangular form: the polar pair of phasor.c and
  `fasor_to_complex` undo each other, and `cabs` values are compared through their squares.
  In the series-compensation relay, where the phase itself is used, `cexp`, `carg` and `cabs`
  are functions passed as parameters. Nothing is assumed of them except in `LineVoltages`,
  which states the facts it uses (`LineVoltages.IsTrigonometric`).
- A quotient with a zero divisor is "no impedance" and is picked up by no zone. In C it is
  infinite or not a number and fails every zone test.
- `atof` reads the decimal numbers of C: white space, sign, digits, point, exponent.
- A file is the sequence of lines `fgets` returns; a file that cannot be opened is a case of
  its own.
- Threads are steps of a state machine that interleave freely; sleeps are model time in a
  second machine whose runs are proved to be runs of the first.
- `printf` messages of the relays are kept as a list of reports.

## Modules

Every file holds the module of its name. `ComplexNumbers` is the ring of complex numbers and
`Magnitudes` the triangle inequality; `FourierTransform` the transform and the defining sum;
`Spectrum` laws of the spectrum; `PhasorExtraction` the strongest bin and `NearTones` what
becomes of it when samples are slightly off; `QuadrilateralZone` the zone test;
`DistanceRelay` impedances, classification and the relay loop; `DistanceProperties` what they
achieve, `ZoneReach` what the numbers of the relay amount to, and `DistanceTolerance` what they still achieve on phasors that are slightly off;
`DecimalText` numbers as text; `WindowedReader` and `ReaderProperties` the reader of the data
file; `SampleFile` the script that writes that file; `Acquisition` the chain from samples to
decision and the loop of a relay; `FileToTrip` the whole way from a table of signals through
the printed file to decision and latch, and `FaultRecord` tables that go that way;
`Teleprotection`, `TransferTiming` and `TimeDivergence` the transfer trip, `TurnPace` how fast
its threads go round and `TripTiming` when the relays trip; `SeriesCompensation` the relay of
the capacitor bank and `LineVoltages` what its line messages say about the voltages.

## Where the code differs from what one would expect

- A constant offset of at least half the amplitude of the tone of a window is returned in its
  place, and doubled (`PhasorExtraction.TonePhasor` gives the exact condition,
  `OffsetHidesTone` an example).
- Zone 1 is not contained in zone 2: the rounded vertex p2 of zone 2 leaves p2 of zone 1
  outside. `Zone1AlmostWithinZone2` gives the one edge, the margin and the exact condition.
- An angle of exactly 180 degrees has no direction, but is reported as "behind" whichever way
  round the voltages are; `SideExchange` and `MessagesExchange` say exactly when that shows.
- What the reader holds is not what was sampled but what six printed decimals leave of it. A
  fault within `FileToTrip.Band` of an end of a zone, a distance computed from that error and
  the currents of the fault, may be decided either way; outside the band `FileToDecision` and
  `FileToLatch` are certain.
- At the end of the data file the reader succeeds for ever with the last window.
- phasor.h and the comments call phases degrees; the code uses radians, and so does the model.

## Model

| member | source | states |
|---|---|---|
| FourierTransform.FftRadix2 | Algoritmos/fft.c:25-44 | for every power of two N, stride and offset the in-place recursion leaves the N bins of the defining sum over the strided samples in its own part of X, writes nothing else, and terminates |
| FourierTransform.Combine | Algoritmos/fft.c:39-43 | the butterfly loop turns the bins of the even and of the odd samples into the bins of all samples, in place |
| FourierTransform.Fft | Algoritmos/fft.c:46-48 | the whole window: bin k of the output is the k-th defining sum |
| FourierTransform.FftSlow | Algoritmos/fft.c:14-23 | the direct transform adds bin k to what X[k] held; from zeros it leaves the same bins as the fast one |
| FourierTransform.Butterfly | Algoritmos/fft.c:36-43 | decimation in time: bins k and k+N/2 from the bins of the halves, for the defining sums themselves |
| FourierTransform.StridedSplits | Algoritmos/fft.c:36-37 | the two recursive calls read exactly the even and the odd samples of their caller |
| FourierTransform.DftSumIsEval | Algoritmos/fft.c:19-21 | the running sum of the direct transform is the value of a polynomial at a power of the root |
| Spectrum.RootsSumToZero | Algoritmos/fft.c:18-22 | orthogonality: the powers of a nontrivial power of the root sum to zero, for every power of two |
| Spectrum.ConjugateSymmetry | Algoritmos/fft.c:14-23 | a real window gives X[N-k] = conj(X[k]) |
| Spectrum.ShiftTheorem | Algoritmos/fft.c:14-23 | rotating a window by m turns bin k by w^(km) |
| Spectrum.Parseval | Algoritmos/fft.c:25-44 | the squared bins sum to N times the squared samples |
| Spectrum.ToneSpectrum | Algoritmos/fft.c:14-23 | a tone on an offset gives N times its half amplitude in its bin, N times the offset in bin 0, and exactly nothing in any other bin below N/2 |
| PhasorExtraction.ComputePhasor | Algoritmos/phasor.c:11-32 | the loop selects the first strongest bin of the lower half and returns it times 2/N |
| PhasorExtraction.PeakDominatesSpectrum | Algoritmos/phasor.c:18-26 | the selected bin is at least as strong as every bin except N/2, strictly stronger than earlier ones |
| PhasorExtraction.PhasorEnergyBound | Algoritmos/phasor.c:18-31 | N times the squared phasor is at most twice the energy of the window, four times for bin 0 |
| PhasorExtraction.TonePhasor | Algoritmos/phasor.c:17-31 | a tone of amplitude 2c on an offset a is returned as exactly 2c from its own bin if c is greater than a in magnitude, and otherwise 2a is returned from bin 0 |
| PhasorExtraction.OffsetHidesTone | Algoritmos/phasor.c:17-31 | in windows of every length from four samples up, 32 included, a tone of amplitude 6 on an offset of 4 is returned as 8 |
| PhasorExtraction.PhasorOfRotated | Algoritmos/phasor.c:11-32 | a rotated window selects the same bin and turns the phasor by a power of the root |
| NearTones.BinMoves | Algoritmos/fft.c:14-23 | when no sample is off by more than eps, no bin is off by more than N times eps |
| NearTones.NearToneIsMeasured | Algoritmos/phasor.c:11-32 | a window near a tone gives a phasor within 2 eps of its amplitude when half of that exceeds the offset by more than 2 eps, and within 6 eps of it without offset, however weak the tone |
| QuadrilateralZone.InsideIsHull | Algoritmos/Distancia21_A.c:80-88 | for every strictly convex quadrilateral the test accepts exactly the convex combinations of the vertices |
| QuadrilateralZone.ReversalInvariance | Algoritmos/Distancia21_A.c:80-88 | the test does not depend on the direction or the start of the vertex list |
| QuadrilateralZone.ProductsSumToArea | Algoritmos/Distancia21_A.c:81-84 | the four products add up to twice the signed area, wherever the impedance is |
| QuadrilateralZone.OneDisjunctIsUnreachable | Algoritmos/Distancia21_A.c:86-87 | inside a shape with area, all four products have the sign of the area |
| DistanceRelay.Relay.Cycle | Algoritmos/Distancia21_A.c:195-313 | one turn of a relay's loop: among the messages added, one of fault and zone stands if and only if that zone decides for that fault, and the remote trip if and only if it was received, each once, the remote trip first and zone 2 last; the latch; 200 ms for zone 2 and 1000/60 ms slept |
| DistanceRelay.Relay.Trip | Algoritmos/Distancia21_A.c:62-67 | a report is appended and the latch set |
| DistanceProperties.DistanceIsExact | Algoritmos/Distancia21_A.c:203-219 | for a bolted fault at distance d on a line whose impedances are to each other as 0.318744239164 and 1.06955250923, the loop impedance is exactly d times the line impedance, whatever load and source do, for all six loops |
| DistanceProperties.ReachIsExact | Algoritmos/Distancia21_A.c:169-192 | such a fault is picked up by a zone if and only if it lies between the relay and the top edge of the zone |
| DistanceProperties.PickupOfSignals | Algoritmos/Distancia21_A.c:203-241 | a loop is picked up if and only if it carries current and some impedance in the convex hull of the zone's vertices turns its current into its voltage |
| DistanceProperties.FaultIsNamed | Algoritmos/Distancia21_A.c:236-303 | a fault of any of the ten types, whose loops are bolted at d while the signals of every other loop are those of no impedance in the zone, is named by a zone if and only if it is within reach; otherwise nothing is |
| DistanceProperties.FarLoopIsQuiet | Algoritmos/Distancia21_A.c:169-241 | a loop without current, or with a squared voltage above 10857 times its squared current, is picked up by neither zone |
| DistanceProperties.FaultAmongFarLoops | Algoritmos/Distancia21_A.c:236-303 | such loops are all that a fault needs beside its own to be one in the eyes of both zones |
| ZoneReach.ImpedanceFormulas | Algoritmos/Distancia21_A.c:203-219 | each of the six impedances is the one number that times its current is its voltage, written out in the six phasors and the numbers of the line |
| ZoneReach.EarthPickup | Algoritmos/Distancia21_A.c:169-187 | an earth loop is picked up by each zone if and only if its impedance is a convex combination of the four corners listed for earth |
| ZoneReach.PhasePickup | Algoritmos/Distancia21_A.c:176-192 | a loop between phases is picked up if and only if its impedance is a convex combination of the four corners listed for phases |
| ZoneReach.ResistancePickup | Algoritmos/Distancia21_A.c:169-192 | a purely resistive impedance is picked up exactly from zero to where the edge from p3 to p4 crosses the axis |
| ZoneReach.ResistiveReaches | Algoritmos/Distancia21_A.c:169-192 | that is at 67.2 ohms for earth loops and 44.8 for loops between phases |
| ZoneReach.FaultThroughIsNamed | Algoritmos/Distancia21_A.c:236-303 | a fault of any of the ten types whose loops measure an impedance, through whatever resistance, is named if and only if that lies in the shape for earth, for a single phase, or in the shape for phases, for all others; otherwise nothing is |
| ZoneReach.CloseFaultIsNamed | Algoritmos/Distancia21_A.c:236-303 | next to the relay a single phase to earth is named up to 67.2 ohms of resistance and any other fault up to 44.8 |
| ZoneReach.ReportsOfFault | Algoritmos/Distancia21_A.c:236-303 | a bolted fault is reported by zone 1 and then zone 2 up to 50.72 ohms of reactance, by zone 2 alone up to 76.08, and not at all beyond or behind |
| DistanceTolerance.MeasuredOffBy | Algoritmos/Distancia21_A.c:203-219 | when voltages are off by eV and currents by eI, the impedance of a loop with more than iMin of current exists and is off by at most a stated number of ohms |
| DistanceTolerance.FaultIsStillNamed | Algoritmos/Distancia21_A.c:236-303 | on phasors that are off, a fault of any of the ten types is named if it lies in the zone by three times that error, and nothing is if it lies outside by as much |
| DistanceTolerance.HealthyIsSilent | Algoritmos/Distancia21_A.c:236-303 | on phasors that are off, signals whose loops are all apart from the zone by more than the errors decide nothing |
| DistanceProperties.BalancedFault | Algoritmos/Distancia21_A.c:203-219 | voltages that are the drop of three different currents without residual are those of a three-phase fault |
| DistanceProperties.ImpedanceOfTurned | Algoritmos/Distancia21_A.c:212-219 | a common complex factor of all phasors changes no loop impedance, defined or not |
| DistanceProperties.ClassifyNamesLoops | Algoritmos/Distancia21_A.c:243-263 | the chain names a fault if and only if the loops picked up are those the fault type involves |
| DistanceProperties.DecisionMeaning | Algoritmos/Distancia21_A.c:236-263 | the same for the decision of a zone on phasors, over all phase pairs in either order |
| DistanceProperties.DecisionOfRelabelled | Algoritmos/Distancia21_A.c:203-303 | permuting the phases of all signals permutes the phases of the decision, or leaves none, and changes no trip, for all six permutations and both zones |
| DistanceProperties.PhaseShapeWithinGroundShape | Algoritmos/Distancia21_A.c:169-192 | in each zone the phase-phase shape lies within the phase-earth shape |
| DistanceProperties.Zone1AlmostWithinZone2 | Algoritmos/Distancia21_A.c:169-192 | a zone 1 impedance is on the right side of three edges of zone 2, misses the first edge by at most 0.0003, and is inside zone 2 if and only if it does not miss it |
| DistanceProperties.Zone1CornerOutsideZone2 | Algoritmos/Distancia21_A.c:184-190 | the corner of zone 1 that lies outside zone 2 |
| DistanceProperties.NullPhasorsDecideNothing | Algoritmos/phasor.c:42-49 | null phasors have no loop impedance and decide nothing in either zone |
| WindowedReader.DataReader.DataRead | Algoritmos/dataModule.c:12-83 | one call of the rewinding reader: the matrix, the cursor, the counter and the outcome, for every state, file and malformed line; a file that cannot be opened gives no matrix and changes nothing |
| WindowedReader.DataReader.RewindAndSkip | Algoritmos/dataModule.c:17-38 | the cursor line is reached unless the file is too short; the matrix is untouched |
| WindowedReader.DataReader.Store | Algoritmos/dataModule.c:53-59 | an assignment to one cell changes that cell of the matrix and no other |
| WindowedReader.DataReader.ParseLine | Algoritmos/dataModule.c:42-60 | one line fills its column channel by channel, and stops after the fields it has when they are too few |
| ReaderProperties.CallByCells | Algoritmos/dataModule.c:33-82 | one call cell by cell: 32 lines or what is left, six fields between commas, 500000/115 for channels 0 to 2 and 600/5 for 3 to 5; the cells written before a short line stay written, all others keep their values |
| ReaderProperties.CursorStaysInFile | Algoritmos/dataModule.c:33-38 | on an unchanged file the cursor never passes the end, so skipping never fails |
| ReaderProperties.CallOutcome | Algoritmos/dataModule.c:33-82 | call n succeeds if and only if no malformed line lies before the end of its window; until then windows are consecutive |
| ReaderProperties.FailureIsFixedPoint | Algoritmos/dataModule.c:45-50 | a failed call keeps the cursor, and the next call fails in the same way and changes nothing |
| ReaderProperties.BufferHoldsLastSamples | Algoritmos/dataModule.c:40-82 | after any run of successful calls each cell holds the last consumed sample of its channel at its position modulo 32, after a short last window and at the end of the file too |
| ReaderProperties.EndOfFileFreezes | Algoritmos/dataModule.c:41-82 | at the end of the file calls succeed and change only the call counter |
| DecimalText.AtofOfPrinted | Codigos_auxiliares/formatador_dados_atp_distancia.py:60-62 | reading a number printed with six decimals gives its rounded millionths exactly, with or without the line break |
| DecimalText.PrintingError | Codigos_auxiliares/formatador_dados_atp_distancia.py:60-62 | the printed number is off by at most half a millionth |
| DecimalText.PrintedText | Codigos_auxiliares/formatador_dados_atp_distancia.py:60-62 | the text: an optional minus, digits without leading zero, a point and exactly six digits, which are the nearest millionths, ties to even |
| DecimalText.AtofOfDecimal | Algoritmos/dataModule.c:52 | blanks, a sign, digits before and after a point and what follows are read as the number they write |
| DecimalText.AtofOfInteger | Algoritmos/dataModule.c:52 | the same without a point |
| DecimalText.ExponentMeaning | Algoritmos/dataModule.c:52 | an exponent with digits moves the point to the right or, with a minus, to the left; anything else after the digits is ignored |
| DecimalText.AtofOfNothing | Algoritmos/dataModule.c:52 | text without a digit where a number should start is zero |
| DecimalText.SplitOfJoin | Algoritmos/dataModule.c:45-50 | splitting undoes joining, for delimiter-free tokens and any number of them |
| SampleFile.Format | Codigos_auxiliares/formatador_dados_atp_distancia.py:29-78 | scaling, tabbed printing and comma joining, one after the other, write the file of a table |
| SampleFile.Uniformize | Codigos_auxiliares/formatador_dados_atp_distancia.py:71-78 | every non-blank line is rewritten with commas, in order |
| SampleFile.LineText | Codigos_auxiliares/formatador_dados_atp_distancia.py:34-78 | the text of a line: six printed values, voltages over 500000/115 and currents over 600/5, commas between, a line break behind |
| SampleFile.SampleRoundTrip | Codigos_auxiliares/formatador_dados_atp_distancia.py:34-78 | every line written is well formed for the reader, and every sample comes back in its row and channel to within half a millionth times the ratio |
| SampleFile.TableRoundTrip | Algoritmos/dataModule.c:27-82 | after n calls on the file of a table the matrix holds the last rows consumed, to within that error |
| Acquisition.PhasorSource.GetPhasors | Algoritmos/phasor.c:37-57 | phasor ch is that of the window of channel ch just read, for the six channels, or zero after a failed read |
| Acquisition.SamplesToPickup | Algoritmos/Distancia21_A.c:197-241 | windows that hold the signals of a bolted fault are measured as d times the line impedance and picked up exactly up to the reach |
| Acquisition.SamplesToDecision | Algoritmos/Distancia21_A.c:197-303 | windows that hold the signals of a fault of any of the ten types are named as that fault by a zone if and only if it lies within the reach, and as nothing otherwise |
| Acquisition.NearTonesAreOffBy | Algoritmos/phasor.c:37-57 | windows near tones give six phasors off by at most six times the error of the samples |
| Acquisition.RunTurns | Algoritmos/Distancia21_A.c:195-313 | any number of turns of a relay's loop, reading, measuring and deciding, leave the reader and the latch in the states that the run function gives |
| FileToTrip.TurnsAreCalls | Algoritmos/Distancia21_A.c:195-201 | after any number of turns the reader stands where as many calls of it lead |
| FileToTrip.FileToDecision | Algoritmos/Distancia21_A.c:197-303 | a table of signals at any frequency, printed, read and measured: turn q names a fault in rows 32q to 32q+31 that lies in the zone but for the band, and nothing when it lies outside but for the band |
| FileToTrip.FileToLatch | Algoritmos/Distancia21_A.c:195-313 | from the start of the program, that turn sets the latch for a fault within zone 2 but for the band, and leaves it to earlier turns and to the other relay for a fault outside but for the band |
| FileToTrip.HealthyRecordNeverTrips | Algoritmos/Distancia21_A.c:195-313 | over any number of windows without a fault the latch is set if and only if the other relay's trip was received |
| FileToTrip.TripsWithTheFault | Algoritmos/Distancia21_A.c:195-313 | a record of any number of healthy windows and one with a fault trips the relay in the turn that reads the fault and not before |
| FaultRecord.FaultExample | Algoritmos/Distancia21_A.c:195-303 | a table of 64 rows, load and then phase A to earth, that takes a relay from its start to a trip in its second turn and not in its first, for any root of order 32 |
| Acquisition.DecisionIsShiftInvariant | Algoritmos/Distancia21_A.c:197-303 | shifting all windows together changes no loop impedance, defined or not, and no decision, when all channels with a signal turn by the same angle |
| Acquisition.SameBinIsShiftInvariant | Algoritmos/Distancia21_A.c:197-303 | in particular no impedance and no decision changes when they all peak in the same bin |
| Acquisition.FailedReadNeverTrips | Algoritmos/phasor.c:41-49 | after a failed read no number of turns trips a relay, except on a trip received from the other relay |
| Acquisition.EndOfFileRepeatsDecision | Algoritmos/dataModule.c:41-82 | at the end of the file the latch ends up set if and only if it was set, the last window calls for it, or the other relay tripped |
| Teleprotection.TurnIsCycle | Algoritmos/Distancia21_B.c:197-308 | the steps of a relay, uninterrupted, latch what one call of the loop body latches |
| Teleprotection.Publisher.PublishOnce | Algoritmos/goose_pub.c:46-53 | one turn samples the flag and adds one message with its value |
| Teleprotection.Publisher.PublishLoop | Algoritmos/goose_pub.c:45-53 | the publisher sends the value of the flag once a turn, in order |
| Teleprotection.PublisherTurn | Algoritmos/goose_pub.c:46-53 | the publisher's steps, uninterrupted, publish what one turn of its loop on relay A's latch publishes |
| Teleprotection.Listener.GooseListener | Algoritmos/goose_sub.c:21-33 | a received "true" sets the flag if a pointer was set, and nothing clears it |
| Teleprotection.Listener.GooseListenLoop | Algoritmos/goose_sub.c:36-67 | over any messages received the flag ends up set if and only if it was, or one of them is "true" and the pointer is set |
| Teleprotection.Transfer | Algoritmos/Distancia21_B.c:163-170 | publisher and listener joined by a network that delivers what it likes: tripA is set if and only if a message published during a trip is delivered |
| Teleprotection.NoSpuriousTransfer | Algoritmos/goose_sub.c:21-33 | in every run with loss, duplication and reordering, tripA, every message saying "true" and the value about to be sent imply that relay A has tripped |
| Teleprotection.LatchesNeverFall | Algoritmos/Distancia21_B.c:66-71 | no latch falls over any continuation of any run |
| Teleprotection.TripsHaveCauses | Algoritmos/Distancia21_B.c:236-308 | relay A trips only after measuring phasors that call for it; relay B only after doing so itself or after an earlier trip of relay A |
| TransferTiming.TimedRunIsRun | Algoritmos/goose_pub.c:46-53 | forgetting the clock of a timed run leaves a run of the untimed system |
| TransferTiming.ReceivedTripIsActedOn | Algoritmos/Distancia21_B.c:236-311 | relay B trips within 200 ms of receiving the trip, even during the zone 2 wait in which it does not look |
| TransferTiming.TransferIsBounded | Algoritmos/Distancia21_B.c:236-311 | if one of every m consecutive messages arrives within D ms, relay B trips within m + D + 200 ms of the time relay A has tripped and relay B listens |
| TransferTiming.NeverStuck | Algoritmos/goose_pub.c:46-53 | freedom from deadlock: in every reachable timed state time can pass, a thread can run, or a promised message is delivered in time |
| TimeDivergence.TimeDiverges | Algoritmos/goose_pub.c:46-53 | every run can be continued beyond any time, so the time bounds are not met by a clock that stands still |
| TimeDivergence.TransferHappens | Algoritmos/Distancia21_B.c:236-311 | once relay A has tripped and relay B listens, the run can be continued until relay B has tripped |
| TimeDivergence.TransferIsCertain | Algoritmos/Distancia21_B.c:236-311 | and every continuation longer than m + D + 200 ms has relay B tripped |
| TransferTiming.TurnTakesCycleDuration | Algoritmos/Distancia21_B.c:278-311 | the sleeps of the steps add up to the sleep of the loop body |
| TurnPace.PublisherKeepsPace | Algoritmos/goose_pub.c:46-53 | one message goes out in every millisecond: at any time the number of messages sent is the time in ms, rounded up or one more |
| TurnPace.NextMeasurement | Algoritmos/Distancia21_A.c:195-313 | from one measurement of a relay to its next it takes exactly 1000/60 ms, and 200 ms more if zone 2 decided |
| TurnPace.UnboundIsIdle | Algoritmos/Distancia21_B.c:163-170 | before relay B has bound its listener it neither measures nor trips nor hears of a trip |
| TripTiming.MeasuredFaultTrips | Algoritmos/Distancia21_A.c:236-303 | relay A trips within 200 ms of a measurement that calls for it, at once if zone 1 decides, and not before 200 ms if only zone 2 does, in every continuation of every run |
| TripTiming.MeasuredFaultTripsB | Algoritmos/Distancia21_B.c:236-303 | relay B trips as soon on its own measurement, whatever it receives meanwhile |
| TripTiming.MeasuredFaultTripsBoth | Algoritmos/Distancia21_B.c:236-311 | both relays have tripped 200 + m + D + 200 ms after relay A measured the fault |
| TripTiming.FileToRemoteTrip | Algoritmos/Distancia21_A.c:195-313 | the whole chain: a fault in the table of signals trips the relay at the far end within that time of relay A taking up its window |
| SeriesCompensation.PhaseAngleDiv | Algoritmos/Compser.c:45-62 | the two loops terminate, and the result is the one representative of the first phase less the second, in degrees, in (-180, 180], rounded to thousandths, halves away from zero |
| SeriesCompensation.RoundedIsUnique | Algoritmos/Compser.c:58-59 | no two numbers are the rounding of one |
| SeriesCompensation.SignOfAngle | Algoritmos/Compser.c:45-62 | the angle is positive, negative or zero if and only if the first phase is ahead by 0.0005 degrees to half a turn, behind by 0.0005 to less than half a turn, or neither |
| SeriesCompensation.PhaseAngleMeaning | Algoritmos/Compser.c:45-62 | the angle is within 180 degrees, within 0.0005 of the difference up to whole turns, and zero exactly when the representative is smaller than 0.0005 |
| SeriesCompensation.ExchangeNegatesAngle | Algoritmos/Compser.c:45-62 | exchanging the phasors negates the angle if and only if they are not exactly opposite; then both orders give 180 |
| SeriesCompensation.ReportsAreTheDueOnes | Algoritmos/Compser.c:130-170 | a report of a kind and side is made if and only if the angle of its kind points to that side and the complementary angle is zero, or all six point there |
| SeriesCompensation.ReportsAreConsistent | Algoritmos/Compser.c:130-170 | no kind is reported on both sides, and a three-phase report excludes all others |
| SeriesCompensation.SideExchange | Algoritmos/Compser.c:107-170 | exchanging the voltages on the two sides of the bank exchanges "behind" and "ahead" for a kind if and only if no angle of exactly 180 degrees stands behind its reports |
| SeriesCompensation.MessagesExchange | Algoritmos/Compser.c:107-172 | the whole list of messages is the same with the sides exchanged, in the same order, if and only if that holds for all seven kinds; the relay then trips both ways round or neither |
| SeriesCompensation.HalfTurnExample | Algoritmos/Compser.c:130-134 | voltages for which the same report is made both ways round |
| SeriesCompensation.CompensationRelay.Cycle | Algoritmos/Compser.c:91-172 | one turn of the loop: each of the fourteen messages is made if and only if the phases of its voltages lead, lag and agree as its test asks, line voltages being differences of magnitude times cexp; each once and in order; the latch |
| SeriesCompensation.MessagesOfVoltages | Algoritmos/Compser.c:91-172 | the same for the function the loop is proved against |
| LineVoltages.LinePhasorsAreDifferences | Algoritmos/Compser.c:95-116 | for `cabs`, `carg` and `cexp` that undo each other the phasors compared for AB, BC and CA are the differences of the phase voltages on their side |
| LineVoltages.AheadLeads | Algoritmos/Compser.c:113-127 | the angle of two voltages has the sign of their cross product, if that is above 0.00001 times their magnitudes |
| LineVoltages.LineMessages | Algoritmos/Compser.c:95-161 | a line fault is reported behind the bank when the line voltage turns forward through it and the third phase is in step, and ahead when it turns backward |
| LineVoltages.UnequalMagnitudes | Algoritmos/Compser.c:95-150 | twice the voltage in phase A on one side, all phases in step: AB is reported ahead and not behind |

## Left out

- The libiec61850 library and GOOSE framing (state and sequence numbers, time allowed to live): a message is one boolean, and the listener's search for "true" in the printed value is that boolean being true.
- GPIO outputs, log and interval files, NTP start-up and thread creation.
- `time_since_start` and the split of `wait_ms` into seconds and nanoseconds: model time is a real number and sleeps are exact.
- IEEE 754 rounding, overflow of `current_line` and `call_count`, and the analytic definitions of `cexp`, `carg` and `cabs`.
- Hexadecimal, infinite and not-a-number spellings accepted by `atof`, and lines longer than the buffer of `fgets`.
- Data files that change while the relay runs.
- SampleFile.Format: does not model the comment and header filter of the script nor `np.interp`, which is library code; the table is taken as already on the sampling grid.
- Transforms of a length that is zero or not a power of two.
- The alternative scaling of channels 3 to 5 that dataModule.c keeps in a comment, and the formatting script for it.
- Impedancias.c, which repeats the impedance formulas, and the two plotting scripts.
