# Force/torque device drivers: a verified model

This project models four cores of the YARP force/torque drivers and proves what they promise.

- **FT node** (`LineParser`, `FtNode`, `FtNodeHistory`, `FtNodeConservation`, `FtNodeRange`, `FtNodeReaders`). A
  periodic thread cuts a serial line at its commas into 32 numbers, rebuilds four half wrenches from bytes, keeps
  halves per sensor until force and torque are both there, and publishes whole wrenches sensor by sensor under a
  mutex, while other threads read.
- **FT shoe** (`AnalogSensor`, `Vectors`, `FtShoe`, `FtShoeWrench`, `FtShoeCalibration`, `ShoeOnNode`). Two wrenches
  are negated, optionally recalibrated, moved to one frame, fused, optionally rotated, and freed from an offset that a
  halving average has learnt. `ShoeOnNode` puts the shoe on top of the FT node.
- **Multitorque codec and UDP path** (`BaseTypeEncoding`, `MultitorqueCodec`, `MultitorqueMessages`,
  `MultitorqueProtocol`, `EthHistory`, `EthService`). One generic codec over schemas of field kinds, of which the forty
  messages are instances, with the place of each field on the wire in byte numbers; datagrams are routed by source
  address to boards, to sensors, and to their values; silent boards are reported.
- **AMTI plates** (`Amti`). The search for an acquisition rate, the draining of the packet queue, the channel slice.

Objects that the drivers update are classes; every method is proved against functions of the old state, and the
theorems are about these functions, over all inputs, runs or interleavings. `hide` statements keep definitions out of
proofs that do not need them.

Conventions: doubles are `real`; a float inside a message is the 32-bit word of its representation, and
`FtSensor.GetFTData` takes the meaning of such a word as a parameter; a 6x6 matrix is given by its four 3x3 blocks;
clock readings, received lines, received datagrams and the packets of the plate driver are parameters. A sample of
the shoe holds what the driver's own vectors hold after the devices' answers, whether a device wrote them or not.

Where the code and its comments or the expected behaviour differ, the model follows the code:

- A serial line carries the low byte of a component first (index 0), although the comment in `run` says `MSB LSB`.
- A half wrench naming a sensor below 1 makes a checked access throw, which ends the thread. In every interleaving the
  thread has ended exactly when such a half has been received (`FtNodeReaders.WhenTheThreadEnds`); the halves stored
  before it stay, and nothing more is published (`FtNodeReaders.NothingAfterTheEnd`). On printed lines this takes a
  force or torque frame of sensor 0 (`FtNodeRange.WhenPrintedLinesThrow`).
- The shoe accepts any mounting matrix. With a mirrored one the fused moment is not the sum of the moments;
  `FtShoeWrench.FusedMoment` says exactly when it is, `FtShoeWrench.MirroredMountingExample` names a failing input.
- In FT-node mode the shoe stores the node's state but combines the two others, which no read sets. A read reports
  what the node answered exactly when that is OK (`ShoeOnNode.WhenTheNodeStatusIsReported`). The node driver modelled
  here always answers OK (`FtNode.FtNodeDriver.Read`), so the failing input, `ShoeOnNode.FailingNodeExample`, needs
  another analog sensor attached in that mode.
- A sensor that leaves the shoe's vector unwritten is taken to have measured the corrected reading of the time before:
  its sign changes from read to read (`FtShoe.UntouchedReadingTurns`).
- A sensor decodes the whole receive buffer, not the datagram; a short datagram is completed by bytes of earlier ones,
  from whatever board. What a board has sent itself decides what its sensors show exactly when its latest datagram has
  at least 28 bytes (`EthHistory.WhenOwnTrafficDecides`); `EthHistory.ForeignBytesShow` gives two histories for the
  failing case. A receive call that fails is dispatched like an empty datagram.
- The encoder's header step does not look at the announced size, so the unsigned difference wraps for sizes below
  four; the space check is exact for all other sizes (`MultitorqueCodec.WhenEncodeReportsTooShort`).
- Reading the calibration offsets compares the reply's identifier with that of another reply and ignores the outcome;
  the offsets come from the same bytes whatever the header says (`EthService.FtSensor.GetCalibrationOffsets`).
- The rate the plate driver selects reaches sixteen datasets per period exactly for periods of at least 8 ms
  (`Amti.ConfigureRate`).

## Model

| member | source | states |
|---|---|---|
| `LineParser.Split` | ftNode/ftnodeDriver.cpp:185-196 | the getline loop yields exactly the pieces between commas |
| `LineParser.SplitThenJoin` | ftNode/ftnodeDriver.cpp:185-196 | joining the pieces gives the line back, pieces are comma-free, and there is one more than commas, a trailing comma included |
| `LineParser.JoinThenSplit` | ftNode/ftnodeDriver.cpp:185-196 | cutting a joined list of comma-free pieces gives the pieces back |
| `LineParser.ReadValues` | ftNode/ftnodeDriver.cpp:187-196 | the numbers of the line in order, one per piece |
| `LineParser.AtofOfPrint` | ftNode/ftnodeDriver.cpp:193-193 | reading a printed decimal gives the number, whatever non-numeric end follows |
| `LineParser.AtofOfDecimal` | ftNode/ftnodeDriver.cpp:193-193 | reading a decimal with blanks, sign and fraction gives its signed value |
| `LineParser.ValuesOfPrintLine` | ftNode/ftnodeDriver.cpp:187-196 | reading a printed line of numbers gives the numbers back |
| `FtNode.FramesRoundTrip` | ftNode/ftnodeDriver.cpp:199-240 | four frames of bytes, printed low byte first, are recovered as words, address and type |
| `FtNode.FtNodeDriver.constructor` | ftNode/ftnodeDriver.cpp:122-137 | cleared halves and zero channels for every sensor |
| `FtNode.FtNodeDriver.StoreHalf` | ftNode/ftnodeDriver.cpp:231-259 | stores one half in its sensor's slot, component by component in the sensor's own scales, skips numbers above the sensor count, reports the exception for numbers below 1 |
| `FtNode.FtNodeDriver.StoreLine` | ftNode/ftnodeDriver.cpp:179-264 | the halves after a line; storing stops at the first exception |
| `FtNode.FtNodeDriver.PublishSensor` | ftNode/ftnodeDriver.cpp:266-293 | one critical section publishes a complete wrench and clears its halves, or changes nothing |
| `FtNode.FtNodeDriver.Run` | ftNode/ftnodeDriver.cpp:172-294 | the whole state after one run of the thread, and when it throws |
| `FtNode.FtNodeDriver.Read` | ftNode/ftnodeDriver.cpp:371-383 | a copy of all channels, and OK always |
| `FtNodeHistory.PublicationsWellFormed` | ftNode/ftnodeDriver.cpp:266-293 | publications take the last force and last torque of their own window of events, and the windows tile the history |
| `FtNodeHistory.PublishUpToServes` | ftNode/ftnodeDriver.cpp:266-293 | after k turns of the publishing loop exactly the sensors below k are served, each on its own |
| `FtNodeHistory.HistoryRefinement` | ftNode/ftnodeDriver.cpp:210-293 | after any lines each sensor's channels are its latest publication told from the events alone, the slots hold exactly the later events, never both halves |
| `FtNodeConservation.TakenIncreases` | ftNode/ftnodeDriver.cpp:271-290 | no half goes into two publications |
| `FtNodeConservation.OneFate` | ftNode/ftnodeDriver.cpp:243-290 | every received half is published, overwritten before publication, or waiting, and only one of these |
| `FtNodeConservation.Conservation` | ftNode/ftnodeDriver.cpp:243-290 | over any run received = publications + overwritten + waiting, for force and for torque, at most one of the two waiting |
| `FtNodeRange.EventsAreFrames` | ftNode/ftnodeDriver.cpp:179-240 | the history of any transmission of printed lines is the list of its frames |
| `FtNodeRange.WhenPrintedLinesThrow` | ftNode/ftnodeDriver.cpp:231-259 | printed lines are free of exceptions exactly when no force or torque frame has address 0 |
| `FtNodeRange.PublishedValues` | ftNode/ftnodeDriver.cpp:246-281 | after any lines, 32768 times each of a sensor's six channels is that component of its latest published force or torque half, less 32768, times that channel's scale |
| `FtNodeRange.PrintedValues` | ftNode/ftnodeDriver.cpp:179-281 | the same from the bytes of the printed frames: which two bytes make which channel |
| `FtNodeRange.MeasurementRange` | ftNode/ftnodeDriver.cpp:213-256 | with positive scales S and 16-bit components every channel v satisfies -S <= v < S after any lines |
| `FtNodeRange.PrintedRange` | ftNode/ftnodeDriver.cpp:179-280 | the same bound for whatever byte frames are printed on the line |
| `FtNodeRange.PublishedDeterminesWords` | ftNode/ftnodeDriver.cpp:213-290 | two runs that show the same wrench for a sensor have taken it from halves with the same three words each, for nonzero scales |
| `FtNodeRange.PublishedDeterminesBytes` | ftNode/ftnodeDriver.cpp:179-290 | two transmissions that end with the same wrench shown have sent the same six bytes in each of the two frames it came from |
| `FtNodeRange.OtherLinesAreIgnored` | ftNode/ftnodeDriver.cpp:179-208 | an empty line or one without exactly 32 pieces leaves halves and channels unchanged after any run |
| `FtNodeReaders.SnapshotIsWhole` | ftNode/ftnodeDriver.cpp:266-293 | under every interleaving each sensor's channels in a snapshot are one whole published wrench, the latest among the lines seen, or zero |
| `FtNodeReaders.SnapshotsMoveForward` | ftNode/ftnodeDriver.cpp:371-383 | a later snapshot of a sensor never goes back to an earlier publication |
| `FtNodeReaders.WhenTheThreadEnds` | ftNode/ftnodeDriver.cpp:231-259 | in every interleaving the thread has ended exactly when some received line has a force or torque half that names a sensor below 1 |
| `FtNodeReaders.NothingAfterTheEnd` | ftNode/ftnodeDriver.cpp:231-293 | after that line only readers go on, and the channels are those from before it |
| `FtNodeReaders.UninterruptedRun` | ftNode/ftnodeDriver.cpp:172-294 | a run no reader interrupts is one of the interleavings and does what Run does |
| `FtShoe.FtShoeDriver.constructor` | ftShoe/ftshoeDriver.cpp:24-54 | zero buffers and offsets, states OK, not calibrated |
| `FtShoe.FtShoeDriver.Read` | ftShoe/ftshoeDriver.cpp:243-310 | the step-by-step pipeline delivers one fixed linear map of each input minus the offset, and sets readings, states and the time stamp; outside FT-node mode the state is OK exactly when both sensors answered OK, else the graver, and twice the stamp is the sum of the sensors' times |
| `FtShoe.FtShoeDriver.CombineFtsStatus` | ftShoe/ftshoeDriver.cpp:312-335 | the driver's state is the combination of the two sensors' states |
| `FtShoe.FtShoeDriver.CalibrateSensor` | ftShoe/ftshoeDriver.cpp:349-401 | aborts uncalibrated with zero offsets exactly when one of the two sensors fails at the first reading; else stores the halving average of the accepted readings |
| `FtShoe.PipelineIsLinear` | ftShoe/ftshoeDriver.cpp:271-299 | negation, recalibration, transport, fusion and rotation compose to the fixed maps, with or without in-situ matrices |
| `FtShoe.ReadNegates` | ftShoe/ftshoeDriver.cpp:250-274 | without recalibration each channel of the two readings is its input with the sign changed, from the configured node channels or from the two sensors |
| `FtShoe.UntouchedReadingTurns` | ftShoe/ftshoeDriver.cpp:264-274 | a vector its sensor leaves unwritten changes its sign at every read |
| `FtShoe.OutputMap` | ftShoe/ftshoeDriver.cpp:293-299 | skipping the rotation when it is the identity changes nothing |
| `FtShoe.TransportMap` | ftShoe/ftshoeDriver.cpp:286-289 | the transport matrix rotates the force and adds offset x force to the rotated moment |
| `FtShoeWrench.FusedMoment` | ftShoe/ftshoeDriver.cpp:283-289 | for an orthogonal mounting the fused wrench has the sum of the two moments about a point exactly when the mounting is a rotation or the front force has no arm there |
| `FtShoeWrench.MirroredMountingExample` | ftShoe/ftshoeDriver.cpp:283-289 | a mirrored mounting and one loaded sensor for which the sum of moments is missed |
| `FtShoeWrench.OutputMoment` | ftShoe/ftshoeDriver.cpp:291-299 | the output matrix carries moments about points along, under the same kind of condition |
| `FtShoeWrench.ReadMoment` | ftShoe/ftshoeDriver.cpp:271-299 | with rotations, a read has about every point the turned sum of the two corrected sensors' moments, and the sum of forces |
| `FtShoeWrench.TransportKeepsScrew` | ftShoe/ftshoeDriver.cpp:286-289 | moving a wrench to the rear frame keeps force squared and force times moment |
| `FtShoeWrench.SingleLoadKeepsScrew` | ftShoe/ftshoeDriver.cpp:271-304 | with one sensor loaded, no recalibration and no offset, both screw invariants survive the whole read |
| `FtShoeWrench.CombineIsWorst` | ftShoe/ftshoeDriver.cpp:312-335 | the combined state is the more severe one and OK only when both are |
| `FtShoeCalibration.HalvedIsWeightedSum` | ftShoe/ftshoeDriver.cpp:376-392 | n halvings are the sum with weights 2^-n for the first reading and 2^-(n-k+1) for the k-th further one |
| `FtShoeCalibration.WeightsSumToOne` | ftShoe/ftshoeDriver.cpp:376-392 | the weights sum to one |
| `FtShoeCalibration.OffsetIsWeightedSum` | ftShoe/ftshoeDriver.cpp:376-398 | every channel of the stored offset is that weighted sum of the accepted readings |
| `FtShoeCalibration.OffsetWithin` | ftShoe/ftshoeDriver.cpp:376-398 | the offset lies between any bounds the accepted readings respect |
| `FtShoeCalibration.AlwaysConsistent` | ftShoe/ftshoeDriver.cpp:301-398 | at every lock release of every interleaving uncalibrated means zero offsets, and the average depends on the calibration's own accepted readings only |
| `FtShoeCalibration.OnlyGoodReadingsCount` | ftShoe/ftshoeDriver.cpp:369-390 | outside FT-node mode, at every point of every run, a reading joins the average exactly when both sensors answered OK |
| `FtShoeCalibration.ReadSubtractsOffsets` | ftShoe/ftshoeDriver.cpp:301-304 | the guarded subtraction equals the unconditional one at every point of every run |
| `FtShoeCalibration.CalibratedReadNearZero` | ftShoe/ftshoeDriver.cpp:369-398 | calibration readings within e of c make later reads of loads within d of c zero up to e + d |
| `FtShoeCalibration.AbortedCalibration` | ftShoe/ftshoeDriver.cpp:360-374 | a failed first reading leaves the driver uncalibrated with zero offsets in any interleaving |
| `FtShoeCalibration.UninterruptedCalibration` | ftShoe/ftshoeDriver.cpp:349-401 | a calibration nobody interrupts is one of the interleavings and leaves the state CalibrateSensor promises |
| `ShoeOnNode.ShoeReadsPublishedWrenches` | ftShoe/ftshoeDriver.cpp:248-261 | with ranges (6a, 6a+5) and (6b, 6b+5) a read delivers what two direct sensors holding the last published wrenches of a and b would make it deliver |
| `ShoeOnNode.WhenTheNodeStatusIsReported` | ftShoe/ftshoeDriver.cpp:248-309 | in FT-node mode, at every point of every run, a read stores the node's state and reports it exactly when it is OK |
| `ShoeOnNode.FailingNodeExample` | ftShoe/ftshoeDriver.cpp:248-309 | the first read of a node in error reports OK |
| `Vectors.CrossUnderOrthogonal` | ftShoe/ftshoeDriver.cpp:288-289 | an orthogonal matrix commutes with the cross product up to its determinant |
| `Vectors.OrthogonalDet` | ftShoe/ftshoeDriver.cpp:135-158 | an orthogonal mounting is a rotation or a reflection: determinant 1 or -1 |
| `BaseTypeEncoding.LittleEndian` | AME/baseTypeEncoding.cpp:181-200 | the bytes of each kind of value, least significant first |
| `BaseTypeEncoding.ValuesAndBytes` | AME/baseTypeEncoding.cpp:175-227 | writing and reading a value undo each other, on values and on bytes |
| `BaseTypeEncoding.EncodeValue` | AME/baseTypeEncoding.cpp:25-95 | -1 without a write when the slot does not fit, else the value's own bytes and the slot size |
| `BaseTypeEncoding.DecodeValue` | AME/baseTypeEncoding.cpp:98-168 | undoes EncodeValue: -1 without a value exactly when the slot does not fit, else the slot size and the one value whose encoding stands at the cursor |
| `MultitorqueCodec.HeaderBytes` | AME/MultitorqueEncoder.cpp:11-23 | where size, encoding and identifier sit in the four header bytes |
| `MultitorqueCodec.HeaderBijection` | AME/MultitorqueEncoder.cpp:11-46 | unpacking after packing keeps id mod 4096, the size and encoding mod 16; packing after unpacking is the identity on every word |
| `MultitorqueCodec.PackInjective` | AME/MultitorqueEncoder.cpp:11-23 | no two distinct headers in range share a word |
| `MultitorqueCodec.PackHeaderInfo` | AME/MultitorqueEncoder.cpp:11-23 | overwrites exactly the first four bytes with the packed word, the size cut to 16 bits |
| `MultitorqueCodec.FittingIsExact` | AME/MultitorqueEncoder.cpp:1552-1790 | the leading fields that fit are exactly those ending within the limit |
| `MultitorqueCodec.Encode` | AME/MultitorqueEncoder.cpp:75-2980 | the size and the complete encoding, or -1 with exactly the leading fitting fields written |
| `MultitorqueCodec.Decode` | AME/MultitorqueEncoder.cpp:60-2980 | the size and all fields, or -1 with header and exactly the leading fitting fields set; nothing below four bytes |
| `MultitorqueCodec.WrittenFields` | AME/MultitorqueEncoder.cpp:1552-1639 | each slot holds its own value's bytes and every other byte keeps its old value |
| `MultitorqueCodec.RoundTrip` | AME/MultitorqueEncoder.cpp:75-2980 | for every schema, values and prior buffer contents, decoding the encoding gives the values, and a header with id, size and encoding 1 |
| `MultitorqueCodec.PaddingKeepsItsBytes` | AME/baseTypeEncoding.cpp:175-179 | padding bytes of narrow fields and all bytes beyond the message keep their values |
| `MultitorqueCodec.PaddingIsNotRead` | AME/baseTypeEncoding.cpp:202-206 | padding does not affect decoding |
| `MultitorqueCodec.TruncatedKeepsHeader` | AME/MultitorqueEncoder.cpp:1552-1639 | a truncated encoding has not touched the header word |
| `MultitorqueCodec.ReencodeIsIdentity` | AME/MultitorqueEncoder.cpp:75-2980 | writing back what was decoded changes no byte behind the header |
| `MultitorqueCodec.RemainingIs` | AME/MultitorqueEncoder.cpp:81-101 | the unsigned remaining size never wraps once four bytes are announced |
| `MultitorqueCodec.WhenEncodeReportsTooShort` | AME/MultitorqueEncoder.cpp:49-58 | the space check is exact precisely for announced sizes of at least four |
| `MultitorqueMessages.IdNamesMessage` | AME/Multitorque.h:17-58 | the forty identifiers are distinct and fit the header |
| `MultitorqueMessages.MessageSizes` | AME/MultitorqueEncoder.cpp:75-2980 | the number of bytes of each of the forty messages; one-byte fields occur exactly in the two messages with a hardware address |
| `MultitorqueMessages.EveryMessageRoundTrips` | AME/MultitorqueEncoder.cpp:75-2980 | each of the forty messages decodes to its fields, and its header alone tells which message it is |
| `MultitorqueMessages.EncodingsAreDistinct` | AME/MultitorqueEncoder.cpp:75-2980 | two messages with the same 52 bytes on the wire have the same type and the same fields |
| `MultitorqueProtocol.HeaderPosition` | AME/MultitorqueEncoder.cpp:11-23 | the four header bytes of every message: its size, zero, low identifier bits over encoding 1, high identifier bits |
| `MultitorqueProtocol.IdBytes` | AME/Multitorque.h:17-58 | the two identifier bytes of each of the forty messages, as constants |
| `MultitorqueProtocol.FieldPosition` | AME/MultitorqueEncoder.cpp:75-2980 | field k of every message stands at byte 4 + 4k; bytes behind one-byte fields and behind the message stay |
| `MultitorqueProtocol.FieldRead` | AME/MultitorqueEncoder.cpp:60-2980 | decoding takes field k from there when it ends within the given size, and leaves it alone otherwise |
| `MultitorqueProtocol.OneWordMessages` | AME/MultitorqueEncoder.cpp:112-2669 | the eighteen messages with one word carry it in bytes 4 to 7 |
| `MultitorqueProtocol.SetSampleStreamPolicyOnWire` | AME/MultitorqueEncoder.cpp:456-483 | the byte positions of policy, then rate |
| `MultitorqueProtocol.SetTempFactorsOnWire` | AME/MultitorqueEncoder.cpp:672-723 | the byte positions of t0 to t5 |
| `MultitorqueProtocol.SetCalibrationMatrixRowOnWire` | AME/MultitorqueEncoder.cpp:956-1013 | the byte positions of row, then c0 to c5 |
| `MultitorqueProtocol.ReplyGetCalibrationMatrixRowOnWire` | AME/MultitorqueEncoder.cpp:1220-1277 | the byte positions of row, then c0 to c5 |
| `MultitorqueProtocol.ReplyGetCalibrationOffsetsOnWire` | AME/MultitorqueEncoder.cpp:1413-1464 | the byte positions of c0 to c5 |
| `MultitorqueProtocol.BCastSensorDataOnWire` | AME/MultitorqueEncoder.cpp:1552-1639 | the byte positions of three forces, three torques, six raw channels |
| `MultitorqueProtocol.SetMacAddressOnWire` | AME/MultitorqueEncoder.cpp:1975-2038 | the byte positions of m0 to m7, one byte in each four |
| `MultitorqueProtocol.ReplyGetMacAddressOnWire` | AME/MultitorqueEncoder.cpp:2239-2302 | the byte positions of m0 to m7, one byte in each four |
| `MultitorqueProtocol.SaveInventoryDataOnFlashOnWire` | AME/MultitorqueEncoder.cpp:2702-2747 | the byte positions of design code, board version and revision, serial number, date |
| `MultitorqueProtocol.ReplyLoadInventoryDataFromFlashOnWire` | AME/MultitorqueEncoder.cpp:2861-2906 | the byte positions of design code, board version and revision, serial number, date |
| `EthHistory.LeadingBytes` | AME/ftSensorNew.cpp:36-41 | which four bytes of the buffer each of the three forces and three torques comes from |
| `EthHistory.SensorShowsItsOwnDatagram` | AME/ethService.cpp:416-429 | a latest datagram of at least 28 bytes alone decides a sensor's values |
| `EthHistory.WhenTheDatagramDecides` | AME/ftSensorNew.cpp:28-49 | the six values are independent of the earlier buffer contents exactly for datagrams of at least 28 bytes |
| `EthHistory.WhenOwnTrafficDecides` | AME/ethService.cpp:416-429 | what a board has sent decides what its sensors show, over all histories, exactly when it has sent nothing or its latest datagram has at least 28 bytes |
| `EthHistory.ForeignBytesShow` | AME/ethService.cpp:416-429 | two receivable histories with the same datagrams of the board and different values, when the latest is shorter |
| `EthHistory.LastHeardIsLatest` | AME/ethService.cpp:375-381 | with a monotone clock the recorded time is the later of the last datagram and the last handler installation |
| `EthHistory.OverdueIsExact` | AME/ethService.cpp:431-443 | a board is reported, once and in order, exactly when silent for at least one millisecond more than the timeout |
| `EthService.BroadcastArrives` | AME/MultitorqueEncoder.cpp:1552-1639 | the words a board encodes into a broadcast are the words its datagram shows |
| `EthService.FtSensor.constructor` | AME/ftSensorNew.cpp:65-70 | registers on the board whose number is the given one cut to 16 bits, on none if there is no such board |
| `EthService.FtSensor.AnalyzePacketSensor` | AME/ftSensorNew.cpp:28-49 | each of the twelve values is named bytes of the buffer, none comes from the shared message's earlier contents |
| `EthService.FtSensor.GetCalibrationOffsets` | AME/ftSensorNew.cpp:168-184 | the six offsets are bytes 4 to 27 of the reply, in order; those a short reply does not reach are zero |
| `EthService.FtSensor.GetFTData` | AME/ftSensorNew.cpp:85-95 | a thousand times each value is the meaning of its word, forces before torques |
| `EthService.Board.OnUdpDatagram` | AME/ethService.cpp:204-211 | every registered sensor takes the datagram's values |
| `EthService.EthInterfaceManager.AddBoard` | AME/ethService.cpp:274-289 | the new board's number and address, or -1 when four are configured |
| `EthService.EthInterfaceManager.InstallUdpDatagramHandler` | AME/ethService.cpp:366-373 | adds any sensor to that board's handlers only, ignores other numbers; keeps the invariant for a new sensor that shows zeros |
| `EthService.EthInterfaceManager.InstallTimeoutHandler` | AME/ethService.cpp:375-381 | restarts the time of every board |
| `EthService.EthInterfaceManager.Dispatch` | AME/ethService.cpp:421-429 | brings exactly the boards at the source address, and their sensors, up to date with the history |
| `EthService.EthInterfaceManager.ReportSilent` | AME/ethService.cpp:431-443 | calls the handler for exactly the overdue boards |
| `EthService.EthInterfaceManager.RecvUdp` | AME/ethService.cpp:389-446 | keeps the invariant that buffer, times and sensors follow the history, also when the receive call fails; an empty wait only reports 99; after a datagram of 28 (52) bytes the six (twelve) values of every sensor of its board are named bytes of it |
| `EthService.EthInterfaceManager.ReadAfterBroadcast` | AME/ftSensorNew.cpp:28-95 | after a board's encoded broadcast arrives, its sensors deliver a thousandth of what the first six words mean, in order |
| `EthService.EthInterfaceManager.SensorShowsLatestDatagram` | AME/ethService.cpp:416-429 | a registered sensor shows zeros, then the words of its board's most recent datagram, whatever other boards send |
| `EthService.EthInterfaceManager.ReportsFollowHistory` | AME/ethService.cpp:431-443 | who is reported follows from the history of arrivals and installations |
| `Amti.SelectRate` | amti/src/AMTIPlatformsDriver.cpp:145-155 | the smallest sufficient rate of an ascending table, or the last when none suffices |
| `Amti.FirstExitOnlyAtStart` | amti/src/AMTIPlatformsDriver.cpp:146-148 | the loop's first exit is taken at index 0 only, on any table |
| `Amti.DesiredRateIs` | amti/src/AMTIPlatformsDriver.cpp:131-136 | a rate reaches the desired one exactly when rate times period reaches 16000 |
| `Amti.ConfigureRate` | amti/src/AMTIPlatformsDriver.cpp:131-157 | with the 34 listed rates, the selected one serves the period exactly for periods of at least 8 ms, and no smaller listed one does; 2000 below 9 ms, 180 at 100 ms, 10 from 1600 ms on |
| `Amti.SelectedRateIs` | amti/src/AMTIlib.cpp:94-107 | which rate each period gets, as a ladder of 34 period limits |
| `Amti.TableAscends` | amti/src/AMTIlib.cpp:94-107 | the table has 34 ascending rates up to 2000 |
| `Amti.PlatformsDriver.GetCurrentData` | amti/src/AMTIlib.cpp:159-177 | takes one packet, whatever its count, and keeps its sixteenth dataset, or returns 0 and changes nothing |
| `Amti.PlatformsDriver.Run` | amti/src/AMTIPlatformsDriver.cpp:28-47 | the drain takes in the whole queue in order and ends with the time of the last packet; the state is TIMEOUT exactly when the clock is more than the timeout away, else an error stays and all else is OK |
| `Amti.PlatformsDriver.GetLastMeasurement` | amti/src/AMTIPlatformsDriver.cpp:239-261 | the places in the buffer of the latest packet ever received that hold a plate's force and moment, for both formats; zeros before any packet; zeros and an error for an unknown plate |
| `Amti.PlatformsDriver.QueryAfterDrain` | amti/src/AMTIPlatformsDriver.cpp:28-47 | the same places in the buffer of the last packet of the queue, or of the packet before when the queue was empty |
| `Amti.PlatesAreDisjoint` | amti/src/AMTIPlatformsDriver.cpp:250-255 | different plates share no channel; counter and trigger belong to none |

## Left out

- Serial port, sockets, `select`, thread creation, sleeping and TCP requests: lines, datagrams and interleavings stand for them.
- Configuration parsing (`open` of the drivers): the parsed values are arguments of the constructors.
- Rounding of floating-point numbers, and the meaning of NaN and infinity.
- The big-endian build of the codec.
- LineParser.Atof: does not model exponents, hexadecimal numerals, `inf` and `nan`, which the sensors never print.
- FtNode.Truncate: does not model conversions of numbers outside the int range, whose result is undefined in C++.
- FtShoe.Fits: asks for ranges of exactly six existing channels in FT-node mode; the driver's own check also lets the upper index equal the channel count, where its vectors are not defined.
- FtShoe.FtShoeDriver.Read: does not model the sequence numbers of time stamps, nor devices whose vectors have another length than six (or, for the node, fewer channels than configured).
- Attaching and detaching of devices: the shoe is modelled between the two, when all states are OK until a read sets them.
- FtShoe.FtShoeDriver.CalibrateSensor: does not model the five-second clock; the number of further readings is arbitrary. Two calibrations at the same time are not modelled.
- MultitorqueCodec.Encode: one loop over a schema stands for the straight-line code of each message; the 32-bit cursor is covered up to its range.
- MultitorqueCodec.Decode: the same loop; converting a decoded integer to an enumeration keeps its value, so enumerations are 32-bit words.
- EthService.EthInterfaceManager.RecvUdp: takes the source address that a failing receive call leaves undefined as an arbitrary one; board addresses are given as numbers.
- EthService.FtSensor.AnalyzePacketSensor: runs as one step, since the sensor's lock guards the assignments against readers; the raw channels are tied to each datagram as it arrives (`RecvUdp`), not to the whole history like the forces and torques.
- Amti.ConfigureRate: does not model a period of zero, which divides by zero.
- Amti.PlatformsDriver.GetLastMeasurement: does not hand out the time stamp, which is optional there; `Run` says what it is.
- Amti.PlatformsDriver.GetCurrentData: any nonzero count is accepted as by the driver, but the buffer behind it is taken to be long enough for sixteen datasets; reading beyond a shorter one is undefined.
- EthService.FtSensor.GetCalibrationOffsets: the request, its reply and a failing connection are a parameter; the result of the identifier check is not used there.
- Offset checks after `calibrateOffsets`, message-id checks, network and inventory requests of the sensor boards: one request and one reply each.
- `ATI_Ethernet`, `optoforce`, `forcetorqueDriverExample`, `ftShoeUdpWrapper`, `mttMonitor`, `osutil`, plate rotation in `AMTIForcePlate`: plumbing around foreign libraries.
