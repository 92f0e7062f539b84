# Linuxtrack, modelled and proved

Linuxtrack turns the picture of a camera into the position of a head. This
project models its algorithmic core in Dafny and proves what that core is for.
`dafny verify dfyconfig.toml` checks all of it.

| files | what they are about |
|---|---|
| `Image`, `Stripes`, `Tags`, `LabelSteps`, `LabelProofs`, `Labeller`, `Streams` | the one-pass blob labeller: two swapped range arrays, shared heap accumulators, merging with relabelling and free; which streams of stripes the arrays are large enough for |
| `Runs`, `RunProofs`, `Pixels`, `Places`, `Crosses`, `Scan` | the scan of a frame that feeds it, the 8-connected components it finds, where the reported blobs lie, and what the frame shows afterwards |
| `Vectors`, `Bases`, `PoseProofs`, `MathUtils`, `Pose`, `OldPose` | three-point pose recovery over exact reals, by the new and by the old algorithm |
| `Checksum`, `TirDevice`, `TirHost`, `Obfuscation` | both ends of the TrackIR protocol, run against each other |
| `PrefTree`, `PrefScanner`, `PrefParser`, `PrefRoundTrip`, `PrefLookup`, `PrefStore`, `PrefLoad`, `PrefSave`, `Options` | preferences: scanner, LALR parser, printer, the indexed store, reading a file into it, and saving |
| `RunLoop`, `LoopInvariant`, `LoopProgress`, `LoopResponse`, `LoopShutdown`, `LostShutdown` | the tracker loop and its requesters as interleaved steps: what every run keeps, how long a request waits, what it leads to, and when the loop ends |
| `MessageProcessor` | the incremental parser of USB messages |
| `Words`, `DigestSpec`, `SineTable`, `Digest` | MD5 and SHA-1 against RFC 1321 and RFC 3174, the table of MD5 against the sine |
| `Bytes`, `Archive` | the masked file archive, writer and extractor |
| `Spline`, `Axis` | the response curve of an axis |

Code that updates things in place is modelled by classes and array methods.
Their contracts equate the new state with a function of the old one
(`LabelSteps.AddStripe`, `TirDevice.After`, `MessageProcessor.Step` and so on);
the lemmas then prove what the program promises about these functions.

## How the hard parts are put

* **Blobs.** A run carries as its tag the address of the accumulator it is in.
  "Connected" for runs is the finest equivalence that no link crosses; for
  pixels it is the existence of a path of lit 8-neighbours. The invariant of
  the labeller says "equal tags if and only if connected" after every accepted
  stripe, of any frame, in any order of lines; for frames scanned row by row
  the blobs are then proved to be the components of the pixels.
* **Pose.** The square root is any function with `r >= 0` and `r * r == x`.
  Where the program tests whether matrix entries are finite, the model tests
  for a division by zero; it is proved that this happens exactly for collinear
  points or a head centre in their plane. Rotations are any matrices with
  orthonormal rows and determinant one.
* **TrackIR.** The host runs against the simulated device of the same
  repository. Random numbers, packet fillings and the clock are arbitrary.
* **Shared definitions.** Where a method and the function it is proved against
  use the same small function (a checksum step, a bit layout, a curve point, a
  table), a lemma of its own says in plain operators, over the pixels, or
  against the standard what that function is.
* **Preferences.** `ParseInput` is the grammar by recursive descent; the
  table-driven loop over its two stacks, whose actions fill the store, is proved
  to compute it, for every token sequence. Trees that survive a file are
  characterised exactly.
* **Run loop.** A state is where every thread stands plus the shared variables;
  a run is any sequence of enabled steps of any number of requesters.
  Reading and clearing a request is one step.

## What the code does and its comments do not say

* A stripe is accepted with `hstart`, `hstop` equal to the width or `vline`
  equal to the height (`src/image_process.c:272-290`), one more than fits;
  painting clips it into the frame.
* Nothing in the program ever marks the cached curve points of an axis as valid,
  so they are computed anew for every value (`src/axis.c:232-234`).
* The host lets thresholds from 30 on through, the device takes them from 40 on
  (`TirHost.Accepted`, `TirHost.Host.SetThreshold`).
* Uploading an empty firmware image leaves the device without firmware, yet the
  checksums agree and initialisation succeeds (`TirHost.Host.InitCamera`).
* The two-byte command of the TrackIR 5 v3 carries only three bits of its
  argument (`Obfuscation.EncodeTwo`).
* A pending SHUTDOWN is lost when another request is written before the loop
  takes it (`LostShutdown.ShutdownReplaced`, a complete run). The exact condition is
  `LoopShutdown.ShutdownTakenIff`; as long as nobody asks for anything else every run
  ends with the loop closed or never initialised (`LoopShutdown.ShutdownEnds`).
* No check keeps a stripe out for which the range array has no slot. Separate
  stripes always have one (`Streams.SeparateFits`); which streams run over the
  end is stated exactly by `Streams.AddStream`, `Streams.RepeatedFits` being a
  family that does.
* Saving reports success whenever the new file parses, so blanks in front of a
  value are lost in silence (`PrefRoundTrip.BlanksLost`). An empty value makes
  the file unreadable (`PrefRoundTrip.EmptyValueUnreadable`); saving then fails,
  the file on disk stays, and the program has lost all its preferences, because
  the failed check frees the live store and not only the one being checked
  (`PrefSave.Preferences.SavePrefs`).
* Every comment gains `###` each time preferences are written and read
  (`PrefRoundTrip.RoundTrip`).
* The extractor adds the two lengths of a record in 32 bits, so a record whose
  name and data together reach 2^31 bytes can be written but not extracted
  (`Archive.RoundTrip`, `Archive.TooLongExists`). The layout described at
  `src/extract.c:44-54` leaves out the 36 digest bytes behind the data.
* Cropping a stripe leaves a negative line number as it is
  (`python_prototype/tir4.py:469-473`).

## Model

| member | source | states |
|---|---|---|
| `Image.DrawStripe` | src/image_process.c:52-68 | exactly the pixels of the clipped run take the colour, every other byte of the frame keeps its value |
| `Crosses.InStretch` | src/image_process.c:135-138 | the indices of an arm are the pixels of its line and columns |
| `Crosses.DrawCross` | src/image_process.c:121-143 | exactly the pixels of the two arms, clipped into the frame, become 0xFF |
| `Crosses.MarkBlob` | src/image_process.c:485-500 | the cross lies on the truncated centre of mass, with the size for expected or further blobs |
| `Stripes.WeldTagsComponents` | src/image_process.c:338-375 | if equal tags mean connected runs before a run arrives, they do so after the tags of the runs it touches were replaced by one that it gets too: relabelling computes connected components |
| `Stripes.TotalRename` | src/image_process.c:180-191 | merging one accumulator into another gives the survivor the totals of both sets of runs and leaves every other total alone |
| `Stripes.TotalAppend` | src/image_process.c:193-217 | adding a run changes the totals of the accumulator it went to by the moments of the run, and no other |
| `Tags.TouchedAreNeighbours` | src/image_process.c:161-178 | testing columns against the ranges of the line before finds exactly the earlier runs that the newcomer is linked to |
| `Tags.FlushPlaces` | src/image_process.c:219-262 | a full flush appends the unlisted accumulators in order of first appearance; none is listed twice, none is missing |
| `LabelProofs.StorePreblobsEffect` | src/image_process.c:219-262 | which accumulators store_preblobs lists, in which order, for both values of all; that it leaves no unlisted accumulator marked matched and changes no total |
| `LabelProofs.AdvanceKeeps` | src/image_process.c:309-336 | turning the two range arrays to the line of the next stripe, consecutive or not, keeps what they have to describe |
| `LabelProofs.AbsorbKeeps` | src/image_process.c:345-361 | after a merge every slot of both arrays, the heap and the list agree again; nothing refers to the freed accumulator |
| `LabelProofs.TestKeeps` | src/image_process.c:338-363 | one range test keeps arrays, memory and flags consistent with the tags |
| `LabelProofs.MatchKeeps` | src/image_process.c:338-363 | after the tests of all ranges the accumulators of exactly the touched ranges have become one |
| `LabelProofs.EnterKeeps` | src/image_process.c:364-374 | the stripe enters the accumulator of the first touched range or a new one; totals, slots and flags are right for the longer history |
| `LabelProofs.AddStripeKeeps` | src/image_process.c:264-376 | every accepted stripe keeps the whole invariant: same accumulator if and only if connected, accumulators hold the totals of their runs, live memory is what is referenced, the list has no duplicates, flags mean what they should |
| `LabelProofs.NothingDanglesOrLeaks` | src/image_process.c:219-262 | in every reachable state no slot or list entry points at freed memory, nothing is listed twice, and everything allocated is reachable from the arrays or the list |
| `LabelProofs.Conservation` | src/image_process.c:180-217 | the live accumulators, each counted once, hold together exactly the sums of all accepted stripes |
| `LabelProofs.FlushLists` | src/image_process.c:463-469 | a flush lists every accumulator exactly once, each with the total of its component |
| `Labeller.Labeller.constructor` | src/image_process.c:381-388 | both arrays get w/2 + 1 slots; the empty state satisfies the invariant |
| `Labeller.Labeller.Absorb` | src/image_process.c:345-361 | merge, relabelling of the slots in use of both arrays, and free, done in place, are the specified step |
| `Labeller.Labeller.MatchRanges` | src/image_process.c:338-363 | the loop over the previous line is the specified fold and yields the first touched range |
| `Labeller.Labeller.AddStripe` | src/image_process.c:264-376 | accepts exactly the stripes the size checks let through; a refused one changes neither labeller nor frame; an accepted one is the specified step, with any unused address from malloc, and paints the run |
| `Labeller.Labeller.FreeList` | src/image_process.c:506-507 | freeing the list frees each accumulator once and leaves nothing allocated |
| `Labeller.ChosenExact` | src/image_process.c:479-505 | the accumulators considered for blobs are exactly the listed ones whose pixel count lies within the limits |
| `Labeller.ChosenInOrder` | src/image_process.c:479-505 | and they are considered in the order of the list |
| `Places.ComponentInFrame` | src/image_process.c:485-502 | the blob of a component has a finite centre inside the frame, and its score is the number of its pixels |
| `Places.ReportedInFrame` | src/image_process.c:479-505 | no reported blob of a scanned frame has a place outside the frame or a size outside the limits, and the division by the brightness sum never fails |
| `Places.ComponentBalanced` | src/image_process.c:485-491 | the place of a component balances its pixels: place times brightness is the sum over the pixels of brightness times the distance from the middle, to the left and upwards |
| `Places.ReportsComponents` | src/image_process.c:477-513 | the reported blobs are components of the frame, each at its centre of mass with its pixel count, none twice; all within the limits unless there are more than asked for |
| `Places.CrossesOver` | src/image_process.c:494-500 | the cross of each blob is centred on the pixel of its place and has the size for expected or further blobs |
| `Places.ComponentsBright` | src/image_process.c:485-486 | no component has brightness sum 0, so the centre of mass is defined |
| `Labeller.Labeller.StripesToBlobs` | src/image_process.c:463-522 | reports centre and size of the first num_blobs listed components within the limits; the list covers all components once; a bitmap afterwards shows the crosses of the reported blobs and is unchanged elsewhere; nothing is held any more |
| `Runs.EndedBound` | src/image_process.c:381-388 | the runs a row has completed before column x are at most half as many as the columns up to there: no row overflows w/2 + 1 slots |
| `Streams.SeparateFits` | src/image_process.c:381-388 | stripes from a device that do not touch each other on a line never need more than the w/2 + 1 slots, those in the off-by-one column included |
| `Streams.RepeatedFits` | src/image_process.c:371-371 | one stripe that comes n times fits if and only if n is at most w/2 + 1 |
| `Streams.StreamNext` | src/image_process.c:371-371 | the next accepted stripe of a stream that fitted so far has no slot exactly if the stream with it does not fit |
| `Streams.AddStream` | src/tir_img.c:76-119 | a stream of stripes, accepted or not, can be fed to a new labeller to its end if and only if its accepted stripes fit; otherwise it stops in front of an accepted stripe that has no slot |
| `RunProofs.RowRunsExact` | src/image_process.c:420-455 | the runs of a row are its maximal stretches of nonzero pixels, in order, missing none |
| `RunProofs.AllRunsExact` | src/image_process.c:408-461 | the runs fed to the labeller are exactly those of the frame, in scan order, each with its weights |
| `Pixels.TagsJoin` | src/image_process.c:161-178 | two lit pixels lie in runs of the same accumulator if and only if a path of 8-neighbours leads from one to the other |
| `Pixels.BlobTotal` | src/image_process.c:193-217 | an accumulator holds the brightness moments of all pixels of its component |
| `Pixels.PointsCount` | src/image_process.c:193-217 | the point count of a blob is the number of its pixels |
| `Pixels.TagsListComponents` | src/image_process.c:408-461 | a list of the accumulators, each once, is a list of the 8-connected components of the frame, each once, with their moments |
| `Scan.Emit` | src/image_process.c:440-444 | a finished run fits into the array, and painting it changes no pixel that is still to be read |
| `Scan.ScanRow` | src/image_process.c:415-455 | one row adds exactly the runs of the original row, whatever was painted meanwhile |
| `Scan.ToStripes` | src/image_process.c:408-461 | scanning the frame while overwriting it hands over the runs of the original frame; afterwards lit pixels are 0x80 and dark ones still 0 |
| `Scan.FindBlobs` | src/image_process.c:408-522 | one frame: the finished accumulators are one for one the 8-connected components of the original frame with their moments; each reported blob is the pixel count and the centre of mass of a component of its own within the limits, measured from the middle to the left and upwards, and no such component is left out unless there are too many; the final frame is exactly 0xFF on crosses over these places, 0x80 on the other lit pixels and 0 elsewhere; the labeller is empty again |
| `Vectors.RotationRows` | src/math_utils.c:53-62 | in a right-handed orthonormal system each row is the cross product of the other two |
| `Bases.BaseIsRotation` | src/math_utils.c:53-62 | the Gram-Schmidt base is orthonormal and right-handed whenever its entries are finite |
| `Bases.FiniteIffSpan` | src/math_utils.c:53-62 | its entries are finite if and only if the two vectors span a plane |
| `Bases.RotationUndone` | src/math_utils.c:127-132 | transposing inverts a rotation |
| `Bases.BaseTurns` | src/math_utils.c:53-62 | rotating both vectors rotates the base, and never changes whether it is finite |
| `MathUtils.MakeVec` | src/math_utils.c:4-9 | the difference, also when the result overwrites an argument |
| `MathUtils.CrossProduct` | src/math_utils.c:21-26 | the cross product of two vectors, written into a third |
| `MathUtils.MakeBase` | src/math_utils.c:53-62 | fills the rows in place with the Gram-Schmidt base; reports a division by zero exactly when there is no base |
| `MathUtils.MatrixTimesVec` | src/math_utils.c:64-69 | the matrix applied to the vector |
| `MathUtils.MulMatrix` | src/math_utils.c:96-107 | the triple loop computes the matrix product |
| `MathUtils.TransposeInPlace` | src/math_utils.c:119-132 | the three swaps transpose the matrix in place |
| `MathUtils.InvertMatrix` | src/math_utils.c:232-246 | finite if and only if the determinant is not zero, and then the matrix of cofactors over it |
| `PoseProofs.InverseExact` | src/math_utils.c:232-246 | that matrix is the inverse on both sides |
| `PoseProofs.FiniteIffNotCollinear` | src/pose.c:566-570 | three points have a base if and only if they do not lie on one line |
| `PoseProofs.CentreRoundTrip` | src/pose.c:553-604 | head centre to local coordinates and back, and the other way round, is the identity |
| `PoseProofs.CentreMoves` | src/pose.c:584-604 | moving the points rigidly moves the computed head centre along |
| `PoseProofs.HeightOfCentre` | src/pose.c:611-621 | the spread of the points around the centre is singular exactly when the centre lies in their plane, a fact about the local coordinates alone |
| `PoseProofs.PoseRecovered` | src/pose.c:626-666 | for every rotation and translation of the centred points the computed matrix is exactly that rotation and the displacement exactly that of the head centre |
| `PoseProofs.OldRotationAgrees` | src/pose.c:507-508 | the old rotation algorithm recovers the same rotation |
| `OldPose.ProcessPoints` | src/pose.c:462-513 | one frame of the old algorithm: centre base and reference follow when centering; centre, displacement and rotation are against them; it fails exactly for collinear points |
| `OldPose.OldTracker.Init` | src/pose.c:99-126 | model base, centre base and model reference of the old algorithm; the centre reference keeps its old value |
| `OldPose.OldTracker.Track` | src/pose.c:462-513 | over every sequence of frames the old algorithm recovers rotation, displacement and head centre of every rigid motion, the displacement once a frame was centred |
| `Pose.GetCbase` | src/pose.c:553-579 | writes the local coordinates of the head centre, or fails and leaves them, exactly when the points are collinear |
| `Pose.Center` | src/pose.c:584-624 | the head centre in camera coordinates and the inverse of the spread; the centre is overwritten even when the inverse does not exist |
| `Pose.GetPose` | src/pose.c:631-665 | displacement, centre and both rotation matrices from three points |
| `Pose.Tracker.Init` | src/pose.c:140-143 | succeeds exactly for three points that span a plane and a head centre off that plane, and then the static state is set up for them |
| `Pose.Tracker.Track` | src/pose.c:514-528 | over every sequence of centred and ordinary frames: points moved rigidly against the last centred ones, or against the model, give back exactly that motion; a frame fails only if its points are collinear |
| `Checksum.StepLow` | src/tir4_model.cpp:98-100 | the low 16 bits after a checksum step depend on the low 16 bits before it only |
| `Checksum.FoldLow` | src/tir4_model.cpp:90-106 | masking the start value does not show in the masked checksum |
| `Checksum.PacketwiseMasking` | src/tir4_model.cpp:90-106 | masking after every packet gives the checksum of the whole image masked once at the end |
| `Checksum.ImageSumGrows` | src/tir_hw.c:166-176 | in the operators of the two programs: nothing sums to 0, one more byte is added and then put over the sum shifted by four bits, modulo two to the 16th |
| `TirDevice.Device.constructor` | src/tir4_model.cpp:50-53 | a fresh device: dark, stopped, no firmware, nothing queued |
| `TirDevice.Device.SetLeds` | src/sn3_model.cpp:10-24 | the lamps under the mask take their new value, the others stay |
| `TirDevice.SwitchedBits` | src/sn3_model.cpp:10-24 | each lamp has its bit, in the mask and in the setting |
| `TirDevice.Device.LoadFirmware` | src/tir4_model.cpp:90-106 | the checksum field stays that of all image bytes received since the reset |
| `TirDevice.Device.GetStatus` | src/tir4_model.cpp:117-125 | the reply tells loaded flag, checksum and configuration state |
| `TirDevice.Device.SendPacket` | src/tir4_model.cpp:55-88 | every packet changes the state the host can observe as specified, unknown ones not at all |
| `TirDevice.Device.ReceivePacket` | src/sn3_model.cpp:83-112 | queued replies come first and in order, cut to the buffer; without streaming an empty queue delivers nothing |
| `TirHost.Accepted` | src/tir_hw.c:427-448 | the host's clamped threshold is one the device accepts if and only if the value asked for is at least 40 |
| `TirHost.StatusRead` | src/tir_hw.c:224-229 | the status reply carries the checksum with its high byte first, and the host reads the state of the device from it |
| `TirHost.CksumFirmware` | src/tir_hw.c:157-177 | the host computes the checksum that a device keeps of the image it received |
| `TirHost.Host.FlushPackets` | src/tir_hw.c:861-863 | the draining loop ends because nothing streams, and empties the queue |
| `TirHost.Host.StopCamera` | src/tir_hw.c:586-599 | after the stop packets the device streams nothing and is dark, whatever it did before |
| `TirHost.Host.ReadRomData` | src/tir_hw.c:270-312 | succeeds on the first try and leaves the queue empty |
| `TirHost.Host.ReadStatus` | src/tir_hw.c:187-231 | returns exactly the state of the device and leaves it unchanged |
| `TirHost.Host.UploadFirmware` | src/tir_hw.c:363-391 | the 60-byte packets deliver exactly the image; an empty image leaves the device without firmware |
| `TirHost.Host.SetThreshold` | src/tir_hw.c:427-448 | the device takes the value, cut at 253, and nothing for values below 40 |
| `TirHost.Host.InitCamera` | src/tir_hw.c:849-916 | from every device state with any finite queue and any image the sequence ends, fails only if there is no image file, and leaves the device with the host's checksum and active, stopped, dark and drained |
| `TirHost.Host.Configure` | src/tir_hw.c:891-906 | a device that is not configured is told to, and then reports that it is |
| `Obfuscation.KeyNibbles` | src/tir_hw.c:1444-1446 | both indices into the packet that byte 17 carries lie between 1 and 15 |
| `Obfuscation.GatherStamped` | src/tir_hw.c:1477-1480 | the four stamped bits give back the index, whatever the filling |
| `Obfuscation.NibblePacked` | src/tir_hw.c:1504-1504 | the packed half byte gives back three bits of the argument and keeps the low half, where index bits may be |
| `Obfuscation.DeobfuscateCommand` | src/tir4_model.cpp:160-176 | the device's decoder computes the specified decoding of every packet it can read safely |
| `Obfuscation.DecodedBytes` | src/tir4_model.cpp:160-176 | the decoding in plain operators: which bytes unmask the command, which bits make up the index, where the arguments lie |
| `Obfuscation.MaskCommand` | src/tir_hw.c:1441-1463 | the decoder reads back the command byte, for every choice of the two mask bytes |
| `Obfuscation.EncodeFour` | src/tir_hw.c:1467-1487 | for every filling and index the decoder reads back exactly the four bytes of a register command |
| `Obfuscation.EncodeTwo` | src/tir_hw.c:1489-1507 | the decoder reads back command 0x1A and the low three bits of its argument, so the argument itself if and only if it is at most 7, even where data and index overlap |
| `Obfuscation.EncodeOne` | src/tir_hw.c:1509-1519 | the decoder reads back the byte as the command, and nothing but it if and only if it is none of the three commands that have arguments |
| `PrefTree.BumpWellFormed` | src/pref.hpp:32-44 | the prefix that printing gives a comment does not change whether a tree survives a file |
| `PrefTree.PrintedLines` | src/pref.hpp:32-83 | the exact lines of a printed file: comments, headings, settings |
| `PrefTree.KeyCharacters` | src/pref_flex.lpp:19-19 | the characters of a key |
| `PrefScanner.LongestMatch` | src/pref_flex.cpp:1021-1065 | the scanner takes the longest match of any rule of the start condition, and the first rule among equally long ones |
| `PrefScanner.Scanner.NextToken` | src/pref_flex.cpp:967-1149 | delivers the next token of the text and moves past it; ends exactly at the end of the text |
| `PrefScanner.Scanner.Action` | src/pref_flex.cpp:1077-1149 | one match with its action: token, start condition and cursor are those of the chosen rule |
| `PrefParser.Entries` | src/pref_bison.cpp:634-690 | what the compressed tables decide in each state for each token, entry by entry |
| `PrefParser.ShiftKeeps` | src/pref_bison.cpp:1500-1530 | a shift does not change what the parse comes to |
| `PrefParser.ReduceKeeps` | src/pref_bison.cpp:1542-1665 | a reduction with its grammar action does not change what the parse comes to, and reductions cannot go on for ever |
| `PrefParser.FailRight` | src/pref_bison.cpp:1456-1540 | the tables report an error exactly where the grammar does |
| `PrefParser.Operands` | src/pref_bison.cpp:1542-1630 | every reduction finds its operands on the stack |
| `PrefLoad.ReduceInput` | src/pref_bison.cpp:1562-1586 | the actions that clear the store and add sections and comments to it |
| `PrefLoad.ReduceSection` | src/pref_bison.cpp:1589-1622 | the actions that create, fill and name a section change that object and no other |
| `PrefLoad.Reduce` | src/pref_bison.cpp:1542-1665 | a reduction with its action on stacks, section objects and store is the specified step |
| `PrefLoad.Yyparse` | src/pref_bison.cpp:1370-1665 | the table-driven loop fills the indexed store with what recursive descent along the grammar yields, or fails with it, for every token sequence |
| `PrefSave.Preferences.ParsePrefs` | src/pref.cpp:405-424 | reading succeeds exactly if there is a file and it parses, and then the store has its contents and counts as unchanged; otherwise the store of the program is freed, even when another one was being filled |
| `PrefSave.Preferences.ReadPrefs` | src/pref.cpp:426-452 | a first or forced read shows exactly what the file says, or nothing when it cannot be read; any other call changes nothing |
| `PrefSave.Preferences.SavePrefs` | src/pref.cpp:493-534 | succeeds exactly if the printed store parses; then the file holds it and the file before is the backup; otherwise both files stay, but the program has lost its store |
| `PrefSave.Preferences.SaveAndRead` | src/pref.cpp:426-534 | saving and reading back gives the same contents, comments prefixed, if and only if they are well-formed; then every lookup is the same |
| `PrefRoundTrip.RoundTrip` | src/pref.cpp:57-90 | a tree comes back from its printed form, same sections, keys and values in the same order and ### before each comment, if and only if it is well-formed |
| `PrefRoundTrip.TrimmedRoundTrip` | src/pref_flex.lpp:21-39 | a tree that is well-formed but for blanks in front of its values is read without complaint, without these blanks |
| `PrefRoundTrip.BlanksLost` | src/pref.cpp:312-322 | setting a value and saving gives back the value without the blanks in front of it, so the value itself if and only if it has none |
| `PrefRoundTrip.BlankLost` | src/pref.cpp:312-322 | for instance a value " v" comes back as "v", and nothing reports it |
| `PrefRoundTrip.EmptyValueUnreadable` | src/pref.cpp:312-322 | setting a value that is empty, or only blanks, makes the printed store a syntax error |
| `PrefRoundTrip.EmptyValueLost` | src/pref.cpp:312-322 | inputs the API takes, set in an empty store, for which the tree is not well-formed: an empty value, and one that starts with a blank |
| `PrefRoundTrip.LookupBump` | src/pref.hpp:32-44 | the prefix of comments changes no lookup |
| `PrefRoundTrip.SettingsSurvive` | src/pref.cpp:57-90 | every setting of a well-formed tree survives saving and reading |
| `PrefRoundTrip.ReadWriteRead` | src/pref.cpp:57-90 | whatever was read from a NUL-free file survives being written and read again |
| `PrefLookup.LookupAfterSet` | src/pref.cpp:312-322 | setting a value makes it the one looked up and changes no other lookup |
| `PrefLookup.PaddedIs` | src/pref.cpp:279-279 | the counter comes out in decimal digits, at least four, without a zero in front of more than four, and stands for the counter |
| `PrefLookup.PaddedInjective` | src/pref.cpp:279-279 | different counters give different padded names |
| `PrefLookup.Pigeonhole` | src/pref.cpp:275-289 | if the first n generated names are all taken, at least n names are taken |
| `PrefStore.Section.AddItem` | src/pref.cpp:130-153 | appending keeps the key index equal to a linear search for the first match |
| `PrefStore.Section.SetValue` | src/pref.cpp:302-310 | the first entry of the key gets the value, or a new entry is appended |
| `PrefStore.Section.AddKey` | src/pref.cpp:292-300 | does the same, by way of the other method |
| `PrefStore.Section.GetValue` | src/pref.cpp:182-190 | the value of the first entry for the key, or none |
| `PrefStore.Section.Print` | src/pref.cpp:69-77 | prints name and entries in order |
| `PrefStore.Prefs.Print` | src/pref.cpp:79-90 | prints all entries, whatever their class, in order |
| `PrefStore.Prefs.AddComment` | src/pref.cpp:136-143 | a comment is appended; the index is untouched |
| `PrefStore.Prefs.Clear` | src/pref.cpp:394-402 | nothing is left and the store counts as unchanged |
| `PrefStore.Prefs.AddItem` | src/pref.cpp:136-166 | a section object is appended; an earlier one of the same name stays the indexed one |
| `PrefStore.Prefs.GetValue` | src/pref.cpp:168-180 | the lookup by index is the lookup by linear search |
| `PrefStore.Prefs.AddSection` | src/pref.cpp:256-264 | appends an empty section unless the name is taken |
| `PrefStore.Prefs.SetValue` | src/pref.cpp:312-322 | the tree afterwards is the one with that setting, through shared section objects updated in place; indexes agree again |
| `PrefStore.Prefs.AddKey` | src/pref.cpp:352-362 | the same for addKey |
| `PrefStore.Prefs.FreeName` | src/pref.cpp:275-289 | finds the first generated name that is free, after at most as many failed tries as there are names; gives up only when a full counter of names is taken |
| `PrefStore.Prefs.AddUniqueSection` | src/pref.cpp:266-290 | adds a section under a name that was not taken: the template or the first free numbered one |
| `LoopInvariant.InitialInv` | src/cal.c:84-95 | the invariant holds when the loop is entered with RUN or PAUSE pending |
| `LoopInvariant.StepKeeps` | src/runloop.c:15-120 | every step of every thread keeps mutual exclusion, no lost wake-up, the state that belongs to each statement, and the driver's call discipline |
| `LoopInvariant.RunKeeps` | src/runloop.c:15-120 | so does every run |
| `LoopInvariant.NoLostWakeupInAnyRun` | src/runloop.c:77-97 | in every interleaving: while the device is paused and a request is pending, the flag is set or its requester has yet to signal; nobody sleeps through a set flag |
| `LoopInvariant.HeadSeesTwoStates` | src/runloop.c:42-101 | the switch at the loop head only ever meets RUNNING or PAUSED |
| `LoopInvariant.DriverCalls` | src/runloop.c:24-111 | on every run the driver sees init first, pause and resume alternating, no frame and no close while paused, and a single close that is the last call |
| `LoopProgress.QuietStepNearer` | src/runloop.c:77-97 | each step that is no new request lowers a measure until a request is taken or the loop stops |
| `LoopProgress.SomeQuietStep` | src/runloop.c:77-120 | while a request is pending some thread can move: no deadlock |
| `LoopProgress.TakenInTime` | src/runloop.c:77-97 | a pending request waits for a bounded number of steps, whatever the schedule; each new request or spurious wake-up adds a constant to the bound |
| `LoopProgress.LastRequestCounts` | src/cal.c:157-181 | what is pending is the last request written since one was taken |
| `LoopResponse.RunWakes` | src/runloop.c:82-89 | in every interleaving a RUN taken while paused resumes the driver exactly once, and five steps of the loop later the device is running; nothing holds these steps up |
| `LoopResponse.OthersLeavePaused` | src/runloop.c:82-96 | CONTINUE or PAUSE taken while paused leaves the device paused and the driver uncalled |
| `LoopResponse.PauseSleeps` | src/runloop.c:45-51 | in every interleaving a PAUSE taken while running pauses the driver exactly once, and four steps of the loop later the device is paused |
| `LoopResponse.OthersFetch` | src/runloop.c:55-74 | CONTINUE or RUN taken while running fetches exactly one frame; when that fails the loop is to stop, otherwise the device keeps running and a frame that was acquired is handed on |
| `LoopResponse.HandedOn` | src/runloop.c:65-71 | handing a frame on calls the driver no further, and a failure there stops the loop |
| `LoopResponse.RequestAnswered` | src/runloop.c:42-101 | while nobody asks for anything else, a RUN pending while paused, or a PAUSE while running, is answered in every interleaving: until the device is in that state (or, for PAUSE, a frame failed) the run is bounded in its new requests and some thread can go on |
| `LoopShutdown.ShutdownTakenIff` | src/runloop.c:45-97 | the next request taken is the last one written before; the loop closes because of it if and only if that is SHUTDOWN |
| `LoopShutdown.ClosingRun` | src/runloop.c:90-110 | once SHUTDOWN was taken or a frame failed, no other thread can turn the loop back, and it needs at most seven more steps |
| `LoopShutdown.ShutdownEnds` | src/runloop.c:15-120 | as long as nobody asks for anything else, a pending SHUTDOWN is acted upon in every interleaving: the run is bounded in its new requests and can only stop where the loop has closed or was never initialised |
| `LostShutdown.ShutdownReplaced` | src/cal.c:157-161 | otherwise it may not be: a complete run from the start in which a PAUSE replaces the SHUTDOWN, and the loop ends up asleep, the driver paused and never closed |
| `LostShutdown.ShutdownBeforeFailedInit` | src/runloop.c:24-28 | when the tracker cannot be initialised a pending SHUTDOWN is never taken: the run |
| `MessageProcessor.Step` | python_prototype/tir4.py:525-570 | each pass of the update loop that does not stop lowers a measure of queue length and state, so the loop ends |
| `MessageProcessor.Processor.ProcessPendingBytes` | python_prototype/tir4.py:525-570 | one pass changes the fields as specified and clears the updating flag exactly when more bytes are needed |
| `MessageProcessor.Processor.AddBytes` | python_prototype/tir4.py:520-524 | feeding bytes runs the passes until more are needed |
| `MessageProcessor.Processor.AddDeviceStripe` | python_prototype/tir4.py:571-577 | a vsync closes the pending frame, any other stripe is translated and appended to it |
| `MessageProcessor.TranslatedInRange` | python_prototype/tir4.py:431-482 | cropped columns lie inside the frame; a line number stays negative exactly for lines above the cropped area |
| `MessageProcessor.Unpacked` | python_prototype/tir4.py:431-482 | decoding undoes the packing of a line below 512 and columns below 1024 into three bytes and five flag bits; then only the offsets and the cuts are applied |
| `MessageProcessor.EveryStripeMeans` | python_prototype/tir4.py:425-455 | every four bytes are the packing of exactly one run, or a vsync |
| `MessageProcessor.StepEarlier` | python_prototype/tir4.py:525-570 | bytes that arrive later do not change what a pass does with those at hand |
| `MessageProcessor.ChunksDoNotMatter` | python_prototype/tir4.py:520-577 | feeding a and then b leaves the same state, pending frame and frame queue as feeding both at once, for every state |
| `MessageProcessor.AnyChunking` | python_prototype/tir4.py:520-577 | the same for any number of chunks |
| `MessageProcessor.FramesDelivered` | python_prototype/tir4.py:431-577 | for every sequence of messages cut into chunks anywhere, exactly the runs that the camera packed into them arrive, in order, as line and columns less the offsets and cut at the cropped frame, and cut into frames at the vsyncs |
| `Words.SwapReads` | src/digest.c:40-48 | swapping a native word read from memory gives the big-endian word |
| `Words.SwapEndian64` | src/digest.c:50-58 | the bytes of the result are those of the argument in reverse |
| `DigestSpec.ZeroCount` | src/digest.c:161-174 | the padding brings the text to eight bytes below a multiple of 64 |
| `Digest.RotateIsRotl` | src/digest.c:60-63 | the shift expression is the circular shift of the standards |
| `SineTable.TableIsSine` | src/digest.c:15-32 | entry i of the table is the integer part of 4294967296 times abs(sin(i)), as section 3.4 of RFC 1321 has it, for any function with the addition theorem and the alternating series of the sine |
| `DigestSpec.ShaConstantIsRoot` | src/digest.c:119-132 | the four constants are the integer parts of two to the 30th times the square roots of 2, 3, 5 and 10 |
| `DigestSpec.RotlShifts` | src/digest.c:60-64 | the circular shift as two shifts |
| `DigestSpec.Sum4Is` | src/digest.c:96-97 | the sum of an MD5 step is that of its four terms, modulo two to the 32nd |
| `DigestSpec.Sum5Is` | src/digest.c:140-140 | so is the sum of a SHA-1 step |
| `DigestSpec.Xor4Is` | src/digest.c:138-138 | the schedule combines four words by exclusive-or |
| `DigestSpec.PlusIs` | src/digest.c:103-106 | the registers are added to the state modulo two to the 32nd |
| `DigestSpec.Bits` | src/digest.c:165-168 | the length field is eight times the length, modulo two to the 64th |
| `Words.WordBytes` | src/digest.c:40-48 | byte k of a word in memory holds its bits from 8k on |
| `Words.LongBytes` | src/digest.c:50-58 | likewise for 64 bits |
| `Digest.GIsIndex` | src/digest.c:74-86 | the index formulas of the loop are the word order tables of section 3.4 of RFC 1321 |
| `Digest.RolesMove` | src/digest.c:88-100 | rotating the four registers each pass follows the register pattern of the standard's operations |
| `Digest.Md5Round` | src/digest.c:66-107 | the loop with rotating registers computes one block of section 3.4 of RFC 1321 |
| `Digest.ShaFIsFunction` | src/digest.c:119-132 | exclusive-or in place of or gives the same functions as section 5 of RFC 3174 |
| `Digest.ScheduleWord` | src/digest.c:135-144 | the schedule, built by swapping and rotating, is that of section 6.1 of RFC 3174 |
| `Digest.Sha1Round` | src/digest.c:109-159 | the loop computes one block of section 6.1 of RFC 3174 |
| `Digest.PadMessage` | src/digest.c:161-199 | the whole blocks of the data followed by the one or two tail blocks are the padded message, in either byte order |
| `Digest.Md5Sum` | src/digest.c:201-224 | for every message the result words are those of RFC 1321, although data and tail are processed separately |
| `Digest.Sha1Sum` | src/digest.c:226-253 | for every message the result bytes are the digest of RFC 3174, highest byte of each word first |
| `Archive.GetPut` | src/extract.c:55-66 | a length reads back as it was written |
| `Archive.Get32Is` | src/extract.c:229-240 | a length is read with its lowest byte first, as a signed number of 32 bits |
| `Archive.MaskedTwice` | src/extract.c:36-38 | masking twice with the same stream gives back the data |
| `Archive.BaseNameIs` | src/extract.c:100-103 | the stored name holds no slash and is the whole path or follows a slash of it |
| `Archive.RecordBytes` | src/extract.c:55-82 | every byte of a record: both lengths with the lowest byte first, name and NUL, masked data, digests |
| `Archive.Obfuscate` | src/extract.c:23-42 | each byte of the given part of the buffer is put over a byte of the installer and over 0xA5, and exactly as many installer bytes are consumed; too few of them change nothing in the buffer |
| `Archive.AppendFile` | src/extract.c:119-172 | appends the record of the file or fails without appending |
| `Archive.CreateBlob` | src/extract.c:379-414 | succeeds exactly if names are short enough and the installer is long enough, and then the archive is header, records and end mark |
| `Archive.SameSums` | src/extract.c:192-200 | the accumulated comparison is equality of the digests |
| `Archive.ProcessBuffer` | src/extract.c:178-224 | masks in place and yields a file exactly when the digests of the plain data match |
| `Archive.ExtractFiles` | src/extract.c:229-262 | the record loop computes the specified extraction for every archive and installer, skipping files that cannot be restored; where the C code would leave its buffer, the progress message included, the status is Undefined |
| `Archive.RecordRead` | src/extract.c:229-262 | reading one record in step with the installer yields its file and continues behind it |
| `Archive.TooLongExists` | src/extract.c:240-246 | there are archives that are written but not extracted |
| `Archive.RoundTrip` | src/extract.c:229-262 | extracting what create_blob wrote gives back all names and contents in order, both sides in step with the installer, stopping at the end mark, if and only if each record's two lengths add up to less than two to the 31st |
| `Spline.Curve2Pts` | src/spline.c:7-20 | the control points of both halves |
| `Spline.ParamSolves` | src/spline.c:44-45 | the square-root formula yields a parameter between 0 and 1 at which the curve is at x |
| `Spline.ParamUnique` | src/spline.c:44-45 | it is the only such parameter |
| `Spline.BlendClimbs` | src/spline.c:46-49 | a Bezier curve with ordered control values climbs strictly |
| `Spline.HalfRange` | src/spline.c:22-51 | zero up to the dead zone, one at full deflection, between them in between |
| `Spline.HalfClimbs` | src/spline.c:22-51 | monotone, and strictly so beyond the dead zone |
| `Spline.HalfAnswers` | src/spline.c:35-50 | beyond the dead zone a half curve answers the second coordinate of the curve point whose first is the input, and the chord when the curve is nearly straight |
| `Axis.SetThenGet` | src/axis.c:291-375 | a parameter that was set is read back, and nothing else has changed |
| `Axis.AxisDef.SetParam` | src/axis.c:291-340 | sets the parameter and signals the change, or refuses a parameter that is not the axis's own; the curve points count as invalid in either case |
| `Axis.AxisDef.SetBoolParam` | src/axis.c:377-408 | the same for the two flags, without touching the curve points |
| `Axis.AxisDef.ValOnAxis` | src/axis.c:221-253 | the result, in units of the limit of its side, is the point of the Bezier curve over the scaled and cut input, of its chord for a nearly straight curve, or zero in the dead zone |
| `Axis.OnTheCurve` | src/axis.c:221-253 | so is the response function that the further results are about, on either side |
| `Axis.WithinLimits` | src/axis.c:221-253 | the response stays within the limits of both sides |
| `Axis.DeadZoneAndEnds` | src/axis.c:221-253 | no response inside the dead zone of either side, the full limit from the limit on |
| `Axis.Monotone` | src/axis.c:221-253 | a larger input never gives a smaller response, on an inverted axis never a larger one |

## Left out

- Labeller.Labeller: the accumulators live in an explicit map from addresses to contents, not in Dafny objects; an address that was freed may be handed out again.
- Labeller: the float sums are exact integers, the ratio field is 1, and the unsigned start value of the current line is -2.
- Labeller.Labeller.AddStripe: an accepted stripe needs a free slot in the array, which the program does not check and would write behind; for scanned frames (Scan.Emit) and separate streams (Streams.SeparateFits) the slot is proved to be there, for all others Streams.AddStream states when it is not. What the program does after writing there is not modelled.
- Labeller.BlobAt: float rounding, and the debug dumps.
- Crosses.MarkBlob: without brightness the conversion of the centre to int is undefined in C, and the cross may be anywhere; for scanned frames this never happens.
- MathUtils: not-a-number and infinity; where the program would go on with such entries until its test, the methods return false.
- Pose.GetPose: Euler angles; the rotation matrices stand for them.
- Pose.Tracker.Init: only the end of the initialisation, with the variables of the new algorithm; OldPose.OldTracker.Init sets up those of the old one.
- PoseProofs.OldRotationAgrees: only the rotation; OldPose.OldTracker.Track states centre and displacement as well.
- Pose.Tracker: the two iterations that estimate the points from blobs, the order of blobs, and the single-point and face models.
- TirHost.Host.FlushPackets: a device that is still streaming, on which the loop may never end; initialisation stops it first.
- TirHost.Host.ReadRomData: likewise.
- TirHost.Host.ReadStatus: earlier replies in the queue, one of which might be taken for the answer; initialisation drains them first.
- TirHost.Host: other camera models, the TrackIR 3 sequences and the image endpoints.
- TirDevice.Device.SendPacket: packets that are shorter than the arguments the device reads from them; the host sends none.
- Obfuscation.DeobfuscateCommand: a register command whose hidden index is 0, for which the decoder reads in front of the packet; the host chooses indices from 6 on.
- Obfuscation.EncodeOne: for the three commands that have arguments only the command byte is stated; the arguments come from the random filling, and the host never sends them this way.
- PrefScanner: flex's compressed tables and buffer refills; the rules are taken from `src/pref_flex.lpp`, and the choice among them is proved to be the longest match.
- PrefLoad.Yyparse: error recovery after a syntax error; the file counts as unreadable then, and the contents of the store are left open.
- PrefSave.Preferences: file names, and files that cannot be opened for writing or renamed.
- PrefStore.Prefs: locks, number conversions and section lists.
- RunLoop: the frame buffer and the memory of the model set-up; several cameras.
- MessageProcessor: blob finding in the Python prototype, which the C code replaces; frames are cropped with the default offsets.
- DigestSpec: lengths are below 2^64 bytes. SineTable knows the sine by the addition theorem and its series at 1 only, not as a limit.
- Archive: file input and output errors, memory that runs out for ordinary sizes, and how the installer is found; the digests in records are any function of 36 bytes.
- Archive.ExtractFiles: where lengths or names of a malformed archive make the C code leave its buffer, the status is Undefined and nothing is claimed.
- Axis.AxisDef.SetParam: saving the parameter to the preferences; the change flag is that of the axis, the program has one for all.
- Axis: float rounding, the filter, and locks; dead zone, curvature, sensitivity and limits are in the ranges of the user interface.
- Camera drivers, USB, sockets, shared memory, the user interfaces, Wii remote and face tracking: foreign calls, or easy members only.
