# DOSfer, verified

DOSfer sends files from a DOS machine to a phone camera as a stream of V40-L QR
symbols on a VGA screen.  This project models its senders and its receiver in
Dafny and proves what they are for: that every shortcut shows exactly the symbol
the long way would have shown, that the interleaved sender never disturbs a
symbol it is showing, that the receiver rebuilds exactly what was sent, and that
files come out byte for byte.

`dafny verify dfyconfig.toml` checks everything.  No file depends on anything
outside this directory.

## The parts

* **Linear algebra of the code.** `Gf2` (byte strings under XOR), `Crc32` (RFC
  1952, section 8, bit by bit, with the slicing tables proved against it),
  `CrcPolynomial` (the same register as long division by the generator),
  `CrcShortcut` (the checksum of a long run of zeros),
  `Whitening` (xorshift keystreams and the fused copy loops), `V40L` (the block
  layout, interleave and error-correction register of ISO/IEC 18004 version 40,
  level L), `Raster` (module scatter), `Emission` and `EmissionRgb` (difference
  renders of one and three planes), `DerivedSymbols`.  There the step table of
  the encoder is any XOR-linear table and the placement map any array of bits.
* **What those stand for.** `Field256` and `ReedSolomon` build the step table as
  the program does, and prove that every block is a word of the Reed-Solomon code
  and that different symbols are more than thirty bytes apart in one of them;
  `Placement`, `SymbolImage` and `MatrixRaster` prove that template XOR scatter is
  the picture of the symbol's modules, and so is the copy eight modules at a time;
  `WireFormat` states frames, records, whitening and symbol headers in numbers.
* **Frames and repair.** `Protocol` (frame and record codec, both directions),
  `Repair` (chain, block and group equations), `PlaneSolver` (Gauss-Jordan over
  GF(2)), `SessionStore` (the peeling loop as a least fixpoint),
  `WindowRepair` and `RgbSchedule` (which frames a window shows, and why they are
  enough), `WindowReception` (those frames at the receiver).
* **The PLANE sender.** `Vga` (plane memory), `Correction` and `PlaneParity` (the
  parity symbol), `PlaneFrames`, `Schedule` (which records form which group).
  `Sender` gives one producer step, one playback tick, one tail and one main-loop
  iteration as functions on the whole state; `SenderQueue`, `SenderGroups`,
  `SenderWork`, `SenderScreen`, `SenderRuns`, `SenderLoop` and `SenderMain` build
  the invariant of all reachable states, `SenderProgress` a measure, and
  `SenderSafety` the theorems about every run.  `SenderMachine` is the program in
  its own imperative form, with fields and buffers updated in place; each of its
  methods is proved to refine the function of the same step, and `SenderPlay`
  carries the theorems over to it.  `PlaneReception` and `PlaneTransfer` put the
  receiver behind it: what each symbol is filed as, and that a lost one comes out.
* **The stripe renderer.** `StripeRuns`, `StripeTables`, `StripePlan`,
  `StripeKernels` and `StripeScatter`: the placement-map analysis and its kernels
  against the module-by-module scatter.  `Pages` and `PageRun`: shadow, two pages
  and partial uploads, one by one and in any sequence.
* **Files end to end.** `Producer` (manifest, double disk buffer, records),
  `Utf8` and `Reconstructor` (path decoding and the record interpreter),
  `SafePaths` (which paths get through), `FileTransfer` (both together) and
  `RecordStream` (the disk ring and record stream of the protected-mode sender).
* **Around it.** `Timer` (the PIT/BIOS clock) and `Yuv` (chroma-sharing
  conversion).

## What the proofs found

* A `dos_sender32` DATA tail is padded with zeros to 2904 bytes, and the receiver
  accepts such a payload as a record if and only if the record fills it
  (`Protocol.PaddedParses`).  The short TRANSFER_END record sent as a tail is
  therefore never accepted.
* The comments in `dos_sender32/main.c` speak of window remainders shown as
  plain DATA.  The code forms overlapping groups instead; only a final window
  shorter than one group leaves tails, and then they are exactly its records
  (`Schedule.TailsExactly`).
* The receiver reports a transfer complete if and only if every entry could be
  read to its end, every path is safe once decoded and the files together are
  smaller than 2^32 bytes (`FileTransfer.EndToEnd`): at 2^32 the byte count in the
  closing record wraps and no longer matches.
* The sender announces "Transfer complete" also when an entry cannot be read,
  unless that happens before the first window is full: `producer_fill_window`
  returns 0 for the end and for a failure alike (`Producer.Producer.RunTransfer`,
  `FileTransfer.Transfer`).
* The receiver decodes path bytes as UTF-8, so a DOS name survives if and only if
  its bytes are well formed as such (`Utf8.WellFormedKept`).  Others are changed
  or refused: the byte 82 alone is created as U+FFFD
  (`Reconstructor.HighByteLost`), and of that byte 85 make a name but not 86
  (`Reconstructor.TrailsSafe`).
* A stored chain or block whose solution is no record stays unsolved for ever; at
  rest nothing else is missing alone (`SessionStore.RestExactly`,
  `SessionStore.InsolubleChain`).
* A basis symbol whose record the receiver has already, as happens with
  overlapping groups, is filed but answered with DUPLICATE before recovery: what
  it makes solvable comes out only with the next frame that is stored
  (`SessionStore.RestKept`).
* The row loop of the step table takes the logarithm of a zero coefficient for
  nought and would enter wrong rows; the divisor has no zero coefficient
  (`ReedSolomon.GeneratorFull`), which follows from the distance of the code.
* The shortcut that derives a parity symbol is right for two members only at full
  length, which is what the sender tests (`DerivedSymbols.DerivedSymbol`).
* The stripe renderer refuses a map with shifted groups but no four-lane group,
  although it could draw it by runs (`StripeScatter.ScatterStripe`).
* The clock is off by up to one BIOS tick when an interrupt is outstanding at
  either end of a measurement, and exact when readings are less than a tick apart
  and the first finds none outstanding (`Timer.Watch`).
* The correction list of 1024 patches cannot overflow: two headers never differ
  in more raster bytes than that (`Correction.PatchesFit`).
* No producer step and no playback tick ever takes its failure return
  (`SenderSafety.EveryRunIsSafe`), and a tail is never put into the slot of the
  group on screen, so the main loop's branch for that case is dead
  (`Sender.TailSlot`).

## Model

| member | source | states |
|---|---|---|
| Crc32.WordStepIsFourBytes | dos_sender32/protocol32.c:37-43 | the four table look-ups of one 32-bit step equal four bitwise byte steps of RFC 1952, section 8 |
| Crc32.SliceRow | dos_sender32/protocol32.c:10-25 | slicing table row k is k further zero-byte steps of row 0 |
| Crc32.TableStep | dos_sender_legacy/src/protocol.c:150-152 | the one-byte table step equals eight single-bit steps |
| Crc32.RunConcat | dos_sender32/protocol32.c:54-66 | updating over a concatenation is updating piece by piece, for any split |
| Crc32.CrcOfPieces | dos_sender_legacy/src/protocol.c:154-167 | continuing a finished checksum over more bytes gives the checksum of the whole |
| Crc32.CrcXor | dos_sender_legacy/src/sender.c:321-323 | crc(a xor b) is crc(a) xor crc(b) xor the crc of as many zero bytes, for all strings of equal length |
| Crc32.Tables.Update | dos_sender32/protocol32.c:54-66 | the word-then-byte loop over any length, tails of 1 to 3 bytes included, computes the bitwise register |
| CrcPolynomial.PolyIsGenerator | dos_sender32/protocol32.c:10-17 | the constant of the table loop is the generator x^32+x^26+x^23+x^22+x^16+x^12+x^11+x^10+x^8+x^7+x^5+x^4+x^2+x+1, bit-reversed |
| CrcPolynomial.RunIsRemainder | dos_sender32/protocol32.c:10-25 | running the register over bytes is long division of the message by that polynomial, from any start |
| CrcPolynomial.CrcIsRemainder | dos_sender32/protocol32.c:54-66 | the checksum of any bytes is the inverted remainder, on division by the generator, of the message with its register preset to ones |
| CrcPolynomial.KnownEntries | dos_sender32/protocol32.c:10-17 | table entries 1 and 80 (hexadecimal) are 77073096 and EDB88320 |
| CrcPolynomial.CheckValue | dos_sender_legacy/src/protocol.c:154-167 | the checksum of the nine digits 1 to 9 is CBF43926 |
| Whitening.WhitenTwice | android_receiver/app/src/main/java/org/dosfer/receiver/Protocol.java:127-148 | whitening with the same generators is its own inverse |
| Whitening.ParityOfWhitened | dos_sender_legacy/src/protocol.c:188-308 | the XOR of separately whitened members is the XOR of the members whitened once with all their generators |
| Whitening.SharedSeed | dos_sender32/protocol32.c:184-208 | one keystream shared by a group survives in odd groups and cancels in even ones |
| Whitening.PlaneParityPayload | dos_sender32/protocol32.c:184-208 | the parity payload on the wire is the XOR of the wire payloads, whitened for width 3 and plain for width 4 |
| Whitening.WhitenCopyCrc | dos_sender32/protocol32.c:103-127 | the fused loop writes exactly the whitened bytes at their place and returns the CRC of those bytes |
| Whitening.CopyKeyCrc | dos_sender32/protocol32.c:83-101 | the same with a stored keystream, and without one |
| Whitening.GenerateKeystream | dos_sender32/protocol32.c:129-137 | the stored keystream is the generator stream of the group |
| Whitening.CopyPayloadCrc | dos_sender_legacy/src/protocol.c:188-308 | the legacy loop with one, two or up to three strided generators whitens and checksums exactly |
| WireFormat.WhiteningVector | dos_sender_legacy/src/sender.c:1123-1165 | the first sixteen stream bytes for session 6A67C69D and record 4 are the test vector the programs share |
| WireFormat.GroupWhiteningVector | tools/tests/test_protocol.py:74-77 | and those of the stride group of records 120, 123 and 126 |
| Protocol.ParseEncode | android_receiver/app/src/main/java/org/dosfer/receiver/Protocol.java:46-95 | whatever the encoder accepts, the parser gives back: every field and the plain payload, in every whitening mode |
| Protocol.EncodeParse | android_receiver/app/src/main/java/org/dosfer/receiver/Protocol.java:46-74 | nothing else parses: an accepted string is the encoding of what was read from it |
| WireFormat.FrameLayout | dos_sender_legacy/src/protocol.c:327-349 | every header field in its place and big-endian, both checksums over what they cover, the payload under its key bytes |
| WireFormat.AcceptableIs | android_receiver/app/src/main/java/org/dosfer/receiver/Protocol.java:46-74 | which frames there are, in numbers: kinds, flag words, lengths, and the bounds of a stride group |
| WireFormat.SeedsAre | dos_sender_legacy/src/protocol.c:188-308 | which records seed the whitening of a payload, for each flag word |
| Protocol.ParseEncodeRecord | dos_sender_legacy/src/protocol.c:310-325 | a record reads back with every field and its body |
| Protocol.EncodeParseRecord | android_receiver/app/src/main/java/org/dosfer/receiver/Protocol.java:177-187 | an accepted record string is the encoding of the record read |
| WireFormat.RecordLayout | dos_sender_legacy/src/protocol.c:310-325 | every field of a record in its place and big-endian, the checksum over its body |
| WireFormat.MetaLayout | dos_sender_legacy/src/producer.c:169-179 | attributes, date, time, size and path of an entry byte by byte |
| WireFormat.SessionLayout | dos_sender_legacy/src/producer.c:199-208 | the session record byte by byte |
| Protocol.TrimPadded | android_receiver/app/src/main/java/org/dosfer/receiver/SessionStore.java:105-111 | cutting a zero-filled plane payload back by its header length restores the record |
| Protocol.PaddedParses | dos_sender32/main.c:1131-1133 | a zero-filled DATA payload is a parsable record if and only if its body fills the payload |
| Repair.ChainRepair | tools/dosfer_protocol.py:339-385 | for payloads of any two lengths a chain frame and either member give the other, byte for byte |
| Repair.BlockRepair | tools/dosfer_protocol.py:397-495 | a block frame of records and all members but any one give the missing record |
| Repair.GroupBlockRepair | tools/dosfer_protocol.py:425-495 | the same for a strided group frame; a stride beyond the receiver's int, possible for a group of one, is refused |
| Repair.PeeledPlane | android_receiver/app/src/main/java/org/dosfer/receiver/SessionStore.java:167-181 | the XOR of a plane parity payload and all but one basis payload is the missing one |
| Repair.SolveBlock | android_receiver/app/src/main/java/org/dosfer/receiver/Protocol.java:105-126 | the in-place block solver returns the recovered record of its specification, or fails where that fails |
| Repair.WhitenInPlace | android_receiver/app/src/main/java/org/dosfer/receiver/Protocol.java:127-148 | the in-place word loop whitens exactly its range and nothing else |
| PlaneSolver.SolvePlane4 | android_receiver/app/src/main/java/org/dosfer/receiver/Protocol.java:165-176 | null exactly when the coefficients do not span; otherwise the unique basis payloads consistent with the input; the reduction error is never raised |
| PlaneSolver.Eliminate | android_receiver/app/src/main/java/org/dosfer/receiver/Protocol.java:170-173 | given a pivot, one column of the in-place Gauss-Jordan elimination is reduced; the span and what every row stands for are kept |
| PlaneSolver.NotSpanning | android_receiver/app/src/main/java/org/dosfer/receiver/Protocol.java:165-176 | a non-zero functional that kills all coefficients shows they do not span |
| PlaneSolver.Spanning | android_receiver/app/src/main/java/org/dosfer/receiver/Protocol.java:165-176 | unit vectors among the combinations show that they do |
| SessionStore.SoundAddition | android_receiver/app/src/main/java/org/dosfer/receiver/SessionStore.java:131-181 | in a truthful directory every equation yields exactly the true record, and exactly when it lacks one member |
| SessionStore.ExhaustedIsClosed | android_receiver/app/src/main/java/org/dosfer/receiver/SessionStore.java:182-190 | when a round adds nothing to a truthful directory, no chain or block equation has exactly one missing member |
| SessionStore.AdditionExactly | android_receiver/app/src/main/java/org/dosfer/receiver/SessionStore.java:131-181 | for any stored files: an attempt adds a record if and only if its equation lacks exactly one and the solution is a record |
| SessionStore.RestExactly | android_receiver/app/src/main/java/org/dosfer/receiver/SessionStore.java:182-190 | for any stored files at rest: nothing is missing alone in an equation if and only if every equation that lacks one record can be solved |
| SessionStore.InsolubleChain | android_receiver/app/src/main/java/org/dosfer/receiver/SessionStore.java:131-149 | a chain file whose solution is no record leaves exactly one member missing at rest |
| SessionStore.LeastIsUnique | android_receiver/app/src/main/java/org/dosfer/receiver/SessionStore.java:182-190 | the resulting set of records does not depend on the order in which files are listed |
| SessionStore.SessionStore.Round | android_receiver/app/src/main/java/org/dosfer/receiver/SessionStore.java:183-188 | one pass of the do-while loop: either nothing changed and every equation is spent, or there is less room left |
| SessionStore.SessionStore.RecoverAvailable | android_receiver/app/src/main/java/org/dosfer/receiver/SessionStore.java:182-190 | terminates with the least closed set of records above the stored ones, overwrites nothing, stores only true records |
| SessionStore.SessionStore.Accept | android_receiver/app/src/main/java/org/dosfer/receiver/SessionStore.java:47-97 | each outcome if and only if its condition on the parsed frame and the old directory; a new valid frame is filed under its key, and no file is ever lost or changed; after STORED recovery is at rest with exactly the records that follow; truth survives |
| SessionStore.StoredExactly | android_receiver/app/src/main/java/org/dosfer/receiver/SessionStore.java:61-96 | STORED exactly for a valid frame of a name not yet used whose record, if it brings one, is not there; then the file is there and so is the record, at stream id plus basis |
| SessionStore.RestKept | android_receiver/app/src/main/java/org/dosfer/receiver/SessionStore.java:81-84 | a directory at rest stays at rest, but for a plane frame whose record is there already, which is filed without recovery |
| V40L.EccXor | tools/v40_delta_selftest.c:26-31 | the check bytes of a XOR of data are the XOR of the check bytes |
| V40L.EncodeXor | tools/v40_delta_selftest.c:19-36 | the whole encoder, blocks and interleave, is XOR-linear in its 2956 data codewords |
| V40L.CellOfIndex | tools/v40_delta_selftest.c:14-17 | every stream position 0..3705 is the closed-form index of exactly the cell emitted there |
| V40L.IndexOfCell | tools/v40_delta_selftest.c:14-17 | every data and check byte has its own position: the closed forms are a bijection |
| V40L.EncodeAt | tools/v40_delta_selftest.c:14-36 | the full encoding holds every data and check byte at its closed-form index |
| ReedSolomon.BlockWordIs | dos_sender32/third_party/qrcodegen.c:887-925 | deinterleaved column by column, the stream holds 19 words of 118 and 6 of 119 data bytes in order, each followed by its 30 check bytes |
| V40L.PairInPlace | dos_sender32/third_party/qrcodegen.c:426-445 | the overlapping two-byte register step reads every byte before it is overwritten and equals two single steps |
| V40L.RsPairs | dos_sender32/third_party/qrcodegen.c:426-455 | the paired loop with its odd tail computes the check bytes of any data |
| V40L.Encoder.Step | dos_sender32/third_party/qrcodegen.c:887-911 | each call completes one block; the stream is the full encoding when the last one is done |
| V40L.EncodePrepacked | dos_sender32/third_party/qrcodegen.c:913-925 | the stepwise encoder run to its end writes the encoding |
| Field256.MulAssoc | dos_sender32/third_party/qrcodegen.c:1005-1013 | the product of bytes modulo x^8+x^4+x^3+x^2+1 is associative |
| Field256.Order | dos_sender32/third_party/qrcodegen.c:396-408 | x generates the field: its powers below 255 differ from one |
| Field256.Logarithm | dos_sender32/third_party/qrcodegen.c:396-408 | every byte but zero is a power of x |
| Field256.Tables.constructor | dos_sender32/third_party/qrcodegen.c:396-408 | the table loops enter the powers of x and their logarithms, the second half by period 255 |
| Field256.Tables.Multiply | dos_sender32/third_party/qrcodegen.c:1007-1013 | multiplication by logarithms is the product, zero included |
| ReedSolomon.ComputeDivisor | dos_sender32/third_party/qrcodegen.c:963-983 | the in-place loops leave the coefficients of (x-1)(x-2)...(x-2^29) below the leading one |
| ReedSolomon.Roots | dos_sender32/third_party/qrcodegen.c:963-983 | that polynomial vanishes at the first thirty powers of x |
| ReedSolomon.TermsBound | dos_sender32/third_party/qrcodegen.c:963-983 | a polynomial of w terms below degree 255 does not vanish at w successive powers of x |
| ReedSolomon.GeneratorFull | dos_sender32/third_party/qrcodegen.c:412-414 | no coefficient of the divisor is zero, so the logarithm the row loop takes of each exists |
| ReedSolomon.PrepareRs | dos_sender32/third_party/qrcodegen.c:409-420 | the step table holds in row f the divisor times f |
| ReedSolomon.TableIsLinear | dos_sender32/third_party/qrcodegen.c:409-420 | so it is XOR-linear, as the encoder needs |
| ReedSolomon.CodewordRoots | dos_sender32/third_party/qrcodegen.c:426-455 | data and check bytes together vanish at the first thirty powers of x, for data of any length |
| ReedSolomon.MinimumDistance | dos_sender32/third_party/qrcodegen.c:426-455 | words of different data of one length up to 225 differ in more than thirty bytes |
| ReedSolomon.SymbolRoots | dos_sender32/third_party/qrcodegen.c:887-925 | each of the 25 words of any symbol is a word of that code |
| ReedSolomon.SymbolsApart | dos_sender32/third_party/qrcodegen.c:887-925 | symbols of different data differ in more than thirty bytes of one word |
| WireFormat.PackedReads | dos_sender_legacy/third_party/qrcodegen.c:1392-1412 | a packed frame announces ECI 3, byte mode and its length, then holds the frame, a terminator and the pad bytes EC and 11 |
| WireFormat.PrefixAnnounces | dos_sender32/main.c:685-686 | the constant prefix of the plane sender announces a full frame |
| V40L.HeaderCorrection | dos_sender32/third_party/qrcodegen.c:1292-1310 | encoding one block gives the codewords of a header over an all-zero payload |
| V40L.DeltaCodewords | tools/v40_delta_selftest.c:19-36 | the per-block recurrence on byte differences writes exactly the XOR of the two full encodings |
| Emission.ApplyDelta | dos_sender_legacy/src/vga.c:997-1042 | the nested emission loops leave the interleaved stream in the codeword buffer and the raster XORed with the scatter of the difference |
| Emission.InterleavedIsEncoding | dos_sender_legacy/src/vga.c:992-1042 | with the encoder's check bytes the interleaved stream is the encoding |
| EmissionRgb.ToggleCodeword3 | dos_sender_legacy/src/vga.c:1045-1062 | one map entry a module serves three planes, and each is toggled by its own changed bits only |
| EmissionRgb.CodewordDelta3 | dos_sender_legacy/src/vga.c:1064-1100 | three codeword buffers end as the new streams and three rasters XORed with the scatter of their differences |
| EmissionRgb.ApplyDelta3 | dos_sender_legacy/src/vga.c:1102-1163 | the emission loops for three planes do the same from data and check bytes |
| Raster.ScatterXor | dos_sender_legacy/src/vga.c:1243-1275 | the module scatter is XOR-linear |
| Raster.ScatterUpdate | dos_sender32/main.c:343-354 | changing one codeword toggles exactly the modules of its changed bits |
| Raster.DeltaKeepsCanonical | dos_sender32/main.c:343-371 | a raster equal to template XOR scatter(old codewords) becomes template XOR scatter(new codewords) |
| Raster.DeltaRange | dos_sender32/main.c:356-371 | the loop over any clamped range updates the codewords of that range and toggles the raster along |
| Placement.PrepareDelta | dos_sender32/main.c:318-340 | the placement loop sends every bit to the pixel of its module, inside the raster and the upload rectangle; refused exactly for another size or a mask that is not one bit |
| Placement.ModulesApart | dos_sender32/main.c:327-333 | no two modules share a pixel |
| Placement.RectangleIs | dos_sender32/platform_vga.c:160-181 | the upload rectangle holds a byte of the raster if and only if one of its pixels belongs to the symbol or its quiet zone |
| SymbolImage.BuildImage | dos_sender_legacy/src/vga.c:455-476 | module by module: dark modules are drawn in the foreground colour and nothing else is |
| MatrixRaster.ReadChunk | dos_sender32/main.c:293-297 | eight module bits read across byte boundaries of the QR buffer |
| MatrixRaster.Reverses | dos_sender32/main.c:274-280 | reversing a byte by two table look-ups exchanges pixel and bit order |
| MatrixRaster.RasterFromMatrix | dos_sender32/main.c:282-312 | the loop that copies eight modules at a time gives the picture that drawing module by module gives |
| SymbolImage.ScatterBits | dos_sender_legacy/src/vga.c:1243-1275 | a bit of the scatter is set exactly where a module of a set codeword bit stands |
| SymbolImage.PicturesDiffer | dos_sender32/main.c:728-742 | where the modules of two symbols differ by codewords, the picture of one is the picture of the other XOR the scatter of those codewords |
| SymbolImage.PreparedMap | dos_sender32/main.c:318-340 | the map of the placement loop is one of those maps |
| Correction.PatchCount | dos_sender32/main.c:519-525 | the compacted list has one patch per non-zero raster byte |
| Correction.AppliedIsXor | dos_sender32/main.c:493-525 | applying the patch list is XORing the whole difference raster |
| Correction.PreparePatches | dos_sender32/main.c:493-525 | the list is exact, and fails exactly when more than 1024 bytes differ |
| Correction.PatchesFit | dos_sender32/main.c:519-525 | for two headers it never fails: a header difference touches at most 1024 raster bytes |
| Vga.PartialIsFull | dos_sender32/platform_vga.c:167-187 | where plane and raster are white outside the rectangle, a rectangle upload leaves the whole plane equal to the raster |
| Vga.CorrectedTwice | dos_sender32/platform_vga.c:230-267 | restoring after applying is the identity, with and without the zero raster |
| Vga.Vga.StoreFast | dos_sender32/platform_vga.c:152-165 | writes one plane of one slot and nothing else |
| Vga.Vga.StoreQr | dos_sender32/platform_vga.c:167-187 | row by row copies exactly the bytes of the rectangle |
| Vga.Vga.XorBulk | dos_sender32/platform_vga.c:206-213 | XORs a raster into one plane of one slot |
| Vga.Vga.Correct | dos_sender32/platform_vga.c:230-267 | the effect of apply and restore on plane memory, and when they refuse |
| Vga.Vga.Show | dos_sender32/platform_vga.c:296-302 | selects slot and mask, or refuses and keeps the selection |
| Placement.SlotAddress | dos_sender32/platform_vga.c:152-165 | slot s of a plane begins at 2000 (hexadecimal) times s, and eight of them fill it |
| PlaneParity.ImagesXorAll | dos_sender32/qrcode_affine_selftest.c:124-148 | the template survives the XOR of an odd number of images and cancels in an even one |
| PlaneParity.ParityPayload | dos_sender32/main.c:763-775 | the parity frame carries exactly the XOR of the members' wire payloads, both widths |
| PlaneParity.ParityInput | dos_sender32/main.c:763-798 | encoder input of the parity frame = XOR of the members' inputs and the header difference |
| PlaneParity.CorrectionIsExact | dos_sender32/main.c:763-798 | the XOR of the basis images and the correction (and the zero raster for width 4) is the parity frame's image |
| PlaneParity.ParitySymbol | dos_sender32/qrcode_affine_selftest.c:77-148 | after correction the composition of the resident planes equals the raster of the separately encoded parity frame |
| PlaneParity.BasisSymbol | dos_sender32/platform_vga.c:322-331 | a one-plane mask shows that plane |
| PlaneFrames.BasisRead | android_receiver/app/src/main/java/org/dosfer/receiver/Protocol.java:46-74 | the receiver parses a basis symbol back to its record, coefficient and place |
| PlaneFrames.ParityRead | android_receiver/app/src/main/java/org/dosfer/receiver/Protocol.java:46-74 | and the parity symbol to the XOR of the records |
| PlaneFrames.TailRead | dos_sender32/main.c:1131-1133 | and a tail frame to its padded record |
| WireFormat.TailFields | dos_sender32/main.c:1121-1132 | kind, flags, window, place, file and offset of a tail frame |
| PlaneReception.BasisReceived | android_receiver/app/src/main/java/org/dosfer/receiver/SessionStore.java:72-78 | the receiver takes basis symbol i of a group for basis i, valid, and its payload is record i, the only record bit i of its coefficient selects |
| PlaneReception.ParityReceived | android_receiver/app/src/main/java/org/dosfer/receiver/SessionStore.java:72-76 | the parity symbol is taken for the parity of its width, and carries the XOR of the records its coefficient selects: all of them |
| PlaneReception.RecordPlace | android_receiver/app/src/main/java/org/dosfer/receiver/SessionStore.java:77-83 | so record i goes to index start + i, at place window index + i |
| PlaneReception.ValidPlaneIs | android_receiver/app/src/main/java/org/dosfer/receiver/SessionStore.java:73-75 | the plane frames the receiver takes, listed by width, coefficient and flags |
| PlaneReception.FirstOpens | android_receiver/app/src/main/java/org/dosfer/receiver/SessionStore.java:112-116 | the first symbol of a group opens a session |
| PlaneReception.LostSymbol | android_receiver/app/src/main/java/org/dosfer/receiver/SessionStore.java:167-190 | at rest the parity symbol and all basis symbols but one give the missing record |
| PlaneReception.ReceiveGroup | android_receiver/app/src/main/java/org/dosfer/receiver/SessionStore.java:47-97 | whatever symbols of a group come, in any order and any number of times, each is filed and its record there; when the last was stored, parity and all basis symbols but one give every record |
| PlaneTransfer.GroupAgrees | dos_sender32/main.c:651-693 | the groups of a schedule, overlapping ones included, all agree with one transfer: member i of group k is record start + i in its window and place |
| PlaneTransfer.RecordArrives | android_receiver/app/src/main/java/org/dosfer/receiver/SessionStore.java:182-190 | one basis symbol lost in every group of a transfer: the receiver at rest holds every record before the tails as it was sent, in its window and place |
| DerivedSymbols.WirePayload | dos_sender_legacy/src/sender.c:404-425 | a chain or stride-group parity carries on the wire the XOR of its members' wire payloads, for one to three members of any equal length |
| DerivedSymbols.ChainCrc | dos_sender_legacy/src/sender.c:321-327 | the CRC of a chain payload of two equally long members from their CRCs and the CRC of zeros |
| CrcShortcut.StepsAreProduct | dos_sender_legacy/src/sender.c:321-327 | steps of the register over zeros are a product with the steps of one |
| CrcShortcut.ZeroPayload | dos_sender_legacy/src/sender.c:321-323 | the checksum of 2904 zero bytes is the constant A15AD0F2 |
| CrcShortcut.ChainConstant | dos_sender_legacy/src/sender.c:321-327 | so the checksum a full chain frame gets without reading its payload is that of its payload |
| DerivedSymbols.DerivedSymbol | dos_sender_legacy/src/sender.c:593-618 | the XOR of the members' codewords, corrected by one block of header, is the parity symbol if and only if their number is odd or they are full: the condition the sender tests |
| DerivedSymbols.CorrectedPrefix | dos_sender_legacy/third_party/qrcodegen.c:1581-1623 | length prefix, terminator and pad bytes survive odd counts; for even counts the corrected prefix is right only at full length |
| RgbSchedule.GatheredSymbol | dos_sender_legacy/src/sender.c:553-618 | what was XORed up while the DATA frames were shown, corrected by the header difference, is the symbol of the block parity frame |
| Schedule.ClaimRangeExact | dos_sender32/main.c:601-628 | a claim takes width consecutive records of one window, overlapping only backwards, and is refused otherwise |
| Schedule.MemberPlace | dos_sender32/main.c:664-672 | member m of a claimed group sits at window index + m of the same window |
| Schedule.RefusedIsFinal | dos_sender32/main.c:601-628 | once a claim is refused no later record can form a group |
| Schedule.Covered | dos_sender32/main.c:601-628 | every record before the cut lies in some group |
| Schedule.TailsExactly | dos_sender32/main.c:1370-1382 | tails exist exactly when the last window is shorter than a group, and are exactly its records |
| SenderQueue.FullQueue | dos_sender32/main.c:596-649 | under the queue invariant, in which ready counts the READY slots exactly, no free slot and nothing in preparation means at least seven waiting groups |
| SenderQueue.NextGroup | dos_sender32/main.c:941-950 | the scan finds the group that follows the one played, so groups play in ordinal order and none is skipped |
| SenderQueue.ClaimKeepsQueue | dos_sender32/main.c:596-649 | a claim keeps the invariant: one slot filling at most, ready exact, the waiting ordinals without gap |
| SenderQueue.ReadyKeepsQueue | dos_sender32/main.c:801-815 | completing the group keeps the queue invariant |
| SenderQueue.HandoffKeepsQueue | dos_sender32/main.c:1071-1099 | so does the handoff to the next group |
| SenderQueue.ReleaseKeepsQueue | dos_sender32/main.c:1385-1398 | and the release of the last one |
| SenderGroups.HistoryEntry | dos_sender32/main.c:581-594 | the history ring returns the last three records at their global indexes |
| SenderGroups.ClaimExact | dos_sender32/main.c:596-649 | a successful claim is exactly the next group of the schedule |
| SenderWork.BeginTakes | dos_sender32/main.c:660-693 | each basis step takes the right record, overlap members being identical to the records sent before |
| SenderWork.DeltaKeeps | dos_sender32/main.c:713-726 | a bounded delta chunk keeps raster = template XOR scatter(previous codewords) |
| SenderWork.StoredRaster | dos_sender32/main.c:744-760 | at the store step the working raster is the image of the member's frame |
| SenderWork.PatchesReady | dos_sender32/main.c:763-798 | the patch list stored with a complete group is its parity correction |
| SenderScreen.StoreKeepsSlot | dos_sender32/main.c:564-579 | uploading a member keeps every resident plane of the slot right and the rest white |
| SenderScreen.ToggleKeepsSlot | dos_sender32/main.c:972-997 | applying or restoring a correction turns a plain slot into a corrected one and back |
| SenderScreen.HeldSymbol | dos_sender32/main.c:999-1064 | a slot that holds a group composes, under the mask of a symbol, to the picture of that symbol's frame |
| SenderScreen.HiddenWrite | dos_sender32/host_pipeline_selftest.c:57-67 | a write that does not touch what the mask shows leaves the composed raster alone |
| SenderLoop.StepKeeps | dos_sender32/main.c:651-818 | one producer step keeps the invariant of all reachable states and never fails |
| SenderMain.TickKeeps | dos_sender32/main.c:999-1100 | one playback tick keeps it and never fails |
| SenderMain.TailKeeps | dos_sender32/main.c:1114-1142 | a tail frame and the release behind it keep it |
| SenderProgress.StepLess | dos_sender32/main.c:651-818 | every producer step lowers the measure of the work left |
| SenderProgress.IterateLess | dos_sender32/main.c:1336-1411 | an iteration never raises the measure, and lowers it whenever a deadline was due |
| SenderSafety.EveryRunIsSafe | dos_sender32/host_pipeline_selftest.c:57-67 | under every clock no step fails, no write ever changes the shown raster, symbols appear in schedule order and each shows the picture of its own frame |
| SenderSafety.EveryRunEnds | dos_sender32/main.c:1327-1411 | once enough deadlines have fallen due the run has ended with the whole schedule shown |
| SenderSafety.EveryRecordShown | dos_sender32/main.c:892-929 | that schedule shows every record index of the transfer in some basis symbol or tail |
| SenderSafety.SomeConfig | dos_sender32/main.c:1240-1288 | configurations as the theorems assume them exist |
| SenderMachine.Machine.Claim | dos_sender32/main.c:596-649 | the in-place claim, scan loop included, does what the claim function says, or changes nothing |
| SenderMachine.Machine.StreamNext | dos_sender32/main.c:892-929 | the next record enters the three-record ring |
| SenderMachine.Machine.BeginPlane | dos_sender32/main.c:660-693 | record, parity accumulation, keystream cache, wire frame and a fresh encoder |
| SenderMachine.Machine.EncodePlane | dos_sender32/main.c:695-711 | up to five blocks of the incremental encoder |
| SenderMachine.Machine.DeltaPlane | dos_sender32/main.c:713-726 | one delta chunk on the shared buffers |
| SenderMachine.Machine.MatrixPlane | dos_sender32/main.c:728-742 | the first raster from scratch |
| SenderMachine.Machine.StorePlane | dos_sender32/main.c:744-760 | the upload and its stage |
| SenderMachine.Machine.FinishGroup | dos_sender32/main.c:763-815 | the correction step; fails exactly when the patches do not fit |
| SenderMachine.Machine.GroupStep | dos_sender32/main.c:651-818 | prepare_group_step refines the step function |
| SenderMachine.Machine.BestReady | dos_sender32/main.c:931-950 | the scan loop finds the ready slot of least ordinal above a bound |
| SenderMachine.Machine.PlaybackTick | dos_sender32/main.c:999-1100 | playback_tick refines the tick function |
| SenderMachine.Machine.ChooseTail | dos_sender32/main.c:1102-1112 | choose_tail_slot |
| SenderMachine.Machine.TailTurn | dos_sender32/main.c:1114-1142 | show_tail and the release of the covered group |
| SenderMachine.Machine.Iterate | dos_sender32/main.c:1336-1411 | one iteration of the main loop refines the iteration function |
| SenderMachine.Machine.constructor | dos_sender32/main.c:1240-1332 | a new object is in the initial state |
| SenderPlay.Transfer | dos_sender32/main.c:1327-1411 | the imperative sender under an arbitrary clock: its state is the run's state, so it is safe, and complete when done |
| StripeRuns.PrepareRuns | dos_sender_legacy/src/vga.c:603-639 | the analysis loop finds runs of at least the minimum length, in order and without overlap, whose codewords really have the recorded shape and rows; too many leave none |
| StripeRuns.CodewordSpots | dos_sender_legacy/src/vga.c:580-601 | the modules of a run codeword are two pixels in each of four consecutive rows |
| StripeRuns.RunIsRange | dos_sender_legacy/src/vga.c:1277-1307 | a run drawn as rows equals its codewords drawn module by module |
| StripeTables.ContributionRows | dos_sender_legacy/src/vga.c:708-723 | a lane contribution word is the pair of each row in its place |
| StripeTables.PhaseRows | dos_sender_legacy/src/vga.c:725-739 | the same for the two-row-shifted phase key |
| StripeTables.TablesAreTranspose | dos_sender_legacy/src/vga.c:741-756 | four table words XORed are the 4 by 4 transpose of two-bit pixels, without overlap |
| StripePlan.PrepareGroups | dos_sender_legacy/src/vga.c:657-706 | four-lane groups use every run at most once, with lanes that line up in one byte column |
| StripePlan.PreparePhases | dos_sender_legacy/src/vga.c:767-883 | phase-shifted groups use every unmarked run at most once, and the edge list is exactly the rows the groups leave out |
| StripePlan.PrepareTriples | dos_sender_legacy/src/vga.c:885-919 | triples of the runs that are left |
| StripeKernels.PrepareTables | dos_sender_legacy/src/vga.c:741-756 | the table loops enter every contribution |
| StripeKernels.ExactKernel | dos_sender_legacy/src/vga.c:2078-2096 | the group kernel XORs the rows of its four lanes |
| StripeKernels.PhaseKernel | dos_sender_legacy/src/vga.c:2098-2120 | the phase kernel XORs the common rows of four shifted lanes |
| StripeKernels.TripleKernel | dos_sender_legacy/src/vga.c:2122-2140 | the triple kernel XORs the rows of three lanes |
| StripeKernels.RunTableKernel | dos_sender_legacy/src/vga.c:2142-2156 | the single-run table kernel |
| StripeKernels.RunKernel | dos_sender_legacy/src/vga.c:2142-2156 | the single-run kernel without a table |
| StripeScatter.EdgeKernel | dos_sender_legacy/src/vga.c:2158-2174 | the edge recipes XOR the rows the phase kernel leaves out |
| StripeScatter.PhaseSplit | dos_sender_legacy/src/vga.c:767-883 | a lane is the disjoint union of its common and its edge rows |
| StripeScatter.KindIsOwners | dos_sender_legacy/src/vga.c:2176-2229 | the runs marked with one kind are exactly the lanes of that kind's groups, each once |
| StripeScatter.AllDrawn | dos_sender_legacy/src/vga.c:2176-2229 | ranges outside runs, single runs, groups, phases and triples together are all codewords once |
| StripeScatter.Prepare | dos_sender_legacy/src/vga.c:922-945 | the prepared tables satisfy all that drawing needs, for every paired map |
| StripeScatter.ScatterPhased | dos_sender_legacy/src/vga.c:2176-2229 | for every paired map: on success the raster is XORed with exactly the reference scatter; on refusal it is untouched |
| StripeScatter.ScatterGrouped | dos_sender_legacy/src/vga.c:2231-2269 | with four-lane groups alone: the reference scatter again, refused only without runs or groups |
| StripeScatter.ScatterRuns | dos_sender_legacy/src/vga.c:2289-2306 | with runs alone: the reference scatter |
| StripeScatter.ScatterStripe | dos_sender_legacy/src/vga.c:2271-2310 | whichever path is taken, success is the reference scatter; refused if and only if the map has shifted groups and no four-lane group, and then nothing is drawn |
| StripeScatter.ScatterRgb3 | dos_sender_legacy/src/vga.c:2271-2310 | the same for three codeword streams on three rasters |
| Pages.DrawStatus | dos_sender_legacy/src/vga.c:423-444 | the status text changes status rows only |
| Placement.StatusPixel | dos_sender_legacy/src/vga.c:423-444 | a status pixel differs from its background exactly where the glyph has a bit; the background is white unless inverted |
| Placement.StripIs | dos_sender_legacy/src/vga.c:159-177 | the strip holds a byte exactly when one of its pixels belongs to the symbol or its quiet zone |
| Placement.ModuleInStrip | dos_sender_legacy/src/vga.c:922-945 | every module of a symbol lies in the strip |
| Pages.Display.CopyQr | dos_sender_legacy/src/vga.c:163-177 | a strip upload changes the strip of one page |
| Pages.Display.UploadBw | dos_sender_legacy/src/vga.c:511-536 | after a recurring upload the hidden page equals the shadow, whatever was copied |
| Pages.Display.UploadRgb3 | dos_sender_legacy/src/vga.c:538-574 | the same for three planes |
| Pages.Display.Flip | dos_sender_legacy/src/vga.c:511-574 | the page shown after a flip equals the shadow |
| Pages.Display.ShowFull | dos_sender_legacy/src/vga.c:2761-2832 | a full render shows the shadow and leaves it template XOR scatter(codewords) |
| Pages.Display.ApplyDirect | dos_sender_legacy/src/vga.c:1226-1241 | a template-direct render leaves every shadow strip template XOR scatter(codewords) |
| Pages.Display.ApplyDelta | dos_sender_legacy/src/vga.c:971-990 | a delta render from the codewords on screen does too |
| Pages.Display.ShowPrepared | dos_sender_legacy/src/vga.c:2788-2849 | showing a prepared shadow after any status change displays exactly the shadow, on either page |
| Pages.Display.Capture | dos_sender_legacy/src/vga.c:1215-1220 | capturing a template keeps what the shadow shows |
| PageRun.Play | dos_sender_legacy/src/vga.c:2761-2849 | after any sequence of full, direct and delta renders, status lines and flips the visible page carries the symbol drawn when it was last flipped |
| Producer.Producer.ReadPiece | dos_sender_legacy/src/producer.c:146-167 | the two-buffer loop returns the next bytes of the file in order and continues the checksum |
| Producer.Producer.Refill | dos_sender_legacy/src/producer.c:146-155 | refilling a buffer never overtakes bytes waiting in the other one |
| Producer.Producer.Next | dos_sender_legacy/src/producer.c:181-287 | each call produces exactly the next planned record, or ends, or fails where the plan stops |
| Producer.Producer.FillWindow | dos_sender_legacy/src/producer.c:289-300 | a window holds the next records in order; its result is false both at the end and when a record cannot be made within it |
| Producer.Producer.RunTransfer | dos_sender_legacy/src/sender.c:950-1069 | all planned records are shown if every entry can be sent, else those of whole windows; the transfer is announced complete if and only if every entry can be sent or the first window fills |
| Utf8.WellFormedKept | android_receiver/app/src/main/java/org/dosfer/receiver/Protocol.java:190-193 | encoding the decoded text again gives the bytes back if and only if they are well-formed UTF-8 |
| Utf8.AsciiKept | android_receiver/app/src/main/java/org/dosfer/receiver/Protocol.java:190 | a name is decoded byte for character if and only if no byte is above 127 |
| Utf8.EncodedKept | android_receiver/app/src/main/java/org/dosfer/receiver/Protocol.java:190-193 | every text comes back from its UTF-8 bytes |
| SafePaths.SafeExactly | android_receiver/app/src/main/java/org/dosfer/receiver/Protocol.java:188-197 | the path checks accept exactly the texts without control character, backslash and drive whose components between slashes are not empty, "." or "..", and take at most 255 bytes |
| SafePaths.AsciiSafe | android_receiver/app/src/main/java/org/dosfer/receiver/Protocol.java:188-197 | a path of ASCII bytes is accepted exactly when it meets these conditions byte by byte |
| SafePaths.DosPathSafe | android_receiver/app/src/main/java/org/dosfer/receiver/Protocol.java:188-197 | every path of DOS short names is accepted and keeps its spelling |
| Reconstructor.TrailsSafe | android_receiver/app/src/main/java/org/dosfer/receiver/Protocol.java:188-197 | bytes 80 to BF alone make a safe path if and only if there are at most 85: each is re-encoded as three |
| Reconstructor.HighByteLost | android_receiver/app/src/main/java/org/dosfer/receiver/Protocol.java:188-197 | the name 82 alone is accepted and created as U+FFFD |
| Reconstructor.Interpreter.Absorb | android_receiver/app/src/main/java/org/dosfer/receiver/Reconstructor.java:25-37 | one record has exactly the specified effect, or the exception it raises keeps the finished outputs |
| Reconstructor.Interpreter.WriteData | android_receiver/app/src/main/java/org/dosfer/receiver/Reconstructor.java:31 | a data record is written only to the open file at the next offset |
| Reconstructor.Interpreter.EndFile | android_receiver/app/src/main/java/org/dosfer/receiver/Reconstructor.java:32-34 | a file is finished only with its declared size and checksum |
| Reconstructor.Reconstruct | android_receiver/app/src/main/java/org/dosfer/receiver/Reconstructor.java:21-40 | the loop over stored frames reports what the record interpreter reports |
| SafePaths.OnlyGoodPaths | android_receiver/app/src/main/java/org/dosfer/receiver/Reconstructor.java:21-40 | whatever frames arrive, nothing is created under a path that breaks those conditions |
| FileTransfer.CarriedFed | android_receiver/app/src/main/java/org/dosfer/receiver/Reconstructor.java:24-26 | frames that carry the producer's payloads feed the interpreter the producer's records |
| FileTransfer.EndToEnd | android_receiver/app/src/main/java/org/dosfer/receiver/Reconstructor.java:21-40 | the transfer is complete if and only if every entry could be sent, every path is safe once decoded and the volume is below 2^32; then the outputs are the selection, contents byte for byte and names decoded as UTF-8 |
| FileTransfer.Transfer | dos_sender_legacy/src/producer.c:181-300 | producer, framing, parsing and reconstruction one after the other satisfy the same condition, and the sender announces completion under its own |
| SafePaths.DosTransfer | dos_sender_legacy/src/producer.c:181-300 | a selection of DOS names whose files stay as they are arrives whole, name by name and byte by byte, if and only if it is below 2^32 bytes |
| RecordStream.Stream.RingRead | dos_sender32/main.c:851-872 | the disk ring returns the bytes of the file in order, fewer than asked for only at its end |
| RecordStream.Stream.Next | dos_sender32/main.c:892-929 | each call gives exactly the next planned record, padded, or nothing at the end |
| RecordStream.TotalIs | dos_sender32/main.c:849-881 | the announced number of records is the number the stream gives |
| RecordStream.ReadAll | dos_sender32/main.c:892-929 | the whole stream of a file: as many records as announced, each of the fixed size |
| RecordStream.FileComesOut | android_receiver/app/src/main/java/org/dosfer/receiver/Reconstructor.java:21-40 | the records of the protected-mode sender, cut back by the receiver, reconstruct to the file byte for byte under its decoded name, if and only if that name is safe |
| WindowRepair.Transmit | dos_sender_legacy/src/sender.c:807-862 | the transmit loops show, in every round, the frames with the overlapping parities, anchors and group parities their positions call for, or a selection alone |
| WindowRepair.SelectedShown | dos_sender_legacy/src/sender.c:807-862 | a rescue round shows the selected frames and nothing else |
| WindowRepair.HalvesShown | dos_sender_legacy/src/sender.c:840-850 | with wider chains the parity of every two neighbouring halves is shown, the last one cut at the end of the window |
| WindowRepair.HalvesRecovered | android_receiver/app/src/main/java/org/dosfer/receiver/SessionStore.java:150-166 | one frame lost in every half but one: the store at rest holds the whole window as it was sent |
| WindowRepair.GroupsShown | dos_sender_legacy/src/sender.c:852-859 | the parity of every group is shown, the last group included |
| WindowRepair.GroupsRecovered | android_receiver/app/src/main/java/org/dosfer/receiver/SessionStore.java:150-166 | one frame lost in every group: the store at rest holds the whole window as it was sent |
| WindowRepair.PairsShown | dos_sender_legacy/src/sender.c:840-850 | with width 2 every record and every pair of neighbours is shown |
| WindowRepair.ChainsClose | android_receiver/app/src/main/java/org/dosfer/receiver/SessionStore.java:143-149 | any one record and all chains of a window close to the whole window |
| WindowRepair.ChainWindowRecovered | android_receiver/app/src/main/java/org/dosfer/receiver/SessionStore.java:182-190 | so the store at rest holds every record of the window as it was sent |
| RgbSchedule.Accumulator.Add | dos_sender_legacy/src/sender.c:564-584 | accumulating a batch never refuses, extends one group per channel by the frame three further on, and XORs up its codewords and header |
| RgbSchedule.RgbWindow | dos_sender_legacy/src/sender.c:671-738 | the RGB3 loop shows, block by block, up to three images and one image of stride-3 parities, each gathered from exactly its group |
| RgbSchedule.GroupsPartition | dos_sender_legacy/src/sender.c:696-738 | every frame from the first on lies in exactly one stride-3 group, inside the window |
| WindowRepair.BlockCloses | android_receiver/app/src/main/java/org/dosfer/receiver/SessionStore.java:150-166 | a block whose parities and all images but one are known is known |
| WindowRepair.ImagesRecovered | android_receiver/app/src/main/java/org/dosfer/receiver/SessionStore.java:150-166 | one DATA image lost in every block of the window: the store at rest holds all frames as they were sent |
| WindowReception.DataReceived | dos_sender_legacy/src/sender.c:438-445 | a DATA frame, shown for the first time or again, reads back at the receiver and opens a session |
| WindowReception.ChainReceived | dos_sender_legacy/src/sender.c:285-352 | the chain frame of two neighbours reads back at the receiver as kind 4 with both lengths, opens a session, and is true to the records |
| WindowReception.BlockReceived | dos_sender_legacy/src/sender.c:369-390 | so does the parity of neighbours, as a plain block of its members |
| WindowReception.StrideReceived | dos_sender_legacy/src/sender.c:593-604 | and the parity of members a stride apart, as a group block |
| WindowReception.Deliver | android_receiver/app/src/main/java/org/dosfer/receiver/SessionStore.java:47-97 | frames of a window, in any order and any number of times: each is stored or known already and is among the files afterwards |
| WindowReception.ChainWindowArrives | android_receiver/app/src/main/java/org/dosfer/receiver/SessionStore.java:182-190 | with C2, the sender's chain frames and any one record give the whole window |
| WindowReception.HalfWindowArrives | android_receiver/app/src/main/java/org/dosfer/receiver/SessionStore.java:182-190 | with wider chains, the sender's parity frames give one lost record in every half but one |
| WindowReception.GroupWindowArrives | android_receiver/app/src/main/java/org/dosfer/receiver/SessionStore.java:182-190 | with groups, the sender's parity frames give one lost record in every group |
| WindowReception.ImageWindowArrives | android_receiver/app/src/main/java/org/dosfer/receiver/SessionStore.java:182-190 | in colour mode, the sender's stride parities give one lost image in every block |
| Timer.PhaseIsTime | dos_sender32/timing32.c:37-49 | for every status byte: in modes 2, 3, 6 and 7 the phase is the clocks since the last wrap, sixteen to a unit, and zero in the others |
| Timer.Clock.Ticks | dos_sender32/timing32.c:23-79 | one reading of tick counter, count and status: the clock never goes backwards and grows by the counted ticks, a pending one added or paid back, across midnight and 32-bit wrap-around |
| Timer.CountedIsSeen | dos_sender32/timing32.c:51-52 | the midnight formula gives the ticks elapsed for readings less than a day apart |
| Timer.PendingNext | dos_sender32/timing32.c:54-71 | the pending flag never claims more than is outstanding, and with close readings exactly that |
| Timer.Watch | dos_sender32/timing32.c:23-79 | over any run of readings the clock is the elapsed time up to one tick for interrupts outstanding at the ends; exact with readings less than a tick apart |
| Timer.WholeMilliseconds | dos_sender32/timing32.c:81-85 | from any start, across the wrap of the 32-bit clock, the split formula is the floor of the exact quotient and does not overflow |
| Timer.WaitIsExact | dos_sender32/timing32.c:87-92 | waiting ends at the first unit at which the milliseconds have elapsed, from any start |
| Timer.WaitInClocks | dos_sender32/timing32.c:87-92 | in clocks of the 1193182 Hz chip a wait is never short, and too long by at most a unit and two clocks a second |
| Timer.DayInClocks | dos_sender32/timing32.c:5-7 | a tick is 65536 clocks of the chip and a day of ticks a day, up to three ticks |
| Yuv.Shared | android_receiver/app/src/main/java/org/dosfer/receiver/Rgb3Yuv.java:161-203 | a pixel computed with shared chroma is the plain formula at its position |
| Yuv.ConvertBand | android_receiver/app/src/main/java/org/dosfer/receiver/Rgb3Yuv.java:145-208 | one band: lone first column, pairs, lone last column; no position is written twice |
| Yuv.Convert | android_receiver/app/src/main/java/org/dosfer/receiver/Rgb3Yuv.java:145-210 | every output position is written exactly once with the plain formula's value, or the last pixel cannot be read |
| Yuv.Convert420 | android_receiver/app/src/main/java/org/dosfer/receiver/Rgb3Yuv.java:128-227 | succeeds if and only if the geometry is accepted and the samples of the last pixel are there; then every pixel is within 0.8 of the limited-range BT.601 colour of its own luma and shared chroma samples; refused geometry leaves the output alone |
| Yuv.Corners | android_receiver/app/src/main/java/org/dosfer/receiver/Rgb3Yuv.java:17-41 | the eight corner colours come back from their standard triples |

## Left out

- Mask choice, function patterns and the order in which drawCodewords visits the modules: the modules of a symbol are given, and that two symbols of one mask differ in the data modules of differing codeword bits is the premise of SymbolImage.PicturesDiffer.
- SymbolImage.BuildImage: the modules are given as truth values, not packed in the bytes of the QR buffer; MatrixRaster.RasterFromMatrix reads them there.
- ReedSolomon.ComputeDivisor: for thirty check bytes, the only degree the V40-L encoder uses.
- Raster.DeltaRange: the two-codewords-per-iteration assembly form of the same loop is not modelled separately.
- V40L.PairInPlace: the four-byte accesses of the register step are modelled byte by byte in the order the comment gives; unaligned access is not modelled.
- SenderMachine.Machine.StreamNext: takes the next of the records that module RecordStream produces; that the file is read on demand between display steps is not modelled.
- RecordStream.Stream.Next: the file keeps its content while it is sent; a file that shrinks, which `stream_next` reports as a failure, is not modelled.
- SenderMachine.Machine.MatrixPlane: the matrix path is taken as template XOR scatter, which module SymbolImage proves of the picture of the modules.
- SenderMachine.Machine.PlaybackTick: deadlines are an arbitrary boolean per iteration, so every timing is covered, but how a deadline is computed and the statistics about intervals are not modelled.
- SenderMachine.Machine.TailTurn: palettes are not modelled; a tail is stated as four equal planes, which is what the normal palette shows while a tail is on screen.
- SenderSafety.EveryRunIsSafe: counters of 32 bits are natural numbers; a transfer has fewer than 2^32 records by its plan.
- /VERIFY, /DUMP, /DUMPEXIT, profiling, traces, keyboard, memory allocation failures and command-line parsing of the senders.
- Port input and output, retrace waits, CRTC registers, BIOS calls and the inline assembly: each kernel is the array loop its comments describe.
- StripeScatter.ScatterRgb3: the three colour planes are drawn one after the other instead of interleaved inside each kernel.
- StripeScatter.ScatterStripe: the check that the three codeword buffers share one segment offset is a parameter.
- Pages.Display.Flip: waiting for the earliest retrace is not modelled, only the order of writes and the page switch.
- DerivedSymbols.DerivedSymbol: the cache flags that decide whether a derived or a freshly encoded symbol is shown are not modelled; both are the same symbol.
- RgbSchedule.RgbWindow: the RGB3 schedule is modelled for whole windows with /RE:3; with chains, other group sizes, anchors, rescue rounds and repetitions it is not.
- RgbSchedule.Accumulator.Add: the codewords are XORed as whole strings; the four-byte steps of the loop are not modelled.
- PlaneTransfer.RecordArrives: the DATA tails are not part of it; their records are what Protocol.PaddedParses speaks of.
- WindowRepair.Transmit: hold times and display masks of rescue rounds are not modelled.
- SessionStore.SessionStore.Accept: a file always stores successfully; statistics, window maps and calibration text are left out.
- Vga.Vga.Correct: the verification hash kept beside the corrected plane is not modelled.
- SenderMachine.Machine.constructor: allocation failures at start-up are not modelled.
- Whether a plane frame's window bounds are checked with signed arithmetic is modelled with natural numbers.
- Producer.Producer.Next: an input error of the disk and a file that changes between the two checks are one flag per file; the directory scan that writes the manifest is not modelled.
- Producer.Producer.RunTransfer: replays, selections and cancelling by key are not modelled; every window is acknowledged.
- Reconstructor.Reconstruct: creation of parent directories, choice of unused names and failing output streams are not modelled; outputs are the list of directories and finished files.
- Reconstructor.Interpreter.Absorb: the same holds for each record.
- Utf8.WellFormedKept: the decoder follows the substitution of maximal subparts that the Unicode Standard recommends in section 3.9; the platform's own code is not part of this model.
- Timer.Clock.Ticks: the loop that repeats until two reads of the tick counter agree is taken as one consistent reading.
- Yuv.Convert420: what a failed conversion has written before it stops is not stated; the box-filter path for high-resolution captures and the level stretch are left out.
- Camera, preview, user interface, GPU path and the ZXing decoder.
- dos_sender/ (an older variant of the protected-mode sender) and dos_sender32/pipeline.c (unused by the build).
