# Firmware upload: a verified model

This project models how the foxBMS 2 host tool prepares an application binary and uploads it over CAN, and how the
bootloader on the microcontroller receives it. It follows the code, file by file, in four layers, and proves one
theorem through all of them.

* **Signatures.** `BitOps` and `Gf2Poly` are unsigned integers with bit operations and polynomials over GF(2).
  `Crc64` and `Crc64Loops` are the 64-bit signature in its Python and its C form, `CrcImage` the signatures of whole
  images, `OnBoardCrc` the loop that computes them on the microcontroller. `CrcTables` holds the two kinds of
  lookup-table generators, `Pec` the drivers that use the tables.
* **Image.** `Bytes`, `Csv` and `FirmwareImage` cut a binary into vector table and padded data, build the table of
  running signatures and read it back; `ImageRestore` says which binaries come back from what is uploaded.
* **Protocol.** `Protocol` has the frames and what the tool can observe. `Upload` holds the classes of the tool, with
  their loops; every method is proved to make exactly the run that a function of `UploadSpec` describes, on an
  arbitrary bus. `Exchanges` says for each of these functions when it succeeds, `Traces` in which order events follow
  each other; `UploadProps`, `Coverage`, `UploadSafety` and `UploadBounds` prove properties of whole runs.
* **Receiver.** `Device` is the embedded bootloader: its CAN callbacks and the turn of its main loop, in any
  interleaving. `DeviceSafety` proves what it keeps whatever is sent to it, `Reactions` what each frame and each turn
  does and leaves alone.

`World` puts tool and receiver together: which frames arrive, how often the main loop turns in between, what the flash
hardware does, and which of the tool's observations the receiver really caused. `Transfer`, `DataTransfer`,
`VectorTransfer` and `EndToEnd` prove what an upload that returns True has left behind, with losses of any kind;
`Refusal` that a refused signature is final; `Undisturbed`, `UndisturbedData` and `UndisturbedUpload` that an upload
without losses succeeds, `Existence` that there is one for every image. `Retries` and `VectorRetries` say when
repeating helps, `LostWord` when an upload recovers from one lost word; `Losses` constructs runs with one loss, and
`Turnless` one that leaves another program. `Pipeline` joins all of it with the preparation of the binary. `WatchList`
and `ErrorWindow` are the bookkeeping of the BMS shell and of the logger.

`dafny verify dfyconfig.toml` checks the whole project.

## What the proofs found

* The tool needs acknowledgements of two kinds only. An upload that returns True is right even if the
  acknowledgements of sub-sectors, commands and the vector table are late or made up; only a Yes to a signature and
  a reported state must have come from the receiver (`EndToEnd.UploadInstalls`).
* A word that is lost after its loop number was delivered is silently replaced by the next word that arrives
  (`Retries.LostWordShifts`). One wrong word is always caught by the signature (`Pipeline.OneWordCannotHide`);
  several are caught as far as the signature goes, so byte-for-byte equality is stated for runs without such a loss.
* An upload that loses exactly the word of loop c, in its first attempt, recovers exactly if the word that takes its
  place is the same (`LostWord.LosingOneWord`, for all such runs; `Losses.OneLostWord` shows that there is one for every
  loop of every image). With two or more attempts at a sub-sector that is: c is the last loop of the image; or c ends
  another sub-sector and its word equals the first word of that sub-sector; or c does not end one and the next word
  equals its own. With a single attempt it also takes a second pass, and c must be in the first sub-sector or be the
  last loop of an image of 2048 loops in one sector. When it recovers, the image is installed as without the loss.
* Byte-for-byte equality needs a turn of the main loop between any two events. A loop number that is repeated before the
  main loop has validated the sector clears the buffer (`Retries.RepeatClearsBuffer`). For an image of 1024 words that
  starts with 1 and the signature of 1, and has zeros up to its last word, there is an upload of two passes in which
  every frame arrives and the flash works, which returns True, and which leaves a program that starts with 0 and passes
  the check before it is started (`Turnless.AnotherProgram`).
* One lost acknowledgement can fail an upload for good. For every image of more than 1024 words, and any number of
  passes and attempts, there is a run that fails although every frame arrives and every other wait is answered
  (`Losses.OneMissedAcknowledgement`).
* The reason is that the receiver does not take again what it has left behind. A sub-sector before the loop that it
  expects is acknowledged again only where a word is missing, of a loop that ends a sub-sector or the image, for
  which the first word that is repeated is then taken (`Retries.LeftBehind`).
* Repeating passes under the best conditions, while loop c is next, succeeds exactly if the first sector can be
  completed and then has the signature of the image's first sector, whatever the receiver has stored before loop c
  (`Retries.RepeatingHelps`). It can be completed if c is at most 1024, or if the word of loop c is missing and c is the
  last loop of an image of 2048 loops in one sector; a missing word is replaced by word 1, unless it is the last. So if
  everything before loop c is right, a missing word must be equal to word 1 or be the last (`Retries.RightSoFar`), and
  if one word before loop c is wrong, nothing helps (`Retries.OneMayBeWrong`). A receiver does not report what it has
  stored, so the tool cannot tell these cases apart.
* Repeating the vector table succeeds exactly if the receiver still collects its words and has another attempt, or the
  first attempt already completes a table with the right signature. After a lost acknowledgement of the table or of its
  signature it never does; in the second case the tool returns False although the program is installed
  (`VectorRetries.VectorRepeatingHelps`, `VectorRetries.InstalledIsNotSeen`).
* A vector table with a zero word has its signature reported as valid and is then refused, so the upload returns True
  although nothing was installed (`UndisturbedUpload.UndisturbedUploadSucceeds`). On working hardware this is the only
  way in which a True upload leaves no program (`EndToEnd.UploadInstalls`, `EndToEnd.UploadOutcome`). Every binary of at
  most 24 bytes has such a vector table, and can be prepared (`ImageRestore.ShortHasZeroWord`,
  `ImageRestore.ShortIsPrepared`, `Pipeline.ShortIsRefused`).
* docs/software/bootloader/bootloader.rst:280 says that the bootloader waits for the same sector again after a
  signature mismatch. The code enters the error state (src/bootloader/engine/boot/boot.c:304-311), which only a reset
  command leaves (`DeviceSafety.ErrorForGood`). No repeat of the tool, on any bus, succeeds after it
  (`Refusal.RefusalIsFinal`); the model follows the code.
* The table generators are right for polynomials that are given with their leading bit; without it, or with bits above
  it, their tables are wrong (`CrcTables.TableExact`, an exact condition).
* A successful loop over sub-sectors from loop i has sent every loop exactly if i is one more than a multiple of 1024
  or its first sub-sector already reaches the last loop (`Coverage.SectorLoopsCover`). From any other start, such as
  from loop 2 to loop 2048, it leaves loops out and succeeds on every bus that answers (`Coverage.LoopsAreLeftOut`); its
  only caller starts at loop 1.
* Cutting a binary of fewer than 32 bytes into vector words moves the bytes after its last whole word. What is uploaded
  is the binary followed by zeros exactly if the binary has 32 bytes or more, or a multiple of 8, or only zeros after
  its last whole word (`ImageRestore.PreparedRestores`); the single byte 1 is moved (`ImageRestore.OneByteIsMoved`).

## Assumptions

* Memory maps are arbitrary, with sectors of positive multiples of 8 * 1024 bytes that fit the receiver's buffer of
  0x40000 bytes; tool and receiver have the same map. `Pipeline.ShippedMap` shows that the shipped map is one.
* The tool's wait for a signature sees only acknowledgements that the receiver has sent since the tool's previous wait,
  and a reported state is the answer to the latest request for it.
* The status that the tool is given is current: where it says that the bootloader is at its start, which makes the tool
  skip the reset, the receiver is idle and expects no loop yet. This is a precondition of every theorem about whole
  uploads and receivers.
* Statements about flash and vector table word for word are for runs in which no word is lost after its loop number
  and the main loop of the receiver makes at least one turn between any two events (`DataTransfer.IsFaithful`).
  The signature, and everything else that is said about an upload that returns True, needs neither.
* Callbacks and turns of the main loop are atomic. The code disables interrupts before it writes and validates a sector
  (src/bootloader/engine/boot/boot.c:127), but `CRC_SemiAutoCrcCalculation` enables them again
  (src/bootloader/driver/crc/crc.c:176), so that a frame could arrive during the calculation. The tool sends none then:
  after a signature it waits up to 120 s for the acknowledgement (cli/cmd_bootloader/bootloader_can.py:123-125), and
  the calculation gives up after 10 s (src/bootloader/driver/crc/crc.c:277-281).
* A flash write that reports success has been compared with the buffer, as FLASH_WriteFlashSector does; any other
  outcome may leave anything in that sector.

## Model

| member | source | states |
|---|---|---|
| Crc64Loops.GenerateCrc64 | tools/waf-tools/crc64_ti_impl.py:84-114 | for all 64-bit data and root, the 64 steps with the patched bits 0, 1, 3, 4 give, in swapped halves, the remainder of (root xor data) times x^64 modulo x^64+x^4+x^3+x+1; the result stays below 2^64 |
| Crc64Loops.UpdateWord | src/bootloader/driver/crc/vendor/crc64_calc.c:58-91 | the C function with 64 separate bits computes the same remainder, without the swaps |
| OnBoardCrc.CalculateCrc64 | src/bootloader/driver/crc/crc.c:327-354 | the on-board loop, which exchanges the halves around the C function word by word, computes the same signature of any words from any root as the tool |
| Crc64.SwapExpression | tools/waf-tools/crc64_ti_impl.py:86-87 | the shift, mask and or of the source exchange the two 32-bit halves |
| CrcImage.CrcInjective | tools/waf-tools/crc64_ti_impl.py:91-114 | two signatures are equal exactly if the xors of data and root are equal, so it is injective in each argument and crc(data, root) = crc(data xor root, 0) |
| CrcImage.CrcAdd | tools/waf-tools/crc64_ti_impl.py:93-114 | linearity over GF(2) in data and root together |
| CrcImage.ChainIsRemainder | tools/waf-tools/crc_bootloader.py:240-246 | the signature of any sequence of words is the polynomial remainder of the whole message times x^64 |
| CrcImage.ColumnIsRemainder | tools/waf-tools/crc_bootloader.py:257-279 | row k of the table is the remainder of the first k+1 words times x^64 |
| CrcImage.ColumnConcat | tools/waf-tools/crc_bootloader.py:257-279 | a column computed in pieces, each rooted at the result before it, is the column of the whole |
| CrcImage.ChainConcat | src/bootloader/engine/boot/boot.c:171-184 | the sector-wise signatures of the receiver, each rooted at the one before, give the signature of the whole program |
| CrcImage.ColumnAdd | tools/waf-tools/crc_bootloader.py:257-279 | the column of the word-wise xor of two images is the xor of their columns |
| CrcImage.ChainAdd | tools/waf-tools/crc_bootloader.py:240-246 | the signature of the word-wise xor of two images from the xor of two roots is the xor of their signatures |
| CrcImage.OneWordDetected | tools/waf-tools/crc_bootloader.py:258-280 | changing one word leaves the rows before it as they are and changes its own and every later row |
| CrcImage.OneWordChangesChain | tools/waf-tools/crc_bootloader.py:240-246 | changing one word changes the signature of the whole |
| CrcImage.ColumnDeterminesImage | tools/waf-tools/crc_bootloader.py:258-280 | two images with the same column are the same image |
| CrcImage.KnownSignature | tools/waf-tools/crc64_ti_impl.py:84-114 | the signature of the word 1 from the root 0 is 0x1B |
| CrcTables.PrecalculateCrcTable | tools/crc/crc_init.py:78-91 | the generator makes the 256 entries of the entry function, and fails exactly on widths below 8 |
| CrcTables.GenerateTable16 | tools/crc/crc-15_0xc599.c:71-88 | the 16-bit generator, with every assignment truncated, makes the low `width` bits of the same entries |
| CrcTables.EntryExact | tools/crc/crc_init.py:82-90 | entry i is i times x^width modulo the polynomial, for widths 8 to 16 |
| CrcTables.TableExact | tools/crc/crc_init.py:78-91 | for widths below 16 all entries are these remainders exactly if the polynomial has its leading bit at `width` and nothing above within 16 bits |
| CrcTables.GeneratorsAgree | tools/crc/crc-10_0x48f.c:71-88 | the truncating and the unbounded generator agree on every entry exactly if the polynomial has degree `width` |
| CrcTables.TruncatedEveryPass | tools/crc/crc-15_0xc599.c:75-86 | for any number of passes, a register that is cut to 16 bits after every pass is the unbounded register cut once at the end |
| CrcTables.NoBitIsLost | tools/crc/crc-15_0xc599.c:75-86 | with a polynomial of degree `width` below 16 and a register below 2^width, no pass loses a bit: both registers are the same, and stay below 2^width |
| CrcTables.EntryLinear | tools/crc/crc_init.py:78-91 | the table is linear under xor of indices |
| Pec.DriverStep | src/app/driver/afe/adi/common/ades183x/pec/adi_ades183x_pec.c:79-119 | one table step of the 16-bit driver is one byte of polynomial division |
| Pec.CalculatePec15 | src/app/driver/afe/ltc/common/ltc_pec.c:75-115 | for messages of any length the table-driven code is the remainder modulo 0xC599 of the message on top of the seed 0x10, moved up by one bit |
| Pec.CalculatePec10 | src/app/driver/afe/adi/common/ades183x/pec/adi_ades183x_pec.c:121-177 | the same for 0x48F and the seed 0x10, with the command counter as the last six bits of the message |
| Pec.KnownPec15 | src/app/driver/afe/ltc/common/ltc_pec.c:105-115 | the 15-bit code of the bytes 0x00 0x01 is 0x3D6E |
| Pec.KnownPec10 | src/app/driver/afe/adi/common/ades183x/pec/adi_ades183x_pec.c:150-177 | the 10-bit code of the bytes 0x00 0x01 in a frame to be sent is 0x17F |
| FirmwareImage.RoundUpToSectors | tools/waf-tools/crc_bootloader.py:157-170 | the application size is the least sum of leading sectors not below the binary size; it exits exactly if there is none |
| FirmwareImage.CheckAppSize | tools/waf-tools/crc_bootloader.py:284-311 | accepts exactly the sums of leading sectors |
| FirmwareImage.FillByteArray | tools/waf-tools/crc_bootloader.py:330-345 | appends exactly the missing zeros |
| FirmwareImage.VectorTableCrc | tools/waf-tools/crc_bootloader.py:235-247 | the signature of the four vector words, rooted at 0 |
| FirmwareImage.CreateCrcTable | tools/waf-tools/crc_bootloader.py:249-281 | the table of an image: a header and, for each word, its number, the word and the signature up to it |
| FirmwareImage.LookupTable | cli/cmd_bootloader/bootloader_binary_file.py:133-153 | reading row i back gives exactly word i and its signature, and raises beyond the last word |
| FirmwareImage.LookupReads | cli/cmd_bootloader/bootloader_binary_file.py:133-153 | in any table a row can be read exactly if it exists and its second and third text are 64-bit numbers, which are then the result |
| FirmwareImage.TableTexts | tools/waf-tools/crc_bootloader.py:256-279 | the header is the five column names; row i has five texts, which read back as i, word i and its signature in hexadecimal, and both again in decimal |
| FirmwareImage.Prepare | tools/waf-tools/crc_bootloader.py:149-189 | preparation fails exactly if the binary exceeds the flash (or both are empty), its second size check always passes, and its results describe the padded image |
| ImageRestore.PreparedRestores | tools/waf-tools/crc_bootloader.py:149-281 | for every binary that can be prepared: vector table and data words written out again are the binary followed only by zeros, exactly if it has 32 bytes or more, or a multiple of 8, or only zeros after its last whole word |
| ImageRestore.OneByteIsMoved | tools/waf-tools/crc_bootloader.py:323-327 | the binary of the single byte 1 is not among them: it comes back as byte 7 |
| ImageRestore.ZeroVectorWord | tools/waf-tools/crc_bootloader.py:323-328 | the vector table of a prepared binary has a zero word exactly if one of the first four groups of eight bytes is empty or all zeros |
| Csv.HexRoundTrip | cli/cmd_bootloader/bootloader_binary_file.py:143-153 | a number printed by `hex` is read back unchanged |
| Csv.DecRoundTrip | tools/waf-tools/crc_bootloader.py:272-278 | a number printed in decimal is read back unchanged |
| Csv.DigitsAreCanonical | tools/waf-tools/crc_bootloader.py:272-278 | printed numbers have lower-case digits, and no leading zero except zero itself, which is one digit |
| Csv.DigitsRead | cli/cmd_bootloader/bootloader_binary_file.py:143-153 | exactly the digits and the letters a to f in either case are read, each only where it is below the base |
| Csv.PrefixDropped | cli/cmd_bootloader/bootloader_binary_file.py:143-153 | the prefix 0x or 0X makes no difference, and is no number of its own |
| Bytes.BytesRoundTrip | tools/waf-tools/crc_bootloader.py:326 | cutting into big-endian numbers loses nothing |
| Upload.CanInterface.SendCrc | cli/cmd_bootloader/bootloader_can.py:93-134 | makes the specified run: the signature, one wait, received and valid kept apart |
| Upload.CanInterface.StartTransfer | cli/cmd_bootloader/bootloader_can.py:225-251 | makes the specified run on any bus |
| Upload.CanInterface.SendProgramInfo | cli/cmd_bootloader/bootloader_can.py:136-178 | makes the specified run on any bus |
| Upload.CanInterface.ResetBootloader | cli/cmd_bootloader/bootloader_can.py:253-295 | makes the specified run, polling until a state is reported |
| Upload.Bootloader.SendAndValidateVectorTable | cli/cmd_bootloader/bootloader.py:360-390 | makes the specified run on any bus |
| Upload.Bootloader.SendDataAsASubSector | cli/cmd_bootloader/bootloader.py:392-437 | makes the specified run, leaving by an exception where a row cannot be read |
| Upload.Bootloader.SendDataAsASector | cli/cmd_bootloader/bootloader.py:473-557 | makes the specified run: sub-sectors with their repeats, then one signature |
| Upload.Bootloader.GetSectorSize | cli/cmd_bootloader/bootloader.py:560-572 | finds the size of the sector that holds a loop, or None |
| Upload.Bootloader.SendAppData | cli/cmd_bootloader/bootloader.py:574-619 | makes the specified run over all sectors |
| Upload.Bootloader.SendPasses | cli/cmd_bootloader/bootloader.py:756-783 | makes the specified run: data until it succeeds once, the vector table after it |
| Upload.Bootloader.SendAppBinary | cli/cmd_bootloader/bootloader.py:702-794 | makes the specified run of the whole upload on any bus |
| Exchanges.TransferStarted | cli/cmd_bootloader/bootloader_can.py:225-251 | on any bus a transfer is started exactly if the command is acknowledged and the state read after it is that of waiting for the information; without the acknowledgement the state is not asked for |
| Exchanges.InformationAccepted | cli/cmd_bootloader/bootloader_can.py:136-178 | on any bus the program information is accepted exactly if it is answered with Yes and the state read after it is that of waiting for data loops |
| Exchanges.PollStops | cli/cmd_bootloader/bootloader_can.py:279-283 | after a reset the state is asked for until the first answer, not once more, and at most as often as allowed |
| Exchanges.ResetSucceeds | cli/cmd_bootloader/bootloader_can.py:253-295 | a reset succeeds exactly if it is acknowledged, the first state reported is that of a bootloader at its start, and the number of loops read after it is 0 |
| Exchanges.HandshakeSucceeds | cli/cmd_bootloader/bootloader.py:647-754 | what leads to the data succeeds exactly if the status or the reset says that the bootloader is at its start and the four answers after it are right |
| Exchanges.FirstFrame | cli/cmd_bootloader/bootloader.py:677-754 | for every status: an exit with no frame exactly if it is incomplete; otherwise the first frame is the transfer command exactly if the boot state is Wait, the CAN state NoCommunication and the loop 0, and else the reset command |
| Exchanges.VectorTableSucceeds | cli/cmd_bootloader/bootloader.py:360-390 | on any bus the vector table is accepted exactly if its words are acknowledged and its signature is answered with Yes |
| Exchanges.TriesStop | cli/cmd_bootloader/bootloader.py:504-531 | a sub-sector is sent until the first acknowledgement, and has failed exactly if all attempts were left unanswered; one that cannot be read is an exit at once |
| Exchanges.SignatureJudged | cli/cmd_bootloader/bootloader_can.py:93-134 | a signature counts as good exactly if it is answered with Yes, and as answered also by a No |
| Exchanges.VectorTableEvents | cli/cmd_bootloader/bootloader.py:360-390 | the four words are sent in order and acknowledged together; only then their signature is sent |
| Exchanges.SubSectorEnds | cli/cmd_bootloader/bootloader.py:439-471 | a sub-sector from any loop ends at the next multiple of 1024 or at the last loop; an index below 1 or fewer than 1024 loops are an exit |
| Exchanges.SectorEnds | cli/cmd_bootloader/bootloader.py:473-557 | a sector ends after its size or at the last loop, whichever comes first, and the signature sent is that of the row of this loop |
| Exchanges.SectorSizeExact | cli/cmd_bootloader/bootloader.py:560-572 | for any map the size is not found exactly for loops outside it |
| Exchanges.AppDataEnds | cli/cmd_bootloader/bootloader.py:574-619 | outside the loops of the image or of the map the data part ends without an event: an exit before loop 1, success behind the last loop, a failure outside the map |
| Exchanges.SilenceFails | cli/cmd_bootloader/bootloader.py:702-794 | on a silent bus every upload with a complete status fails after one frame and one wait |
| UploadProps.PreparedDescribes | tools/waf-tools/crc_bootloader.py:157-195 | what preparation produces is what the upload assumes: whole sectors, a row for each loop, signatures that match |
| UploadProps.SectorSizeFound | cli/cmd_bootloader/bootloader.py:560-572 | every loop of a prepared image is looked up to the size of the sector it is in |
| UploadProps.SubSectorInside | cli/cmd_bootloader/bootloader.py:439-471 | a sub-sector is 1024 loops and does not cross the end of its sector |
| Coverage.SectorLoopsCover | cli/cmd_bootloader/bootloader.py:494-531 | a successful run over the sub-sectors from loop i to the last has sent all loops in between exactly if i is one more than a multiple of 1024, or the first sub-sector already reaches the last loop |
| Coverage.LoopsAreLeftOut | cli/cmd_bootloader/bootloader.py:494-531 | from every other start, on every bus that answers, the run succeeds and has left out a loop |
| UploadProps.AppDataDelivers | cli/cmd_bootloader/bootloader.py:574-619 | from the start of any sector, on any bus, the data part never leaves by an exception, and on success the acknowledged frames are the loops of every sector followed by its one signature, the running one at its last loop |
| UploadProps.AppDataCovers | cli/cmd_bootloader/bootloader.py:574-619 | in a successful pass the acknowledged loops are 1 to N, each once, in order, each with its word |
| UploadProps.ExpectedInOrder | cli/cmd_bootloader/bootloader.py:494-540 | the sectors' frames one after another number the words 1 to N |
| UploadSafety.PayloadAfterReady | cli/cmd_bootloader/bootloader.py:647-675 | no word, loop number or signature is sent before the receiver was reported to wait for data loops |
| UploadSafety.TransferStartsAtTheBeginning | cli/cmd_bootloader/bootloader.py:737-754 | a transfer is only started where the last reports were Wait, NoCommunication and loop 0, at first or after a reset |
| UploadSafety.HandshakeSafe | cli/cmd_bootloader/bootloader_can.py:136-295 | the same for the handshakes alone, which end successfully only with the report that data loops are awaited |
| UploadSafety.PassesSplit | cli/cmd_bootloader/bootloader.py:756-783 | after a successful data part the rest of a run is that of the vector table alone, with the passes that are left |
| UploadSafety.PassesPhases | cli/cmd_bootloader/bootloader.py:756-794 | every run is a data phase and then a vector phase; the second is only reached through one complete pass, the last of the first, and no loop number follows |
| UploadSafety.AppDataPhase | cli/cmd_bootloader/bootloader.py:534-548 | a successful data part had every sector signature answered Yes |
| UploadSafety.SuccessEndsAccepted | cli/cmd_bootloader/bootloader.py:785-794 | True is returned only if the last exchange was the vector table's signature answered Yes |
| Traces.UploadOrdered | cli/cmd_bootloader/bootloader.py:360-794 | in any run on any bus: every outcome of a wait directly follows the frame it belongs to and every frame but a word is directly followed by its wait or word; the program information is sent, with the right lengths, only directly after a report of waiting for it, and a signature only directly after the acknowledgement of what it signs; nothing else is asked for |
| UploadBounds.AppBinaryWithin | cli/cmd_bootloader/bootloader.py:702-794 | with t attempts and r passes any run sends at most r*t*N loop numbers, r*(t*N+4) words and r*(sectors+1) signatures |
| DeviceSafety.RxKeeps | src/bootloader/engine/can/can_cbs.c:83-557 | every callback, on any frame and any requested action in any state, keeps the receiver's invariant |
| DeviceSafety.PollKeeps | src/bootloader/engine/boot/boot.c:244-530 | every turn of the main loop, the start of a program included, with any behaviour of the flash, keeps it |
| DeviceSafety.WriteSectorSigns | src/bootloader/engine/boot/boot.c:152-169 | writing a sector leaves the sectors before it alone, whether it succeeds or not |
| DeviceSafety.AnyRunIsSigned | src/bootloader/engine/boot/boot.c:121-241 | after any frames from anyone, any interleaving and any flash failures, a receiver that has finished its data carries the signature of what its flash holds, a recorded vector table has its recorded signature, and where an application has been started there is a record, its length fits the flash, and that part of the flash and the recorded vector table have the recorded signatures |
| DeviceSafety.ErrorForGood | src/bootloader/engine/boot/boot.c:283-290 | from the error state only a reset command leads out; until then flash and record do not change |
| Reactions.CommandsAnswered | src/bootloader/engine/can/can_cbs.c:83-204 | for every command, state and acknowledgement: exactly when it is sent |
| Reactions.CommandsActed | src/bootloader/engine/can/can_cbs.c:83-204 | a command changes the communication state and nothing else; a transfer or a start is only accepted without communication, a reset always, and a question changes nothing |
| Reactions.InformationTaken | src/bootloader/engine/can/can_cbs.c:402-486 | the program information is accepted exactly by a receiver that waits for it, for at most 0x3E0000 bytes and the number of loops that belongs to them, and only then answered with Yes |
| Reactions.LoopTaken | src/bootloader/engine/can/can_cbs.c:488-557 | a loop number is taken exactly if it is the expected one, or 1 for the first, and the state allows one; the first of a sector clears the buffer and saves the position; otherwise nothing changes but an expected loop 0 to 1 |
| Reactions.WordStored | src/bootloader/engine/can/can_cbs.c:296-400 | a word after a loop number is stored at the current position and nowhere else; it is acknowledged exactly at the end of 1024 loops, and with Yes at the end of the program |
| Reactions.OtherWords | src/bootloader/engine/can/can_cbs.c:296-400 | after the data the words go to the vector table, of which the fourth is acknowledged; a word that does not fit the buffer is an error, any other is ignored |
| Reactions.SignatureTaken | src/bootloader/engine/can/can_cbs.c:206-294 | the signature of a sector is taken exactly after a word, when the sector is full or the last loop is reached |
| Reactions.SignatureBehind | src/bootloader/engine/can/can_cbs.c:206-294 | behind the last sector of the map it is taken after the first word |
| Reactions.VectorSignature | src/bootloader/engine/can/can_cbs.c:206-294 | the signature of the vector table is answered with Yes exactly if it is that of the words received; with No they are forgotten |
| Reactions.SectorAccepted | src/bootloader/engine/boot/boot.c:121-241 | a sector is accepted exactly if it fits, the flash works, and the signature over the buffer, rooted at the one on board, is the one that was sent; the flash then holds the buffer and the receiver has moved on |
| Reactions.SectorRefused | src/bootloader/engine/boot/boot.c:121-241 | otherwise it is in the error state; No is answered and the saved position restored, unless nothing could be written |
| Reactions.OtherSectorsStay | src/bootloader/engine/boot/boot.c:152-169 | whatever the flash does, no word outside the current sector changes |
| Reactions.ProgramInstalled | src/bootloader/engine/boot/boot.c:317-394 | the receiver restarts with a record of the program exactly if its vector table has no zero word and the flash works; otherwise it is in the error state |
| Reactions.LoadingTurn | src/bootloader/engine/boot/boot.c:292-440 | while loading, only a signature not yet validated, a valid vector table and a reset do something; communication states that do not belong to a transfer are an error |
| Reactions.OtherTurns | src/bootloader/engine/boot/boot.c:244-290 | the other turns follow the communication state; the error state is only left for a reset, and the started program for nothing |
| Reactions.StartTurn | src/bootloader/engine/boot/boot.c:442-530 | Yes is answered exactly if both signatures are right and the check may be made, and the bootloader is left exactly if the jump succeeds as well |
| Refusal.RefusalIsFinal | src/bootloader/engine/boot/boot.c:304-311 | once a turn of the main loop has not accepted the signature it found, no number of passes of the tool succeeds, on any bus and whatever is lost |
| Refusal.DeadPasses | cli/cmd_bootloader/bootloader.py:758-783 | the same from every state in which the receiver accepts no more sector signatures and none of its acceptances is on the way |
| Transfer.OnLoopInfo | src/bootloader/engine/can/can_cbs.c:520-553 | a loop number that the tool may send in sector j is only taken while the receiver's current sector has room |
| Transfer.OnValidate | src/bootloader/engine/boot/boot.c:121-241 | validating a sector accepts it and moves on, or ends in a state that accepts no further sector |
| Transfer.StoredLastSector | src/bootloader/engine/can/can_cbs.c:269-280 | when the last signature arrives although the last word is missing, the signature decides: equal signatures mean equal images |
| DataTransfer.StreamKept | cli/cmd_bootloader/bootloader.py:405-437 | the frames of sector j, however many are lost, cannot bring the receiver past the end of a sector that has not been validated |
| DataTransfer.CrcExchange | cli/cmd_bootloader/bootloader_can.py:115-134 | a sector signature that the tool sees accepted has been accepted by the receiver, for that sector or a later one |
| DataTransfer.AppDataKept | cli/cmd_bootloader/bootloader.py:574-619 | a successful data part has left the flash with the signature of the image, and with the image if no word was lost after its loop number and the main loop turned between any two events |
| VectorTransfer.VectorPassesKept | cli/cmd_bootloader/bootloader.py:766-770 | a successful run of the vector table leads to an installed program, one about to be, or a refusal |
| EndToEnd.ResetKept | cli/cmd_bootloader/bootloader_can.py:277-295 | a reset that the tool has seen succeed has left the receiver at its start |
| EndToEnd.UploadInstalls | cli/cmd_bootloader/bootloader.py:702-794 | whatever is lost, however the main loop interleaves and whatever the flash does, from any state of the receiver for which the tool's status is current: True means that the flash has the signature of the image and the vector table was found valid, and that a receiver in the error state got there by a zero word in the vector table it received or by a failing flash; flash and vector table are exactly those sent if no word was lost after its loop number and the main loop turned between any two events |
| EndToEnd.UploadOutcome | src/bootloader/engine/boot/boot.c:317-394 | after True, with a working flash, no word lost after its loop number and turns between any two events, one more turn leaves the program installed exactly as sent, or the error state, the second exactly if the vector table sent has a zero word |
| UndisturbedData.PairsSteps | src/bootloader/engine/can/can_cbs.c:296-400 | loops sent again up to the expected one are ignored, the others are stored, and the last of a sub-sector is acknowledged |
| UndisturbedData.PairsAfterWord | src/bootloader/engine/can/can_cbs.c:496-553 | the same where a word is missing, for which the first word sent is taken |
| UndisturbedData.CrcStep | src/bootloader/engine/boot/boot.c:121-241 | a completely stored sector is validated and its signature answered Yes |
| UndisturbedData.DataGoesThrough | cli/cmd_bootloader/bootloader.py:574-619 | with nothing lost and every wait answered by the receiver, the data part succeeds at the first attempt of everything, also where an earlier attempt has stored part of a first sub-sector |
| UndisturbedUpload.Resets | src/bootloader/engine/boot/boot.c:532-598 | a receiver told to reset is at its start after two turns, from every state but those of starting or having started a program; with a backup every word of the flash is 0 and the record gone, without one flash and record are unchanged |
| UndisturbedUpload.ResetFails | src/bootloader/engine/boot/boot.c:532-598 | when the flash cannot be erased the receiver restarts with its record and whatever is left in the flash; without privileges it is in the error state and has lost its record |
| UndisturbedUpload.ErasedIsRefused | src/bootloader/engine/boot/boot.c:470-598 | after a reset that has erased the flash the run command is answered with No |
| UndisturbedUpload.RunStarts | src/bootloader/engine/boot/boot.c:470-530 | a receiver at its start that gets the run command has started the program after two turns exactly if there is a record, its length fits the flash, that part of the flash has the recorded signature, and so has the recorded vector table; otherwise it has answered No and is at its start again; flash and record stay the same |
| UndisturbedUpload.OneWordIsRefused | src/bootloader/engine/boot/boot.c:486-504 | a flash that differs from the recorded program in one word is refused with No |
| UndisturbedUpload.ProgramInfoStep | src/bootloader/engine/can/can_cbs.c:402-486 | the program information is accepted exactly if the image is not larger than the flash |
| UndisturbedUpload.UndisturbedUploadSucceeds | cli/cmd_bootloader/bootloader.py:702-794 | with nothing lost the upload returns True exactly if the image fits; the program is then installed exactly if its vector table has no zero word |
| Existence.UndisturbedUploadExists | cli/cmd_bootloader/bootloader.py:702-794 | for every prepared image, from every state of the receiver but those of starting or having started a program, such an undisturbed run exists, and every observation in it is caused by the receiver |
| Retries.RepeatingHelps | cli/cmd_bootloader/bootloader.py:758-783 | whatever the receiver has stored before loop c, when loop c or only its word comes next: passes repeated under the best conditions succeed exactly if the first sector can be completed and what completes it has the signature that is sent for it; otherwise they fail, however many |
| Retries.RightSoFar | cli/cmd_bootloader/bootloader.py:758-783 | if everything before loop c is right that is: c is at most 1024, or the very last word of 2048 loops in one sector is missing; and a missing word is equal to word 1 or the last |
| Retries.OneMayBeWrong | cli/cmd_bootloader/bootloader.py:758-783 | if one word before loop c may be wrong and none is missing that is: c is at most 1024 and the word is right |
| LostWord.LosingOneWord | cli/cmd_bootloader/bootloader.py:702-794 | every upload that loses exactly the word of loop c, in the first attempt, returns True exactly if the word taken instead is the same and the sub-sector, or a pass that can still complete it, is repeated; then the image is installed |
| Losses.OneLostWord | cli/cmd_bootloader/bootloader.py:702-794 | there is such an upload for every image that fits, every loop, any limits and every state of the receiver but those of starting or having started a program |
| Retries.LeftBehind | cli/cmd_bootloader/bootloader.py:504-520 | when everything before loop c is stored, attempts at a sub-sector before c are acknowledged exactly if the word of loop c is missing and loop c ends a sub-sector or the image |
| Retries.LostWordShifts | src/bootloader/engine/can/can_cbs.c:496-553 | a word lost after its loop number is replaced by the next one, whatever loop number comes before it; the acknowledgement is the one that the lost word would have had |
| Retries.RepeatClearsBuffer | src/bootloader/engine/can/can_cbs.c:520-553 | a loop number that is repeated while a validation is pending clears the buffer but keeps the position in it |
| Turnless.ClearedIsInstalled | src/bootloader/engine/can/can_cbs.c:520-553 | for an image of 1024 words in one sector whose signature is that of zeros and its last word: an upload exists in which every frame arrives and the flash works, which returns True and installs zeros and the last word |
| Turnless.AnotherProgram | src/bootloader/engine/can/can_cbs.c:520-553 | such images exist, with any last word and any vector table without a zero word, and what is installed instead passes the check before a program is started |
| VectorRetries.VectorRepeatingHelps | cli/cmd_bootloader/bootloader.py:766-770 | from every state the receiver rests in, repeating only the vector table succeeds exactly if it still collects words, and there is a second attempt or the first completes a table with the signature that is sent |
| VectorRetries.InstalledIsNotSeen | cli/cmd_bootloader/bootloader.py:766-770 | a program whose installation the tool has not seen stays installed, and every repeat fails |
| Losses.OneMissedAcknowledgement | cli/cmd_bootloader/bootloader.py:702-794 | for every image of more than 1024 loops that fits, any limits and every state of the receiver but those of starting or having started a program: a run exists in which all frames arrive, the hardware works and all waits but one are answered by the receiver, and which fails |
| Pipeline.BinaryArrives | cli/cmd_bootloader/bootloader.py:702-794 | from raw binary to flash: after True the flash has the signature of the prepared data, and a receiver that has restarted with the program starts it; if no word was lost after its loop number and the main loop turned between any two events, what it starts is the binary byte for byte followed by zeros, exactly if the preparation can be undone for this binary |
| Pipeline.BinaryGoesThrough | cli/cmd_bootloader/bootloader.py:702-794 | with nothing lost, every prepared binary that is not too large is uploaded and started, unless its vector table has a zero word; what is started is the binary byte for byte exactly if the preparation can be undone |
| Pipeline.ShortIsRefused | src/bootloader/engine/boot/boot.c:317-394 | an undisturbed upload of a prepared binary of at most 24 bytes returns True and leaves the receiver in the error state |
| Pipeline.RecordedStarts | src/bootloader/engine/boot/boot.c:470-530 | what an upload leaves passes the check that is made before a program is started |
| Pipeline.OneWordCannotHide | src/bootloader/engine/boot/boot.c:486-504 | a flash that has the image's signature and differs from the image in at most one word is the image |
| Pipeline.ShippedMap | cli/cmd_bootloader/app_constants.py:56-82 | the shipped memory map meets every assumption made about maps |
| Pipeline.ShippedFits | src/bootloader/engine/can/can_cbs.c:463-464 | with the shipped map no prepared binary is too large for the receiver |
| WatchList.MessageList.AddMsg | cli/cmd_bms/bms_shell.py:98-115 | appends one request to the three lists, which stay equally long |
| WatchList.MessageList.LogCanMessage | cli/cmd_bms/bms_impl.py:79-128 | serves the oldest request for the id, in all three lists alike |
| WatchList.SessionConserves | cli/cmd_bms/bms_impl.py:87-128 | in any session, for each id, what was logged followed by what is pending is what was asked for, message by message in the order of the requests |
| WatchList.SessionCounts | cli/cmd_bms/bms_impl.py:87-128 | messages logged plus remaining positive counts are the positive counts requested |
| WatchList.MissedBound | cli/cmd_bms/bms_impl.py:122-125 | a message is only missed for a request for no messages, and each such request costs at most one |
| ErrorWindow.WindowIsLastHour | cli/cmd_log/log_impl.py:98-102 | pruning at every error keeps exactly the errors of the last 3600 s of the whole history |
| ErrorWindow.StopCondition | cli/cmd_bms/bms_impl.py:155-164 | the list reaches ten entries exactly at an error that is the tenth within a closed 3600 s window |
| ErrorWindow.AnyHour | cli/cmd_log/log_impl.py:98-108 | some closed 3600 s window holds ten of the first errors exactly if one of them was such a tenth |
| ErrorWindow.Receiver.Run | cli/cmd_log/log_impl.py:88-108 | the loop stops exactly at the first such error, and never keeps more than ten |

## Left out

- CAN frames as bytes, DBC files, clocks, sleeps, time-outs and progress bars: what a wait yields is an arbitrary reply, and the two printing variants of the repeat loop are one.
- SHA-256 sums, JSON and CSV files and NumPy around the image: the table is a sequence of rows of strings, and `int(text, 16)` is modelled on the digits that `hex` can print, not on white space or underscores.
- The receiver is modelled on values: `can_infoOfDataTransfer`, buffer, flash and states are one record that each callback replaces, so aliasing of the buffer with other RAM is not captured; programCurrentAddressU8 is not kept, because nothing reads it.
- Device.Poll: the automatic start after a time-out is left out. Once the application has been started, the model's receiver reacts to nothing any more; what the application does is not part of this model.
- Device.Validate: the hardware CRC module of the microcontroller, which signs the sectors, is taken to compute the signature that the on-board C function computes; its DMA set-up and time-outs are left out. A refused change of privilege leaves the sector with arbitrary content.
- Device.Install: the content of the backup of the bootloader's own vector table and the layout of the information sector are left out; whether there is a backup is kept. An update that fails leaves no record and no backup.
- Device.Reset: which of its steps fails is folded into three outcomes of the hardware. Without a backup working hardware erases nothing, as in the code.
- 32-bit wrap-around of loop numbers and lengths on the receiver: a prepared image of the shipped map has fewer than 2^19 loops.
- Pec.CalculatePec15: the literal tables of the drivers are taken to be the generators' output.
- CrcTables.TableExact: width 16 is not included in the exact condition, because its leading bit is outside the 16-bit polynomial; `CrcTables.EntryExact` covers it.
- Acknowledgements that arrive after the tool's next wait has begun are not matched to their request; only the two kinds named above are required to be fresh.
- Upload.CanInterface.SendCrc: a CAN error while receiving ends the tool and is not modelled.
- WatchList.MessageList.AddMsg: names that the message database does not know, ids of other types, and races between the two processes that share the lists; decoding and printing of a logged message.
- ErrorWindow.Receiver.Run: error times that go backwards, and the process life cycle around the loop.
- check_target, run_app and the version queries of the tool, the GUI and the build integration: plumbing that would add only easy members.
