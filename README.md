# StereoBasler_LightCrafter: a Dafny model of its sequential core

StereoBasler_LightCrafter is a stereo acquisition program. Two Basler
cameras are triggered by a TI DLPC350 LightCrafter projector that flashes
fringe patterns. This project models the three pieces of plain sequential
logic in that program and proves properties of them.

- `dlpc350_common.dfy`, module `Dlpc350Common`: the DLPC350 helpers of
  `LightCrafter/dlpc350_common.cpp`. These are the bit-reversal table
  `CMN_BitRevLUT`, the hex tables `CMN_Hex2Bin` and `CMN_Bin2Hex`, the
  hex-string parser `Hex2BinArray` (a method writing into an array), the
  bounds-checked pixel read `GetImagePixel`, the 32-bit power-of-two
  round-up `Next2Power` and `TrimString` (methods writing into an output
  buffer). The tables are their C initialisers, one constant per source
  line. Each is proved equal to an independent reference: the 8-bit
  reversal for `CMN_BitRevLUT` and the arithmetic digit value `HexValue`
  for `CMN_Hex2Bin`.
- `lc_flash.dfy`, module `LcFlash`: `LightCrafterFlash` of
  `LightCrafter/LC_Flash.cpp`. It fills the 64-entry image LUT `splashLut`
  from `"all"` or a `'-'`-separated list of flash image indices. Then it
  issues the fixed list of DLPC350 commands and returns -1 at the first
  that fails. Each vendor call is a `Command` value and the method returns
  the commands it issued as a trace. The k-th command's return code is
  `reply(k)`, an input. The specification is `Plan`, the list of commands
  issued when every one succeeds. The method is proved to issue a prefix
  of `Plan`, stopping exactly after the first failure.
- `stereo_capture.dfy`, module `StereoCapture`: the counters of the grab
  loop of `main` in `StereoBasler_LightCrafter.cpp`. These are `capture`,
  `cntImTrigg`, `cntImagesNum` and `cntCapt`, plus the keys `c`, `d` and
  ESC. The pure transition functions `OnGrab`, `OnKey` and `Iterate`
  specify the class `GrabLoop`, whose fields are those counters. Its
  methods update the fields as the loop does and record what the loop
  does outside (`imwrite`, `remove`, trigger mode and projector calls) as
  a list of `Event`s. Each `Saved` and `Removed` event carries the file
  name the program passes, so the delete key's `remove` of the right
  frames is recorded under the left-camera name the code builds.
  `OnKeyIntended` is the same step with the right frames removed under
  their saved names (see Findings).

C's `uint8`/`uint32` are `bv8`/`bv32`, so their wrap-around is Dafny's.
`unsigned int` is a subset type below 2^32 with explicit `% 2^32` where the
code wraps: the pixel offset, and `NumImgInFlash - 1`.

## Model

| member | source | states |
|---|---|---|
| Dlpc350Common.BitReverse | StereoBasler_LightCrafter/LightCrafter/dlpc350_common.cpp:47-64 | bit j of the result is bit 7 - j of the input, for every j < 8 |
| Dlpc350Common.CMN_BitRevLUT | StereoBasler_LightCrafter/LightCrafter/dlpc350_common.cpp:47-64 | every one of the 256 entries of the literal table is BitReverse of its index |
| Dlpc350Common.BitRevRowOf | StereoBasler_LightCrafter/LightCrafter/dlpc350_common.cpp:47-64 | the source line of the table that holds entry i (row i >> 4) reverses each of its sixteen indices |
| Dlpc350Common.BitRevLUTInvolution | StereoBasler_LightCrafter/LightCrafter/dlpc350_common.cpp:47-64 | looking a byte up twice in CMN_BitRevLUT gives it back, for all 256 bytes |
| Dlpc350Common.HexValue | StereoBasler_LightCrafter/LightCrafter/dlpc350_common.cpp:67-85 | the reference digit value: below 16 exactly for '0'..'9', 'A'..'F', 'a'..'f', and 0xFF exactly for every other byte |
| Dlpc350Common.CMN_Hex2Bin | StereoBasler_LightCrafter/LightCrafter/dlpc350_common.cpp:67-85 | each of the 256 entries of the literal table equals HexValue of its index: '0'..'9' give 0..9, both cases of A..F give 10..15, every other byte 0xFF |
| Dlpc350Common.Bin2HexSwapsDAndE | StereoBasler_LightCrafter/LightCrafter/dlpc350_common.cpp:66-85 | decoding CMN_Bin2Hex[v] with CMN_Hex2Bin gives v for 0..12 and 15, but 14 for 13 and 13 for 14 |
| Dlpc350Common.Bin2HexIntendedInverts | StereoBasler_LightCrafter/LightCrafter/dlpc350_common.cpp:66-85 | with "0123456789ABCDEF" every nibble encodes to a hex digit that decodes back to it |
| Dlpc350Common.HexDigits | StereoBasler_LightCrafter/LightCrafter/dlpc350_common.cpp:100-115 | the digit values read from a buffer are at most as many as its bytes, and each is below 16 |
| Dlpc350Common.Pack | StereoBasler_LightCrafter/LightCrafter/dlpc350_common.cpp:105-116 | digits pack into floor(digits / 2) bytes |
| Dlpc350Common.PackIndex | StereoBasler_LightCrafter/LightCrafter/dlpc350_common.cpp:105-113 | byte k is digit 2k shifted left by 4, or'ed with digit 2k + 1 |
| Dlpc350Common.HexDigitsAppend | StereoBasler_LightCrafter/LightCrafter/dlpc350_common.cpp:100-115 | the digits of a concatenation are the concatenation of the digits |
| Dlpc350Common.HexDigitsSkipsOtherBytes | StereoBasler_LightCrafter/LightCrafter/dlpc350_common.cpp:102-103 | a byte that is not a hex digit can be inserted anywhere without changing the digits read |
| Dlpc350Common.HexDigitsStep | StereoBasler_LightCrafter/LightCrafter/dlpc350_common.cpp:100-114 | one more byte adds its value when it is a hex digit and nothing otherwise |
| Dlpc350Common.PackStep | StereoBasler_LightCrafter/LightCrafter/dlpc350_common.cpp:105-113 | a digit at an even position adds no byte; one at an odd position completes the byte with the digit before it |
| Dlpc350Common.Hex2BinArray | StereoBasler_LightCrafter/LightCrafter/dlpc350_common.cpp:93-117 | returns floor(hex digits among the first Size bytes / 2); BinArray[..count] holds the digits packed pairwise, high nibble first; an odd last digit is dropped; BinArray from count on is unchanged |
| Dlpc350Common.EncodeHex | StereoBasler_LightCrafter/LightCrafter/dlpc350_common.cpp:66 | a 16-digit table encodes each byte as two characters, high nibble first |
| Dlpc350Common.DecodeEncoding | StereoBasler_LightCrafter/LightCrafter/dlpc350_common.cpp:66-116 | with a table that HexValue inverts, the digits read from an encoding are the nibbles of the bytes |
| Dlpc350Common.PackNibbles | StereoBasler_LightCrafter/LightCrafter/dlpc350_common.cpp:105-113 | packing the nibbles of a byte string gives the string back |
| Dlpc350Common.Hex2BinArrayInvertsIntendedEncoding | StereoBasler_LightCrafter/LightCrafter/dlpc350_common.cpp:66-117 | Hex2BinArray's result on the encoding of any byte string by "0123456789ABCDEF" is that byte string |
| Dlpc350Common.Hex2BinArrayMisreadsAsWrittenEncoding | StereoBasler_LightCrafter/LightCrafter/dlpc350_common.cpp:66-117 | with CMN_Bin2Hex as written, 0xDE encodes to "ED" and decodes to 0xED |
| Dlpc350Common.GetImagePixel | StereoBasler_LightCrafter/LightCrafter/dlpc350_common.cpp:128-134 | 0 whenever x >= Width or y >= Height; otherwise a value below 0x100 (one byte); which byte is given by GetImagePixelReadsRowMajor |
| Dlpc350Common.GetImagePixelReadsRowMajor | StereoBasler_LightCrafter/LightCrafter/dlpc350_common.cpp:128-134 | for a buffer of Height rows of LineWidth bytes, a pixel inside the image is byte 2x of row y |
| Dlpc350Common.Next2Power | StereoBasler_LightCrafter/LightCrafter/dlpc350_common.cpp:142-153 | for 1 <= v <= 2^31 a power of two at least v whose half is below v; 0 for v == 0 and for v > 2^31 (uint32 wrap-around) |
| Dlpc350Common.Next2PowerIsLeast | StereoBasler_LightCrafter/LightCrafter/dlpc350_common.cpp:142-153 | no power of two at least v is below Next2Power(v) |
| Dlpc350Common.Next2PowerFixesPowersOfTwo | StereoBasler_LightCrafter/LightCrafter/dlpc350_common.cpp:142-153 | every power of two 1 << k, k < 32, is left unchanged |
| Dlpc350Common.StrLen | StereoBasler_LightCrafter/LightCrafter/dlpc350_common.cpp:161 | the position of the first NUL: a NUL there and none before it |
| Dlpc350Common.TrimString | StereoBasler_LightCrafter/LightCrafter/dlpc350_common.cpp:156-184 | returns the length of the input without leading and trailing whitespace, writes that string to Output, NUL-terminates it there, and leaves the rest of Output alone |
| Dlpc350Common.SkipLeadingSpace | StereoBasler_LightCrafter/LightCrafter/dlpc350_common.cpp:163-168 | Start stops at the first non-space, so Input[Start..Length] is the input with its leading whitespace dropped |
| Dlpc350Common.SkipTrailingSpace | StereoBasler_LightCrafter/LightCrafter/dlpc350_common.cpp:170-175 | Length stops after the last non-space at or after Start, so Input[Start..Length] loses its trailing whitespace |
| Dlpc350Common.CopyTerminated | StereoBasler_LightCrafter/LightCrafter/dlpc350_common.cpp:178-181 | Output starts with the copied bytes followed by a NUL; the rest of Output is unchanged |
| Dlpc350Common.TrimLeftDrops | StereoBasler_LightCrafter/LightCrafter/dlpc350_common.cpp:163-168 | the left-trimmed string is a suffix after only whitespace, starting with a non-space |
| Dlpc350Common.TrimRightDrops | StereoBasler_LightCrafter/LightCrafter/dlpc350_common.cpp:170-175 | the right-trimmed string is a prefix before only whitespace, ending with a non-space |
| Dlpc350Common.TrimmedHasNoOuterSpace | StereoBasler_LightCrafter/LightCrafter/dlpc350_common.cpp:156-184 | a non-empty trimmed string neither starts nor ends with whitespace |
| Dlpc350Common.TrimmedEmptyIffAllSpace | StereoBasler_LightCrafter/LightCrafter/dlpc350_common.cpp:156-184 | the result is empty exactly when the input is all whitespace |
| Dlpc350Common.TrimmedIsSlice | StereoBasler_LightCrafter/LightCrafter/dlpc350_common.cpp:156-184 | the result is a slice Input[i..j] with only whitespace before i and after j |
| Dlpc350Common.TrimmedIsIdempotent | StereoBasler_LightCrafter/LightCrafter/dlpc350_common.cpp:156-184 | trimming twice is trimming once |
| LcFlash.DashIndex | StereoBasler_LightCrafter/LightCrafter/LC_Flash.cpp:61 | the position of the first '-', or the length when there is none |
| LcFlash.GetlineTokens | StereoBasler_LightCrafter/LightCrafter/LC_Flash.cpp:57-61 | getline(.., '-') reads no token from an empty sequence and at least one from a non-empty one, never more tokens than characters |
| LcFlash.GetlineTokensHaveNoDash | StereoBasler_LightCrafter/LightCrafter/LC_Flash.cpp:57-61 | no token read by getline(.., '-') contains a dash |
| LcFlash.GetlineTokensRejoin | StereoBasler_LightCrafter/LightCrafter/LC_Flash.cpp:57-61 | joining the tokens with dashes gives back the sequence, up to a dropped final dash |
| LcFlash.GetlineTokensCount | StereoBasler_LightCrafter/LightCrafter/LC_Flash.cpp:57-61 | a sequence that does not end with '-' yields one more token than it has dashes |
| LcFlash.ParseTokens | StereoBasler_LightCrafter/LightCrafter/LC_Flash.cpp:56-71 | a successful parse gives one LUT entry per token |
| LcFlash.ParseTokensMeaning | StereoBasler_LightCrafter/LightCrafter/LC_Flash.cpp:56-71 | the token loop fails exactly when some token exceeds NumImgInFlash - 1; otherwise the LUT has one entry per token, in order, each the token's value as an unsigned char |
| LcFlash.AllListsEveryImage | StereoBasler_LightCrafter/LightCrafter/LC_Flash.cpp:48-54 | "all" gives a LUT of NumImgInFlash entries with entry i equal to i |
| LcFlash.NoImagesRejectsNoIndex | StereoBasler_LightCrafter/LightCrafter/LC_Flash.cpp:43-67 | with no image in flash the unsigned bound wraps to UINT_MAX and no index is rejected |
| LcFlash.PlanShape | StereoBasler_LightCrafter/LightCrafter/LC_Flash.cpp:106-134 | the plan holds 11 fixed commands and one AddToPatLut per image and bitplane group, each with trigger 0, pattern 0, 8 bits, LED 7, buffer swap on |
| LcFlash.PlanIndices | StereoBasler_LightCrafter/LightCrafter/LC_Flash.cpp:75-221 | the order of the commands: SetMode(true), PatternDisplay(0), ClearPatLut, the LUT entries, SetPatternDisplayMode(false), SetPatternConfig, SetExposure_FramePeriod, SetPatternTriggerMode(1), SendPatLut, SendImageLut, ValidatePatLutData, PatternDisplay(2) |
| LcFlash.PatternConfigArguments | StereoBasler_LightCrafter/LightCrafter/LC_Flash.cpp:150-200 | SetPatternConfig gets (entries, repeat, 1 if repeat else entries, images) and SendImageLut gets the LUT and its length |
| LcFlash.IssuedIsDetermined | StereoBasler_LightCrafter/LightCrafter/LC_Flash.cpp:78-223 | a trace that stops after the first failure is unique: it is the reference issue order IssueFrom |
| LcFlash.Issue | StereoBasler_LightCrafter/LightCrafter/LC_Flash.cpp:78-82 | one vendor call: appended to the trace, succeeding exactly when its reply is not negative |
| LcFlash.BuildSplashLut | StereoBasler_LightCrafter/LightCrafter/LC_Flash.cpp:47-71 | reports an index error exactly when ImageLut does, and otherwise leaves splashLut[..numFlashImSeq] equal to ImageLut's LUT |
| LcFlash.ReadTokens | StereoBasler_LightCrafter/LightCrafter/LC_Flash.cpp:56-71 | the getline loop stores the token values in splashLut in order, or stops at the first index out of range, as ParseTokens says |
| LcFlash.ParseTokensStep | StereoBasler_LightCrafter/LightCrafter/LC_Flash.cpp:61-69 | a token within the bound takes the next of the 64 slots and the rest is parsed from there |
| LcFlash.AddLutEntries | StereoBasler_LightCrafter/LightCrafter/LC_Flash.cpp:119-134 | the nested loop issues the plan's LUT entries in order and stops after the first that fails |
| LcFlash.IssueSetup | StereoBasler_LightCrafter/LightCrafter/LC_Flash.cpp:75-134 | the first three commands and the LUT entries, stopping after the first failure |
| LcFlash.IssueConfig | StereoBasler_LightCrafter/LightCrafter/LC_Flash.cpp:138-182 | display mode, pattern configuration, periods and trigger mode, stopping after the first failure |
| LcFlash.IssueStart | StereoBasler_LightCrafter/LightCrafter/LC_Flash.cpp:186-223 | the last four commands, stopping after the first failure |
| LcFlash.IssueCommands | StereoBasler_LightCrafter/LightCrafter/LC_Flash.cpp:75-223 | the trace is a prefix of the plan that stops right after the first failing command; the result is 0 exactly when the whole plan was issued and succeeded, -1 otherwise |
| LcFlash.LightCrafterFlash | StereoBasler_LightCrafter/LightCrafter/LC_Flash.cpp:20-224 | -1 with no command when not connected or when an index is out of range; otherwise the plan of the parsed LUT, issued up to the first failure, with 0 exactly when every command succeeded |
| StereoCapture.FramesPerCapture | StereoBasler_LightCrafter/StereoBasler_LightCrafter.cpp:101-103 | n is at least 4: at least one projected image plus three |
| StereoCapture.Saves | StereoBasler_LightCrafter/StereoBasler_LightCrafter.cpp:153-159 | count frame pairs give 2 * count imwrite calls |
| StereoCapture.DeletesAsWritten | StereoBasler_LightCrafter/StereoBasler_LightCrafter.cpp:202-211 | deleting count frames as written makes 2 * count remove calls |
| StereoCapture.FramesPerCaptureMatchesProjection | StereoBasler_LightCrafter/StereoBasler_LightCrafter.cpp:101-103 | n is the number of images LightCrafterFlash projects from the same sequence, plus three |
| StereoCapture.SixFramesPerCapture | StereoBasler_LightCrafter/StereoBasler_LightCrafter.cpp:101-103 | n is 6 for "0-1-2" |
| StereoCapture.RightDeleteMissesEveryRightImage | StereoBasler_LightCrafter/StereoBasler_LightCrafter.cpp:155-210 | the right-camera name the delete key removes is never the name of a saved right frame, whatever the capture and index |
| StereoCapture.LeftAndRightImagesDiffer | StereoBasler_LightCrafter/StereoBasler_LightCrafter.cpp:155-210 | a left frame's name is never a right frame's name, either as saved or as removed |
| StereoCapture.DeletesRemoveWhatWasSaved | StereoBasler_LightCrafter/StereoBasler_LightCrafter.cpp:147-211 | with the right frames' real names, deleting n - 3 frames of a capture removes exactly the files that capture saved |
| StereoCapture.DeletesAsWrittenKeepRightImages | StereoBasler_LightCrafter/StereoBasler_LightCrafter.cpp:155-211 | as written, deleting a capture removes each of its left frames but none of its saved right frames |
| StereoCapture.DeletesAsWrittenRemoveLeftImage | StereoBasler_LightCrafter/StereoBasler_LightCrafter.cpp:202-207 | left frame k < count is among the files the delete loop removes |
| StereoCapture.SavesHoldFrames | StereoBasler_LightCrafter/StereoBasler_LightCrafter.cpp:153-159 | left and right frame k < count are among the files a capture saves |
| StereoCapture.DeletesAsWrittenMissRightImage | StereoBasler_LightCrafter/StereoBasler_LightCrafter.cpp:206-210 | no right frame of any capture is among the files the delete loop removes as written |
| StereoCapture.OnGrab | StereoBasler_LightCrafter/StereoBasler_LightCrafter.cpp:147-173 | keeps the counter invariant, never changes cntCapt, and does nothing while idle |
| StereoCapture.CaptureInProgress | StereoBasler_LightCrafter/StereoBasler_LightCrafter.cpp:147-160 | after j < n frame pairs a capture is still running, cntImTrigg is j - 1 and the pairs saved so far are numbered 0 .. SavedSoFar(j - 1) - 1 |
| StereoCapture.CaptureCycle | StereoBasler_LightCrafter/StereoBasler_LightCrafter.cpp:147-171 | a capture consumes exactly n frame pairs, saves pairs 0 .. n - 4 then ends idle with both counters -1 and both trigger modes off |
| StereoCapture.OnKey | StereoBasler_LightCrafter/StereoBasler_LightCrafter.cpp:185-215 | keeps the counter invariant (so cntCapt never goes below -1); ESC quits; 'c' mid-capture, 'd' mid-capture or with no capture, and every other key change nothing; an idle 'c' counts a new capture, turns both trigger modes on and calls LightCrafterFlash; 'd' after a finished capture steps cntCapt back and issues the delete loop's remove calls as written (left and right frames 0 .. n - 4, the right ones under the left-camera name); the loop fails exactly when 'c' starts a capture and LightCrafterFlash returns a negative value |
| StereoCapture.OnKeyIntended | StereoBasler_LightCrafter/StereoBasler_LightCrafter.cpp:200-215 | the same counters and exit as OnKey; after a finished capture 'd' removes frames 0 .. n - 4 under the names they were saved with; every other step is OnKey's |
| StereoCapture.CaptureThenDelete | StereoBasler_LightCrafter/StereoBasler_LightCrafter.cpp:189-215 | as written, 'c', n frame pairs and 'd' bring the counters back to where they were; each saved left frame is removed and each saved right frame stays on disk |
| StereoCapture.CaptureThenDeleteIntended | StereoBasler_LightCrafter/StereoBasler_LightCrafter.cpp:147-215 | with the corrected delete, the same cycle removes exactly the files the capture saved |
| StereoCapture.Iterate | StereoBasler_LightCrafter/StereoBasler_LightCrafter.cpp:128-216 | keeps the counter invariant, does nothing unless both frames were grabbed, and ends the loop only on ESC or a failed flash |
| StereoCapture.RunInputs | StereoBasler_LightCrafter/StereoBasler_LightCrafter.cpp:128-217 | keeps the counter invariant and only ever appends events |
| StereoCapture.GrabLoop.constructor | StereoBasler_LightCrafter/StereoBasler_LightCrafter.cpp:95-103 | the counters start at -1, idle, n is FramesPerCapture("0-1-2"), and the invariant holds |
| StereoCapture.GrabLoop.FramePair | StereoBasler_LightCrafter/StereoBasler_LightCrafter.cpp:147-173 | updates the fields as OnGrab and appends its events, keeping the invariant |
| StereoCapture.GrabLoop.Key | StereoBasler_LightCrafter/StereoBasler_LightCrafter.cpp:185-215 | updates the fields as OnKey, appends its events, stops grabbing on ESC or a failed flash and sets the exit code -1 on the latter |
| StereoCapture.GrabLoop.DeleteLastCapture | StereoBasler_LightCrafter/StereoBasler_LightCrafter.cpp:200-215 | issues remove for left frames 0 .. n - 4 of the last capture and for the right ones under the name the code builds, exactly DeletesAsWritten; steps cntCapt back and resets cntImagesNum to -1 |
| StereoCapture.GrabLoop.Iteration | StereoBasler_LightCrafter/StereoBasler_LightCrafter.cpp:136-216 | one loop iteration is Iterate on the fields |
| StereoCapture.GrabLoop.Run | StereoBasler_LightCrafter/StereoBasler_LightCrafter.cpp:128-217 | the loop over the inputs is RunInputs on the fields |

## Left out

- The vendor calls: DLPC350 USB and API functions, Pylon camera setup and grabbing. Their bodies are not part of this model. Each DLPC350 call is a `Command` and its return code is an input (`reply`), the connection state and `NumImgInFlash` are inputs, and a grab result is the `grabbed` flag of an iteration.
- The USB open/close sequence of LightCrafterFlash: it is reduced to the `connected` input.
- The `printf` and `cout` messages: console output.
- OpenCV conversion, resizing and display, and the real `imwrite`/`remove` calls. These are UI and disk I/O, recorded as `Saved`/`Removed` events carrying the file name.
- `waitKey` is an input. It is truncated to a signed `char`, as `char c = waitKey(1)` does, through the `SignedChar` type.
- The call to LightCrafterFlash from the grab loop is a `Flash` event plus its result as an input. The two modules are not composed into one run.
- The camera serial-number assignment of `iL`/`iR` and directory creation at startup: SDK and filesystem plumbing.
- The exception handlers of `main`: an exception would end the loop, and that is not modelled.
- `WriteTextToFile`, `ReadTextFromFile` and `FileExist` of dlpc350_common.cpp: file I/O.
- Dlpc350Common.Hex2BinArray: a character is read as an unsigned byte. With a signed `char`, bytes from 0x80 up would index CMN_Hex2Bin below 0, which is undefined behaviour.
- Dlpc350Common.Hex2BinArray: BinArray must have room for the bytes written. The C code does not check this.
- Dlpc350Common.TrimString: Output must have room for the trimmed string and its NUL. Input must contain a NUL.
- Dlpc350Common.TrimString: isspace is the C locale's. The signed-char argument issue of isspace is not modelled.
- Dlpc350Common.GetImagePixel: the pixel read must lie in the buffer. `Image_t` is reduced to the four fields read, with a byte buffer, because its header is not part of this model.
- LcFlash.LightCrafterFlash: the tokens must satisfy `TokensDefined`. That means decimal and within `unsigned long`, so `stoul` does not throw, and below 2^31 for `stoi`. It also means at most 64 of them, so `splashLut` does not overflow. `"all"` requires at most 64 images. The C code throws or overruns the buffer otherwise.
- LcFlash.LightCrafterFlash: `stoul` also accepts leading whitespace and a sign. The model only covers plain digit strings.
- LcFlash: the `status` output of `ValidatePatLutData` is never read by the code. The model has no such value, and only the return code matters.
- StereoCapture.GrabLoop: it is an object over the loop's locals. `main` itself, its `return -1` and the camera close at the end are reduced to the `grabbing` and `exitCode` fields.

## Findings

| source | as written | input that shows it | evidently intended | confidence | as-written member | corrected member |
|---|---|---|---|---|---|---|
| StereoBasler_LightCrafter/LightCrafter/dlpc350_common.cpp:66 | `CMN_Bin2Hex` is "0123456789ABCEDF", with D and E swapped, so CMN_Hex2Bin does not invert it | the byte 0xDE encodes to "ED", which decodes to 0xED | "0123456789ABCDEF", whose digits decode back to each nibble | not executed | Dlpc350Common.Hex2BinArrayMisreadsAsWrittenEncoding | Dlpc350Common.Hex2BinArrayInvertsIntendedEncoding |
| StereoBasler_LightCrafter/StereoBasler_LightCrafter.cpp:209 | the delete key removes `R\left{cntCapt}_{k}.bmp`, but the right frames were saved as `R\right{cntCapt}_{k}.bmp` | 'c', six frame pairs, then 'd': `R\right0_0.bmp` .. `R\right0_2.bmp` stay on disk | remove `R\right{cntCapt}_{k}.bmp`, the name the frame was saved under | not executed | StereoCapture.CaptureThenDelete | StereoCapture.CaptureThenDeleteIntended |
