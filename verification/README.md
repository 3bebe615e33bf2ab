# A verified model of the Citrate desktop GUI's algorithms

The GUI of Citrate is mostly wiring, but some of its parts are real algorithms and protocols: the loader that morphs the
logo, the hand-written contract calldata codecs, the crash telemetry, the migration of secrets out of the configuration
file, the assistant's tool loop with its approval gate, the check of a typed recipient, and the index of uploaded files.
This project models those parts in Dafny and proves what they are for.

`dafny verify dfyconfig.toml` checks everything.

## How the model is laid out

| files | part of the GUI |
|---|---|
| `SvgNumber` `SvgPath` `SvgParser` | the path parser: text to operations (`Decode`), operations to points (`Run`), and the one-cursor loop that does both |
| `SvgSpelling` `SvgMeaning` | what `Decode` and `Run` are, told without them: how numbers may be spelled, and what each command draws |
| `SvgPrint` `SvgRelative` `SvgCurves` `SvgClose` | printing and reading back, relative commands, what flattened curves are, and where paths are drawn otherwise than in SVG |
| `Geometry` `Distance` `Resample` `AlignOffset` | resampling by arc length and the search for the best rotation |
| `Winding` `PeelOrder` `Easing` | orientation of outlines, the order in which facets leave, and the schedule of the animation |
| `Hex` `AbiWord` `AbiCodec` | hexadecimal text, words, and a generic encoder and decoder after the Solidity "Contract ABI Specification", sections "Formal Specification of the Encoding" and "Use of Dynamic Types" |
| `AbiEncoders` `AbiPool` `AbiReplies` `Selectors` | the GUI's own encoders and decoders, against the generic ones |
| `RotatingLog` `SessionMarker` `SessionHistory` `HexRedaction` | crash telemetry; `SessionHistory` tells what became of each session from the steps of a run alone |
| `SecretMigration` | plaintext secrets, the credential store, loading and saving the configuration |
| `ChatLoop` `ToolExecutor` (module `ChatTools`) `RelayGate` | the assistant's loop, its tool executor, and the signing relay's confirmation gate |
| `Eip55` `FilesIndex` (module `FileIndex`) | recipient addresses, and the file index |
| `Wrappers` `Text` `Pieces` | options and results, trimming, and texts found at a position of a longer one |

Where the source changes things step by step (the parser's cursor, in-place reversal, the log writer, the crash
directory, the configuration, the chat history, the executor, the relay gate, the file index), the model is a method or a
class proved against a function of the old state; what the source promises is then proved about that function, over all
inputs and all runs.

The world outside is a parameter: the Keccak hash is any function, `hypot` is any function with the defining property of
the Euclidean length, sine and cosine are any functions, the backend's answers, the user's approvals, the store's
refusals and the results of writes are any sequences, and processes may be killed between any two steps.

## Where the code differs from its documentation, or from what one would expect

The model follows the code.

- SVG clears the control point of smooth curves at a closepath; the parser keeps it (`loader.rs:382-384`).  When that
  shows is `SvgClose.DrawnAsInSvg`; a path where it does is `SvgClose.ReopenedBow`.
- The loader is described as rebuilding in reverse, but facets come home in the order in which they left
  (`Easing.FirstOutFirstHome`); the reverse order holds only when all move at once (`Easing.ReverseOnlyAtOnce`).
- A hold of more than 45% of the cycle can make the animation jump when it wraps (`Easing.LongHoldJumps`); exactly when a
  facet is home is `Easing.HomeAtWrap`.
- An outline with no area is flipped by every normalisation towards a negative target (`Winding.OrientedIsStable`,
  `Winding.LineIsTurnedAgain`).
- `mark_clean_exit` keeps the marker's path, so a state update that comes later makes a clean session look like a crashed
  one (`SessionMarker.LateUpdateIsFalseAlarm`; exactly when there is a record is `SessionHistory.OnRecordIffUnclean`).
- The boot scan removes a stale marker even when its record cannot be written; that session is then on record only if an
  earlier scan, killed half way, had written one (`SessionHistory.OnRecordIffUnclean`).
- A log buffer longer than the limit rotates even an empty file, which drops the older log; exactly when that happens is
  `RotatingLog.OversizedBufferDropsTheLog` for one write and `RotatingLog.DropsExactlyAt` for a run.
- Loading a configuration drops the secrets that the store refuses to take (`SecretMigration.RefusedKeyIsDropped`); when
  none is lost is `SecretMigration.LoadKeepsAllIffAccepted`.
- The branch of loading that renames devnet to testnet is never taken (`SecretMigration.NetworkIsKept`).
- After ten tool results within a turn, requests no longer show the user's prompt (`ChatLoop.PromptIsShown`).
- A transfer that is approved and then found to have no usable amount ends without a completion event, as no other
  approved call does (`ChatTools.ApprovedThenSilent`, `ChatTools.SilentTransfer`).
- A provider's stake wraps around beyond 128 bits where the plain number reader saturates
  (`AbiReplies.ProfileStakeWraps`, `AbiReplies.DecodeUint256Saturates`).
- Loading the file index is described as removing duplicates; it does not (`FileIndex.RemovedYetListed`).  When a loaded
  index lists no file twice is `FileIndex.LoadedTwiceIffSavedTwice`, and what duplicates cost is
  `FileIndex.StillListedIff` and `FileIndex.RunCount`.

## Model

| member | source | states |
|---|---|---|
| SvgNumber.NextNumber | gui/citrate_ui_kit/src/loader.rs:292-339 | The cursor loop reads exactly the number of the grammar sign? digits? ('.' digits*)? exponent? with its exact value, or moves past separators only. |
| SvgSpelling.SpellingIsRead | gui/citrate_ui_kit/src/loader.rs:292-339 | Every way to write a number, with separators before it, a sign, a whole part, a fraction and an exponent or without, is read as the number it means, anywhere in a text. |
| SvgSpelling.ScaledIsTimes | gui/citrate_ui_kit/src/loader.rs:321-336 | An exponent multiplies by a power of ten, whichever sign it has. |
| SvgNumber.PrintedLooksLike | gui/citrate_ui_kit/src/loader.rs:765 | A printed coordinate is a sign for negative numbers, a whole part without needless zeros, a point, and two decimals. |
| SvgNumber.RoundedIsClose | gui/citrate_ui_kit/src/loader.rs:765 | Printing with two decimals changes a coordinate by at most half a hundredth. |
| SvgNumber.RoundedIsExact | gui/citrate_ui_kit/src/loader.rs:765 | A whole number of hundredths is printed without loss. |
| SvgNumber.TiesGoToEven | gui/citrate_ui_kit/src/loader.rs:765 | Halfway between two hundredths the even one is printed. |
| SvgNumber.ReadPrinted | gui/citrate_ui_kit/src/loader.rs:297-339 | Wherever a printed number stands in a text, the lexer reads its rounded value back and stops where the print stopped, whatever letter follows. |
| SvgParser.FlattenCubic | gui/citrate_ui_kit/src/loader.rs:348-362 | Appends the 48 chord ends of a cubic to what was drawn before. |
| SvgParser.FlattenQuad | gui/citrate_ui_kit/src/loader.rs:363-371 | Appends the 48 chord ends of a quadratic. |
| SvgParser.NextCommand | gui/citrate_ui_kit/src/loader.rs:373-396 | What stands at the cursor decides how decoding goes on: the end, a closepath, numbers of a new or repeated command (lineto after moveto), or an error. |
| SvgParser.NextArgs | gui/citrate_ui_kit/src/loader.rs:396-531 | Each command letter reads as many numbers as it takes, names the first that is missing, and unknown letters are refused. |
| SvgParser.DrawLine | gui/citrate_ui_kit/src/loader.rs:397-447 | M, L, H, V leave the pen as the operation's meaning says, relative or not. |
| SvgParser.DrawCubic | gui/citrate_ui_kit/src/loader.rs:448-494 | C and S leave the pen as the operation's meaning says, with the mirrored control for S. |
| SvgParser.DrawQuad | gui/citrate_ui_kit/src/loader.rs:495-530 | Q and T leave the pen as the operation's meaning says, with the mirrored control for T. |
| SvgParser.SampleSvgOutline | gui/citrate_ui_kit/src/loader.rs:288-538 | The parser ends on every text and answers what decoding all operations first and then drawing them gives, errors included. |
| SvgMeaning.MovesStart | gui/citrate_ui_kit/src/loader.rs:397-412 | M and m land at the point given, absolute or relative, draw it, and start a subpath there that a closepath returns to. |
| SvgMeaning.LinesDraw | gui/citrate_ui_kit/src/loader.rs:413-447 | L, H and V, absolute or relative, draw exactly one point; H keeps the height of the pen and V its place across. |
| SvgMeaning.CubicsDraw | gui/citrate_ui_kit/src/loader.rs:448-494 | C x1 y1 x2 y2 x y draws 48 points, the i-th by de Casteljau at i/48 of the pen, (x1, y1), (x2, y2) and (x, y), in this order; c the same relative to the pen. |
| SvgMeaning.SmoothCubicsDraw | gui/citrate_ui_kit/src/loader.rs:448-494 | S draws the cubic whose first control is the last one of the cubic before, mirrored in the pen, or the pen itself. |
| SvgMeaning.QuadsDraw | gui/citrate_ui_kit/src/loader.rs:495-530 | Q x1 y1 x y draws 48 points of the quadratic with the control (x1, y1), and q the same relative to the pen. |
| SvgMeaning.SmoothQuadsDraw | gui/citrate_ui_kit/src/loader.rs:495-530 | T draws the quadratic whose control is the last one, mirrored in the pen, or the pen itself, and keeps that control. |
| SvgCurves.CubicIsDeCasteljau | gui/citrate_ui_kit/src/loader.rs:349-361 | Points of a cubic are those of de Casteljau's repeated division of its control polygon. |
| SvgCurves.CubicStaysInBox | gui/citrate_ui_kit/src/loader.rs:348-362 | A flattened cubic ends exactly at its end point and never leaves a box that holds its control points. |
| SvgRelative.AbsoluteDrawsTheSame | gui/citrate_ui_kit/src/loader.rs:394-533 | Every path can be rewritten without relative commands and then draws the same points with the same pen, smooth controls and closepaths included. |
| SvgRelative.AbsoluteTextSameOutline | gui/citrate_ui_kit/src/loader.rs:288-538 | For every text that decodes, the absolute translation gives the same outline, and with two-decimal numbers its printed text parses to that outline too. |
| SvgClose.AfterClose | gui/citrate_ui_kit/src/loader.rs:382-384 | Right after a closepath, S and T draw the points SVG draws if and only if the control that is kept is the start of the subpath. |
| SvgClose.DrawnAsInSvg | gui/citrate_ui_kit/src/loader.rs:373-533 | A whole path is drawn with the points SVG gives it if and only if no smooth command right after a closepath starts from a control that is not where the pen is. |
| SvgClose.ReopenedBow | gui/citrate_ui_kit/src/loader.rs:382-384 | The text of M 0 0, C 0 10 10 10 10 0, Z, S 20 10 20 0 is parsed to an outline that SVG would not draw. |
| SvgPrint.DecodePrinted | gui/citrate_ui_kit/src/loader.rs:373-533 | Decoding undoes printing for every sequence of operations, up to rounding to two decimals. |
| SvgPrint.OutlineOfPrinted | gui/citrate_ui_kit/src/loader.rs:288-538 | Parsing the text of any operations draws them with every number rounded. |
| SvgPrint.FrameCommand | gui/citrate_ui_kit/src/loader.rs:759-771 | The loop over points builds the text of one moveto, linetos and a closepath. |
| SvgPrint.FrameRoundTrip | gui/citrate_ui_kit/src/loader.rs:759-771 | A frame's text parses back to its rounded points if it has at least three, and is called degenerate, with the right count, if not. |
| SvgPrint.FrameReadBack | gui/citrate_ui_kit/src/loader.rs:759-771 | Two-decimal frames come back exactly, all others to within half a hundredth. |
| Distance.Triangle | gui/citrate_ui_kit/src/loader.rs:144 | The Euclidean length the source uses satisfies the triangle inequality. |
| Distance.AlongSegment | gui/citrate_ui_kit/src/loader.rs:160-166 | Two points at fractions of a segment are the difference of the fractions times its length apart. |
| Distance.DistanceMeans | gui/citrate_ui_kit/src/loader.rs:144 | The square of a distance is the sum of the squared differences of the coordinates. |
| Resample.Advance | gui/citrate_ui_kit/src/loader.rs:154-157 | The amortised cursor moves to an edge that holds the wanted arc length, and its sum is the length of all passed edges. |
| Resample.Resample | gui/citrate_ui_kit/src/loader.rs:137-171 | Of the n points returned, the j-th lies at arc length j*total/n on the closed polygon, zero-length edges included. |
| Resample.EdgesAre | gui/citrate_ui_kit/src/loader.rs:139-147 | The walked length grows at every edge, the closing one included, by its Euclidean length. |
| Resample.ArcsAre | gui/citrate_ui_kit/src/loader.rs:149-153 | Samples start at arc length 0 and are total/n apart; one more would be at the end. |
| Resample.ArcPointUnique | gui/citrate_ui_kit/src/loader.rs:137-171 | An arc length names one point, so the result of resampling is determined. |
| Resample.ChordAtMostArc | gui/citrate_ui_kit/src/loader.rs:137-171 | Two points of the polygon are no further apart than the walk between them. |
| Resample.SamplesAreClose | gui/citrate_ui_kit/src/loader.rs:137-171 | The samples start at the first vertex, and neighbours, last and first included, are at most total/n apart. |
| AlignOffset.OffsetError | gui/citrate_ui_kit/src/loader.rs:250-262 | The inner loop gives the whole cost of an offset, or a partial sum that cannot beat the best so far. |
| AlignOffset.CostIsSum | gui/citrate_ui_kit/src/loader.rs:250-259 | The cost of an offset is the sum, over points 0, 4, 8 and so on and over no others, of the squared distance to the point of the stroke so many places further on, cyclically. |
| AlignOffset.PlacedAround | gui/citrate_ui_kit/src/loader.rs:239-246 | A point of the stroke lies at its radius from the centre, to the right of it at angle 0 and below it at a quarter turn. |
| AlignOffset.AlignOffset | gui/citrate_ui_kit/src/loader.rs:237-269 | The search with early exit returns the first offset of least cost among all offsets. |
| AlignOffset.RotationIsFound | gui/citrate_ui_kit/src/loader.rs:234-269 | If the stroke is the outline rotated by any amount, the answer matches every fourth point exactly. |
| Winding.ComputeSignedArea | gui/citrate_ui_kit/src/loader.rs:125-132 | The loop with wrap-around index computes half the shoelace sum over all edges. |
| Winding.TriangleArea | gui/citrate_ui_kit/src/loader.rs:124-132 | The signed area of a triangle is half the cross product of two sides. |
| Winding.RectangleArea | gui/citrate_ui_kit/src/loader.rs:124-132 | That of an axis-parallel rectangle is width times height, positive if it runs along the width first. |
| Winding.AreasAdd | gui/citrate_ui_kit/src/loader.rs:124-132 | Cut along the line between two corners, every outline shares its area out to its two parts. |
| Winding.ReversalNegatesArea | gui/citrate_ui_kit/src/loader.rs:124-132 | Running an outline backwards negates its signed area. |
| Winding.Orient | gui/citrate_ui_kit/src/loader.rs:587-591 | In place, an outline is reversed exactly when its sign differs from the target's. |
| Winding.OrientedRunsTheTargetWay | gui/citrate_ui_kit/src/loader.rs:587-591 | After normalisation every outline with an area runs the target's way, has kept the size of its area, and stays as it is. |
| Winding.OrientedIsStable | gui/citrate_ui_kit/src/loader.rs:587-591 | Normalising twice is normalising once if and only if the outline has area, the target is not negative, or it is its own reverse. |
| Winding.LineIsTurnedAgain | gui/citrate_ui_kit/src/loader.rs:587-591 | An outline of two different points has no area and is turned round every time. |
| PeelOrder.ByAngle | gui/citrate_ui_kit/src/loader.rs:630-631 | The stable sort lists every facet once, by clockwise angle, ties by index. |
| PeelOrder.Center | gui/citrate_ui_kit/src/loader.rs:632-637 | Finds the first facet at the least distance from the mark's centroid. |
| PeelOrder.Peel | gui/citrate_ui_kit/src/loader.rs:629-648 | Facets other than the centre leave in clockwise order, the centre leaves last, and each gets the slot of its turn. |
| PeelOrder.SlotsAreSpread | gui/citrate_ui_kit/src/loader.rs:641-648 | Turns and slots are distinct, lie on one circle, and successive ones are 360/n degrees apart. |
| Easing.SmootherstepRises | gui/citrate_ui_kit/src/loader.rs:118-122 | The clamped quintic rises from 0 to 1. |
| Easing.EvenlySpread | gui/citrate_ui_kit/src/loader.rs:702-709 | The first facet leaves at the end of the hold, and the ring dissolves with the first; each further one follows (span - ramp)/n later in both directions, and an n-th would arrive at the end of the span. |
| Easing.OnTheWay | gui/citrate_ui_kit/src/loader.rs:710-720 | A fraction f into its ramp a facet has gone 6f^5 - 15f^4 + 10f^3 of its way out, and on the way back the same of its way home. |
| Easing.HoldsAreStill | gui/citrate_ui_kit/src/loader.rs:699-720 | Progress is always in [0, 1], 0 on the first hold, 1 while the ring holds, 0 after the way back. |
| Easing.OutThenBack | gui/citrate_ui_kit/src/loader.rs:699-720 | A facet only moves outwards until the ring dissolves and only homewards once it is complete. |
| Easing.FirstOutFirstHome | gui/citrate_ui_kit/src/loader.rs:699-720 | A facet that leaves earlier is never behind on the way out, and never further from home on the way back. |
| Easing.ReverseOnlyAtOnce | gui/citrate_ui_kit/src/loader.rs:699-720 | Two facets come home in the reverse of the order they left in, at every moment, if and only if the ramp fills the span and all facets move at once. |
| Easing.EarlierIsUnderWay | gui/citrate_ui_kit/src/loader.rs:699-720 | Otherwise, at the moment the later one is about to leave the ring, the earlier one has left it already. |
| Easing.HomeAtWrap | gui/citrate_ui_kit/src/loader.rs:699-720 | A facet is home when the cycle wraps if and only if its journey is over by then or has not begun. |
| Easing.Seamless | gui/citrate_ui_kit/src/loader.rs:699-720 | With holds of at most 45% of the cycle every facet is home when it wraps. |
| Easing.LongHoldJumps | gui/citrate_ui_kit/src/loader.rs:699-720 | A configuration with longer holds whose facets are all still on the ring at the wrap. |
| Hex.FromToHex | gui/citrate_native/src/marketplace_client.rs:325-326 | Decoding hexadecimal text undoes encoding bytes. |
| Hex.FromHexMeans | gui/citrate_native/src/marketplace_client.rs:325-326 | A text is decoded to some bytes if and only if it spells each of them with two digits in either case, the high half first. |
| Hex.ToHexMeans | gui/citrate_desktop_app/src/lib.rs:246-248 | Bytes are written with two small digits each, the high half first. |
| Hex.ToHexInjective | gui/citrate_desktop_app/src/lib.rs:246-248 | Different bytes have different hexadecimal texts. |
| AbiCodec.DecodeLayout | gui/citrate_native/src/marketplace_client.rs:311-323 | Values are found wherever their offsets say, in any order and with any gaps. |
| AbiCodec.RoundTrip | gui/citrate_native/src/marketplace_client.rs:396-402 | The generic decoder inverts the canonical head and tail encoding for every list of values. |
| AbiCodec.EncodeInjective | gui/citrate_native/src/marketplace_client.rs:396-402 | Equal encodings of equal types carry equal values. |
| AbiCodec.EncodeAligned | gui/citrate_native/src/marketplace_client.rs:396-402 | An encoding consists of whole 32-byte words. |
| AbiWord.ByteOfWord | gui/citrate_native/src/marketplace_client.rs:421-437 | Byte i from the end of a word is the number divided by 256 i times, modulo 256. |
| AbiEncoders.EncodeCreatePool | gui/citrate_native/src/marketplace_client.rs:403-456 | The buffer built byte by byte, with offsets computed in advance, starts with the selector of createPool(string,string,uint8,uint256), and decodes to name, description, access and stake in this order. |
| AbiEncoders.EncodeRegisterProvider | gui/citrate_native/src/marketplace_client.rs:211-228 | The buffer starts with the selector of registerProvider(bytes32[]) and decodes to exactly the list of words. |
| AbiEncoders.EncodeRegisterModel | gui/citrate_native/src/app_binder.rs:208-229 | The buffer starts with the selector of registerModel(bytes32,string) and decodes to exactly the hash and the text. |
| AbiEncoders.CreatePoolReadsBack | gui/citrate_native/src/marketplace_client.rs:403-456 | The selector and the canonical encoding of name, description, access and stake decode to just these, and are 4 bytes and whole words. |
| AbiEncoders.RegisterProviderReadsBack | gui/citrate_native/src/marketplace_client.rs:211-228 | The same for registering a provider. |
| AbiEncoders.RegisterModelReadsBack | gui/citrate_native/src/app_binder.rs:208-229 | The same for registering a model. |
| AbiEncoders.CreatePoolLayout | gui/citrate_native/src/marketplace_client.rs:403-456 | Word by word: 128, the place of the description, access, stake, then the length of the name, the name and zeros, and the same for the description. |
| AbiEncoders.RegisterProviderLayout | gui/citrate_native/src/marketplace_client.rs:211-228 | 32, the number of models, and the models one after the other. |
| AbiEncoders.RegisterModelLayout | gui/citrate_native/src/app_binder.rs:208-229 | The hash, 64, the length of the text, the text, and zeros. |
| AbiPool.DecodeAnyLayout | gui/citrate_native/src/marketplace_client.rs:324-392 | A reply that holds a pool is decoded to it, wherever the tuple and its strings lie. |
| AbiPool.DecodeCanonicalReply | gui/citrate_native/src/marketplace_client.rs:324-392 | The canonical encoding of the nine fields decodes to a pool of just these, with or without the 0x prefix, for every pool that fits the source's types. |
| AbiReplies.DecodeUint256Saturates | gui/citrate_native/src/marketplace_client.rs:491-505 | A 256-bit number is read exactly if it fits 128 bits, and as the greatest such number if not. |
| AbiReplies.DecodeCanonicalProfile | gui/citrate_native/src/marketplace_client.rs:508-534 | The canonical encoding of a profile's seven words decodes to that profile, for every profile that fits its types. |
| AbiReplies.ProfileStakeWraps | gui/citrate_native/src/marketplace_client.rs:515-519 | The stake read is the remainder of the number sent modulo 2 to the 128; it is that number if and only if it fits. |
| Selectors.DecodeCalldata | gui/citrate_native/src/calldata_decoder.rs:137-166 | Calldata is looked up by its first four bytes, whatever the case of its digits and whatever white space and prefix surround it. |
| Selectors.AnswersMean | gui/citrate_native/src/calldata_decoder.rs:137-166 | For every input: nothing is empty, anything without eight digits in front is malformed, and all else carries the selector those digits spell. |
| Selectors.LookupFirst | gui/citrate_native/src/calldata_decoder.rs:157-164 | The first registered signature with the selector is named. |
| Selectors.LookupNone | gui/citrate_native/src/calldata_decoder.rs:157-165 | A selector is unknown if and only if no registered signature has it. |
| Selectors.OwnCalldataIsNamed | gui/citrate_native/src/calldata_decoder.rs:137-166 | Calldata of a registered signature is named by it if and only if no earlier signature has the same selector. |
| RotatingLog.FileLogWriter.DoWrite | gui/citrate_native/src/crash_telemetry.rs:597-610 | The tracked length stays that of the file; the two files change as the specification of a write says, partial and failed writes and failing renames included. |
| RotatingLog.FileLogWriter.DoRotate | gui/citrate_native/src/crash_telemetry.rs:579-594 | The current file takes the place of the rotated one; if the rename fails the rotated file is gone and the current one is kept. |
| RotatingLog.HoldsAfter | gui/citrate_native/src/crash_telemetry.rs:579-610 | After any run, the rotated file holds the bytes of some writes one after the other, and the current file those of all later ones. |
| RotatingLog.SuffixOfHistory | gui/citrate_native/src/crash_telemetry.rs:579-610 | What the files took of the buffers, one after the other, ends in the two files: nothing is missing in between, and the cut is between two writes. |
| RotatingLog.SuffixOfBuffers | gui/citrate_native/src/crash_telemetry.rs:579-610 | If every write was taken whole, the two files are a suffix of the buffers one after the other. |
| RotatingLog.StepIs | gui/citrate_native/src/crash_telemetry.rs:579-610 | A write that fits is appended; one that does not pushes the current file over the rotated one, or, if the rename fails, loses the rotated one and is appended. |
| RotatingLog.EnoughIsKept | gui/citrate_native/src/crash_telemetry.rs:579-610 | With buffers of at most b bytes nothing is lost before the first rotation, and afterwards more than the limit less b bytes are kept. |
| RotatingLog.OversizedBufferDropsTheLog | gui/citrate_native/src/crash_telemetry.rs:579-606 | A full write destroys the rotated log without putting a newer one in its place if and only if the current file is empty and the buffer alone is over the limit. |
| RotatingLog.DropsExactlyAt | gui/citrate_native/src/crash_telemetry.rs:579-610 | In every run from any log, the older log is dropped at exactly such writes. |
| RotatingLog.BoundIsNeeded | gui/citrate_native/src/crash_telemetry.rs:579-610 | Nothing is lost before there is an older log, in all runs of buffers of at most b bytes, if and only if b is within the limit. |
| SessionMarker.CrashDir.WriteMarkerFile | gui/citrate_native/src/crash_telemetry.rs:370-391 | Rewriting keeps the start time of a readable marker and stores the redacted state. |
| SessionMarker.CrashDir.InitSessionMarker | gui/citrate_native/src/crash_telemetry.rs:400-414 | A session's first marker says that it has started. |
| SessionMarker.CrashDir.MarkCleanExit | gui/citrate_native/src/crash_telemetry.rs:417-428 | The marker is gone and records are untouched. |
| SessionMarker.CrashDir.StartupScan | gui/citrate_native/src/crash_telemetry.rs:450-513 | A stale marker becomes one record, if that can be written, and is removed in any case; without one nothing changes. |
| SessionMarker.RunKeeps | gui/citrate_native/src/crash_telemetry.rs:370-513 | The invariant of disk, process and session histories holds in every run with kills between any two steps. |
| SessionHistory.RunIsLived | gui/citrate_native/src/crash_telemetry.rs:370-513 | In every run, what the model keeps of each session (its first write, its last state, clean exit and late writes, the scans about it) is what the steps of the run say. |
| SessionHistory.OnRecordIffUnclean | gui/citrate_native/src/crash_telemetry.rs:450-513 | Told from the steps of the run alone: once a boot scan is over, every earlier session is on record if and only if it began its marker and did not exit cleanly, or wrote the marker again after that, unless the scan that removed its marker could not write; once, and once more for each scan that was killed between writing and removing. |
| SessionHistory.NoFalseAlarm | gui/citrate_native/src/crash_telemetry.rs:450-513 | No record is ever about a session that has not ended, or that exited cleanly and wrote nothing later. |
| SessionHistory.WhatRecordsSay | gui/citrate_native/src/crash_telemetry.rs:373-391 | A record names its session, the state of its last write that came to an end, redacted, and the time of its first write (if it did not write again after its clean exit); if its last write was cut short, it says that the marker was unreadable. |
| SessionMarker.LateUpdateIsFalseAlarm | gui/citrate_native/src/crash_telemetry.rs:296-307 | From every state after a clean exit mark, a late state update leads to a record about a clean session. |
| HexRedaction.ExpressionIsRewrite | gui/citrate_native/src/crash_telemetry.rs:123-129 | Replacing all matches of the expression, with its word boundaries, is rewriting whole words, on every text. |
| HexRedaction.WordsAreCut | gui/citrate_native/src/crash_telemetry.rs:123-129 | Whatever stands around it, a word of 0x and forty or more hexadecimal digits, or of sixty-four or more such digits, keeps its first six and last four characters around an ellipsis; every other word is kept, and the rest of the text is redacted as if it stood alone. |
| HexRedaction.IdentifiersAreCut | gui/citrate_native/src/crash_telemetry.rs:123-129 | So are addresses and hashes in any text. |
| HexRedaction.Idempotent | gui/citrate_native/src/crash_telemetry.rs:189-196 | Rewriting a second time changes nothing. |
| HexRedaction.UnchangedIffClean | gui/citrate_native/src/crash_telemetry.rs:189-196 | A text is left alone if and only if the expression matches nowhere in it. |
| HexRedaction.RedactedIsClean | gui/citrate_native/src/crash_telemetry.rs:189-196 | The output holds no long identifier and is a fixpoint. |
| SecretMigration.StoreKeysDiffer | gui/citrate_desktop_app/src/lib.rs:246-248 | Every kind and name has a store key of its own. |
| SecretMigration.MarkersAre | gui/citrate_desktop_app/src/lib.rs:237-259 | Plaintext is what is neither empty nor begins with keyring:v1:, and the texts of markers and store keys are the kind and the name in hexadecimal. |
| SecretMigration.SecretMeans | gui/citrate_desktop_app/src/lib.rs:427-487 | A getter gives what the store has under that key, if the entry is a marker. |
| SecretMigration.MigrateMap | gui/citrate_desktop_app/src/lib.rs:523-548 | The loop over a snapshot of the entries, in any order, leaves the map, the store and the result that the specification gives, refusals at any point included. |
| SecretMigration.FateOf | gui/citrate_desktop_app/src/lib.rs:523-548 | Wherever a walk stops, each name kept its value or has a marker and its secret in the store; no other secret is touched. |
| SecretMigration.OkIffAccepted | gui/citrate_desktop_app/src/lib.rs:534-545 | A walk succeeds if and only if the store takes one write per plaintext value, whatever the order of names. |
| SecretMigration.MovedIff | gui/citrate_desktop_app/src/lib.rs:523-548 | A plaintext value is moved if and only if the store takes the writes for it and for all that come before it in the walk. |
| SecretMigration.AppConfig.MigratePlaintextSecrets | gui/citrate_desktop_app/src/lib.rs:491-503 | The second map is touched only when the first one succeeded. |
| SecretMigration.AppConfig.DropPlaintextSecretValues | gui/citrate_desktop_app/src/lib.rs:515-520 | Exactly the plaintext entries are removed; what becomes of each name of a load is OthersAfterLoad and PlaintextAfterLoad. |
| SecretMigration.AppConfig.Load | gui/citrate_desktop_app/src/lib.rs:302-370 | The configuration in memory, the store and what is to be written follow from the file and the store's answers; network, chain id and port are put right by the same branches. |
| SecretMigration.OthersAfterLoad | gui/citrate_desktop_app/src/lib.rs:302-370 | After every load, refused or not, a value that is not plaintext is in the configuration as it was in the file, its getter gives what it gave, and no names are new. |
| SecretMigration.PlaintextAfterLoad | gui/citrate_desktop_app/src/lib.rs:342-353 | A name with a plaintext value is there afterwards if and only if the store took its write and all earlier ones; then it has its marker, and its getter gives the secret. |
| SecretMigration.WritesExactlyWhen | gui/citrate_desktop_app/src/lib.rs:302-370 | A load rewrites the file if and only if it held a plaintext secret, a chain id other than 40204 or the port 18545. |
| SecretMigration.AppConfig.Save | gui/citrate_desktop_app/src/lib.rs:391-401 | A copy is migrated and written, or nothing is written when the store refuses; the configuration itself is unchanged. |
| SecretMigration.AppConfig.SetSecret | gui/citrate_desktop_app/src/lib.rs:427-476 | The marker is set only after the store has taken the secret. |
| SecretMigration.SetThenGet | gui/citrate_desktop_app/src/lib.rs:427-487 | A secret that was set is what its getter gives, and every other getter is unaffected. |
| SecretMigration.NoSecretIsLost | gui/citrate_desktop_app/src/lib.rs:491-503 | After a migration, failed or not, every secret is still in the configuration or behind its getter. |
| SecretMigration.OldSecretsStay | gui/citrate_desktop_app/src/lib.rs:491-503 | Migration leaves what other getters give as it was. |
| SecretMigration.SuccessMovesEverything | gui/citrate_desktop_app/src/lib.rs:491-503 | On success no plaintext is left, names are unchanged, and each getter gives the original secret. |
| SecretMigration.MigratesIffAccepted | gui/citrate_desktop_app/src/lib.rs:491-503 | Migration succeeds if and only if the store takes as many writes as there are plaintext values. |
| SecretMigration.SavedFileIsSanitized | gui/citrate_desktop_app/src/lib.rs:391-415 | What saving writes holds no plaintext and leads to every secret. |
| SecretMigration.SavedFileIs | gui/citrate_desktop_app/src/lib.rs:391-415 | Saving writes a file if and only if the store takes a write for each secret; the file has the same names, a marker for each secret, and all else unchanged. |
| SecretMigration.LoadedIsSanitized | gui/citrate_desktop_app/src/lib.rs:302-370 | After loading there is no plaintext in memory or on disk, and if nothing is written nothing was changed. |
| SecretMigration.LoadIsFixpoint | gui/citrate_desktop_app/src/lib.rs:302-370 | Loading again changes nothing, writes nothing, and does not ask the store. |
| SecretMigration.LoadKeepsAllIffAccepted | gui/citrate_desktop_app/src/lib.rs:342-353 | All secrets survive a load if and only if the store takes a write for each of them. |
| SecretMigration.RefusedKeyIsDropped | gui/citrate_desktop_app/src/lib.rs:342-353 | A file with one plaintext key and a store that refuses: after the load the key is gone. |
| SecretMigration.FileIsCleanIff | gui/citrate_desktop_app/src/lib.rs:355-359 | After a load the file holds no plaintext if and only if it held none before or could be rewritten. |
| SecretMigration.NetworkIsKept | gui/citrate_desktop_app/src/lib.rs:310-341 | No load ever renames the network; every load ends with chain id 40204, and with port 8545 in place of 18545. |
| ChatLoop.BuildRequest | gui/citrate_desktop_app/src/services/chat_service.rs:861-873 | A request is the system prompt, if any, and the last ten messages that count. |
| ChatLoop.WindowAt | gui/citrate_desktop_app/src/services/chat_service.rs:865-873 | A message that counts is in the request, at its place from the end, if fewer than ten that count come after it. |
| ChatLoop.CountsMeans | gui/citrate_desktop_app/src/services/chat_service.rs:865-869 | The messages that count are those of the user and the assistant, and those of tools where they are shown. |
| ChatLoop.FilterSplits | gui/citrate_desktop_app/src/services/chat_service.rs:865-869 | Those that count keep their order. |
| ChatLoop.ChatService.ExecuteCalls | gui/citrate_desktop_app/src/services/chat_service.rs:905-941 | Calls are executed in order and each leaves one message. |
| ChatLoop.ChatService.SendMessageWithTools | gui/citrate_desktop_app/src/services/chat_service.rs:816-956 | For every sequence of answers and tool results: the conversation goes on with the prompt, one message for each executed call with its result, and the last answer's text; a backend error leaves no answer and is returned, and five answers with calls leave the fixed text. Of up to five requests, all but the last are answered with calls, and each shows the window of the conversation as it was then. |
| ChatLoop.ChatService.SendMessage | gui/citrate_desktop_app/src/services/chat_service.rs:729-787 | The plain variant makes one request without tool messages and appends the answer, if there is one. |
| ChatLoop.PromptIsShown | gui/citrate_desktop_app/src/services/chat_service.rs:865-873 | In every turn the user's prompt is in a request if and only if at most nine tool results came before it; after that no message of the user is shown. |
| Eip55.ChecksumIsIdempotent | gui/citrate_native/src/main.rs:55-74 | Checksumming a checksummed address changes nothing. |
| Eip55.CapitalsAt | gui/citrate_native/src/main.rs:55-74 | A letter of a checksummed address is a capital if and only if the hash of the small address has a digit of 8 or more there. |
| Eip55.AcceptedExactly | gui/citrate_native/src/main.rs:83-112 | The accepted inputs are exactly forty hex digits all small, all capital or checksummed, with an optional prefix and white space around; the result is the small form. |
| Eip55.RefusedBecause | gui/citrate_native/src/main.rs:83-112 | Which of the three reasons a refused input is given. |
| Eip55.ChecksummedIsAccepted | gui/citrate_native/src/main.rs:83-112 | A checksummed address and the result of a check are always accepted. |
| Text.TrimPadded | gui/citrate_native/src/main.rs:84 | Trimming takes off the white space at both ends and nothing else. |
| ChatTools.FromIsTheUsers | gui/citrate_native/src/main.rs:118-132 | The debited account is the first that is the selected one up to case, or the only one there is when none is selected, and in no other case any. |
| ChatTools.NoFromBecause | gui/citrate_native/src/main.rs:118-132 | Which of the three reasons is given when no account is debited. |
| ChatTools.Executor.Execute | gui/citrate_native/src/main.rs:5086-5434 | The effects of a call, in order, are those of the specification for every scope, wallet, answer and service result. |
| ChatTools.Executor.AskUser | gui/citrate_native/src/main.rs:5170-5231 | The request, the card and the answer are published under one fresh number; anything but a yes is a refusal. |
| ChatTools.Executor.PerformTool | gui/citrate_native/src/main.rs:5236-5419 | What a cleared tool does: a transfer of the planned accounts, a read, or an error. |
| ChatTools.TransfersExactlyWhen | gui/citrate_native/src/main.rs:5127-5404 | Money is sent if and only if the scope allows it, the recipient and the account are valid, the user said yes to this call, and the amount is usable; then once, with the accounts and amount of the card. |
| ChatTools.AsksExactlyWhen | gui/citrate_native/src/main.rs:5152-5231 | The user is asked about a call if and only if its tool is one of send_tx, deploy_contract, file_write, file_edit and shell_exec, the scope allows it, and its accounts are in order; the card is followed by the user's verdict. |
| ChatTools.CardsShow | gui/citrate_native/src/main.rs:5152-5185 | The risk, target and scope on the cards of the other four tools. |
| ChatTools.OkExactlyWhen | gui/citrate_native/src/main.rs:5086-5434 | A call succeeds if and only if its transfer was made and succeeded or its read did, and then with that text. |
| ChatTools.RefusedAs | gui/citrate_native/src/main.rs:5086-5231 | What every other call is answered: out of scope, the fault in its accounts, the user's refusal, the failure of the read, or that the tool is not wired. |
| ChatTools.TransferAnswered | gui/citrate_native/src/main.rs:5384-5419 | An approved transfer is answered with the missing or unusable amount, or with what came of sending it. |
| ChatTools.CompletesExactlyWhen | gui/citrate_native/src/main.rs:5086-5419 | A call leaves a completion event if and only if its scope, accounts and approval let the tool be performed, and it is neither a transfer without a usable amount nor an explanation without a hash. |
| ChatTools.ApprovedThenSilent | gui/citrate_native/src/main.rs:5384-5419 | An approved call ends without a completion event if and only if it is a transfer without a usable amount. |
| ChatTools.SilentTransfer | gui/citrate_native/src/main.rs:5384-5397 | Such a call: an approved transfer of an unstated amount from the only account. |
| ChatTools.ShownAccountsDetermine | gui/citrate_native/src/main.rs:5143-5149 | The card's text determines both addresses, up to case. |
| ChatTools.EverySendIsTheUsers | gui/citrate_native/src/main.rs:5086-5434 | In every run, every transfer belongs to a call of the run, follows its card and approval directly, and debits an account of the wallet. |
| ChatTools.RunIsRead | gui/citrate_native/src/main.rs:5167-5419 | Every run leaves a trace of the language Requested, Card, then Denied, or Approved and a completion, for a transfer with the transfer before it or with neither; request numbers are fresh. |
| ChatTools.CutIsRead | gui/citrate_native/src/main.rs:5167-5419 | A trace that is cut short anywhere is still of that language. |
| ChatTools.NoSendWithoutApproval | gui/citrate_native/src/main.rs:5213-5404 | In any such trace a transfer comes directly after its own approval and card. |
| ChatTools.ApprovalsAreSpentOnce | gui/citrate_native/src/main.rs:5211-5230 | Two transfers never share an approval. |
| RelayGate.RelayApprovalGate.ConfirmWrite | gui/citrate_native/src/main.rs:1294-1334 | A declined write is refused without asking; otherwise the user is asked, and a refusal is remembered. |
| RelayGate.NoPromptStorm | gui/citrate_native/src/main.rs:1275-1277 | In every run nobody is asked again about a write that was refused. |
| RelayGate.ConfirmedExactlyWhen | gui/citrate_native/src/main.rs:1294-1334 | A write is confirmed if and only if it was never refused before and the user agrees at that attempt. |
| RelayGate.VerdictsAre | gui/citrate_native/src/main.rs:1294-1334 | Told from the attempts and their verdicts alone: the user is asked at every attempt but those for writes refused before, and an attempt succeeds if and only if the user is asked and agrees. |
| RelayGate.RefusalIsFinal | gui/citrate_native/src/main.rs:1275-1277 | Once refused, a write is never confirmed. |
| FileIndex.FilesIndex.Upsert | gui/citrate_native/src/storage_service.rs:194-206 | Any vector changes at the first record of the file or at the front; one that represents a catalog represents it with the file put in. |
| FileIndex.FilesIndex.Remove | gui/citrate_native/src/storage_service.rs:209-215 | The first record of the file is returned and taken out of any vector; one that represents a catalog represents it without the file. |
| FileIndex.RecordIsLatest | gui/citrate_native/src/storage_service.rs:194-215 | After any run a file is listed if and only if it was uploaded since its last removal; its fields are those of the last upload, its name the first that was not empty. |
| FileIndex.ListedIff | gui/citrate_native/src/storage_service.rs:194-215 | After any run a file is listed if and only if some upload of it is not followed by its removal. |
| FileIndex.AsLastUploaded | gui/citrate_native/src/storage_service.rs:194-206 | Its size and time are those of its last upload. |
| FileIndex.NamedByFirst | gui/citrate_native/src/storage_service.rs:194-206 | Its name is the first that an upload since its removal gave it. |
| FileIndex.OrderIsNewestFirst | gui/citrate_native/src/storage_service.rs:192-215 | After any run no file is listed twice, and those listed later stand further in front. |
| FileIndex.IndexFile.Save | gui/citrate_native/src/storage_service.rs:180-190 | A save that is killed anywhere leaves the target untouched until the rename. |
| FileIndex.IndexFile.Load | gui/citrate_native/src/storage_service.rs:160-175 | A missing or unreadable index is an empty one. |
| FileIndex.LoadGivesLastSaved | gui/citrate_native/src/storage_service.rs:160-190 | After any sequence of saves, each killed anywhere, loading gives the complete index of the last one that was finished. |
| FileIndex.BehavesAsMapIffNoTwice | gui/citrate_native/src/storage_service.rs:194-215 | A vector represents a catalog, so that uploads and removals keep one, if and only if it lists no file twice. |
| FileIndex.LoadedTwiceIffSavedTwice | gui/citrate_native/src/storage_service.rs:158-175 | After any saves, each killed anywhere, the loaded index lists no file twice if and only if the last one finished did not. |
| FileIndex.StillListedIff | gui/citrate_native/src/storage_service.rs:209-215 | After a removal the file is still listed if and only if it was listed again further back. |
| FileIndex.RunCount | gui/citrate_native/src/storage_service.rs:194-215 | In every run from any index, a file goes from the list only after as many removals as there were records of it. |
| FileIndex.RunEndsWithNoneTwice | gui/citrate_native/src/storage_service.rs:194-215 | Whether a run ends with no file listed twice can be told from how often each was listed before and the changes. |
| FileIndex.RemovedYetListed | gui/citrate_native/src/storage_service.rs:158-175 | A file on disk that lists a file twice is loaded as it is, and after its removal the file is still listed. |

## Left out

- Floating point: coordinates and times are exact reals; rounding of results, infinities, negative zero and NaN are not modelled.
- Trigonometry: the placement of points by sine and cosine is taken as given in `AlignOffset`, and the interpolation of frames and the geometry of the arc (`build_arc`) are not modelled.
- AlignOffset.AlignOffset: the "infinitely bad" start value of the search is an absent value, and the slot's angle in radians is a parameter.
- Resample.Resample: an empty outline may only be asked for no points, because the source would index out of bounds.
- Elliptical arcs: the parser refuses them, and so does the model.
- Text encodings: names, prompts and pool texts are sequences of bytes or characters; the lossy UTF-8 conversion of the pool decoder is any function, and lower-casing outside ASCII is not modelled (all accepted addresses are ASCII).
- Selectors.DecodeCalldata: a text whose eighth byte falls inside a multi-byte character makes the source panic; such texts are not hexadecimal and not covered. The concrete list of signatures is any list.
- AbiPool.DecodeAnyLayout: offsets of a reply are unbounded numbers; overflow of the source's machine integers on larger offsets is not modelled.
- Eip55.CapitalsAt: the hash may have any number of digits; the source panics on letters beyond its 64th.
- RotatingLog.FileLogWriter.DoRotate: a rename that succeeds followed by an open that fails is not modelled.
- SessionMarker.CrashDir.StartupScan: a record is written whole or not at all; creating the directory and the panic hook's own records are not part of the model. Process ids are the numbers of sessions.
- The other redaction expressions and their composition: one pass can make text that an earlier one would match, so only the identifier pass is claimed.
- SecretMigration.AppConfig.Load: reading and parsing the file are outside, and a rewrite of the file happens whole or not at all; a plaintext secret that begins like a marker is taken for one, as in the source. The data directory, which only the branch that is never taken would set, and the fields that loading never touches are omitted.
- ChatLoop.ChatService.SendMessageWithTools: message ids, the notification of the listener and request settings are not modelled; of the times of messages only that of the prompt is stated; nobody else writes to the history during a turn.
- ChatTools.Executor.Execute: the reads (balances, blocks, history) are any results; calls run one after the other, as the loop makes them. The texts of results are not modelled.
- FileIndex.IndexFile.Save: the file system's rename is atomic, and creating the directory succeeds; the index's text format is any that reads back.
- Activity lists, amount formatting, uploads, marketplace queries, and all other HTTP and JSON handling: one-branch code or calls into foreign systems.
- Cryptography, the keychain, the wallet and node services, the event bus and all user interface wiring: foreign code or plumbing.
