# node-mss in Dafny

This project models the core of `node-mss`, a parser for Microsoft Smooth Streaming
manifests, and proves properties of the model. The parser is a writable stream
(`MSSParser`). It decodes incoming byte chunks to text and keeps that text in a buffer.
At the end of input it parses the buffer as XML and builds an `MSS` model from it: a
header, the streams (`StreamIndex` elements), and the quality levels of each stream
(`QualityLevel` elements). The builder also turns each quality level's FourCC tag and
hex-encoded codec private data into a codec string such as `avc1.640028` or `mp4a.40.2`.

Modules, leaf first:

- `Wrappers` (`wrappers.dfy`): `Option` (a value or `undefined`) and `Result` (a value or
  a thrown error).
- `Js` (`js.dfy`): the JavaScript built-ins the code depends on.
  - `parseInt`: leading white space, sign, a `0x` prefix in radix 16, then the longest
    run of digits. NaN is `None`.
  - `String.prototype.substr` and `String.prototype.indexOf`.
  - `Array.prototype.map` with a callback that may throw.
  - ToString of `undefined` (the text `"undefined"`).
  - The `TypeError` raised by reading a property of `undefined`.
- `Codec` (`codec.dfy`): `MSS.parseCodePrivateData`. The regular expression
  `/00000001[0-9]7/` is an explicit leftmost-match search (`FindSpsMarker`). `indexOf`
  and `substr` are applied exactly as the source writes them. The AAC object type is
  `(b & 0xF8) >> 3`. Here `&` is a bit-by-bit AND on the unsigned 32-bit image of `b`
  (ToUint32). ToInt32 has the same low 32 bits, and the mask clears the sign bit, so the
  result is the same non-negative number. The shift by 3 is then a division by 8.
- `Manifest` (`manifest.dfy`): the `MSS` constructor.
  - The XML tree is a `Node` with `@_`-prefixed attributes and list-valued children.
  - The model is the `Header`, `Stream`, `QualityLevel` and `Mss` datatypes. The `header`
    and `streams` getters are the fields of `Mss`.
  - The constructor is `BuildMss`. Where the source would throw a `TypeError`, it
    returns `Err`.
- `Parser` (`parser.dfy`): the `MSSParser` class.
  - Its fields are `encoding`, `stringBuffer`, `mssJsonObj` and `mssObj`, plus a ghost
    list of the chunks written so far.
  - `Write` models `_write`, `Final` models `_final`, `ToString` models `toString` and
    `Model` models the `mss` getter.

The XML library and Node's `StringDecoder` are outside the model and are parameters:
- `Final` takes the XML parser as a function `xmlParse: string -> Node`.
- The constructor takes the decoder as a function from an encoding and a chunk to the
  text that a fresh `StringDecoder` returns from `write`.

Some behaviours of the code that a reader might not expect, all kept by the model:
- The text accumulator creates a new `StringDecoder` for every chunk (index.ts:126).
  So a multi-byte character split across two chunks is not carried over, and the buffer
  is the per-chunk texts joined (`DecodeEachAppend`). The text of a whole document is
  not in general the same as the text of its chunks.
- The default encoding is `"utf8"`, not a single-byte encoding.
- The AVC profile triplet keeps the case of the private data. Nothing lower-cases it.
- When the tree lacks its root, its `StreamIndex` list or a `QualityLevel` list, the code
  throws a `TypeError` rather than a dedicated structure error. The same happens when an
  AAC level has no private data.
- Chunks written after the end of input are refused by Node's `Writable`, not by this
  code, so the model has no state machine for that.

## Model

| member | source | states |
|---|---|---|
| `Js.ParseInt` | index.ts:52-56 | `parseInt(text, radix)` for radix 10 (also index.ts:62-70 and 78-82) and 16 (index.ts:99): skip leading white space, read a sign, drop a `0x` prefix in radix 16, and take the value of the longest run of digits. With no digit the result is NaN (`None`). Its properties are the `ParseInt…` lemmas below. |
| `Js.Substr` | index.ts:95 | `substr(start, length)`, also at index.ts:99: a negative start counts from the end and is clamped at 0, the length is clamped to 0 and to what remains. `SubstrInside` states the result. |
| `Js.IndexOf` | index.ts:95 | `indexOf(text)`: the first position where the text occurs, or -1. `IndexOfFrom` states the result. |
| `Js.MapOrThrow` | index.ts:58-59 | Mapping succeeds iff the callback succeeds on every element. Then the result has the same length and holds each element's image in order. Otherwise the error is the one thrown by the first failing element. |
| `Js.SubstrInside` | index.ts:95 | `substr(start, length)` from a position inside the text takes the characters from `start` up to `length` of them, stopping at the end of the text. |
| `Js.IndexOfFrom` | index.ts:95 | `indexOf` returns -1 iff the text never occurs. Otherwise it returns a position where it occurs, with no occurrence before it. |
| `Js.ParseIntWithoutDigits` | index.ts:52-56 | `parseInt` of a text starting with something other than white space, a sign or a digit is NaN. |
| `Js.ParseIntOfUndefined` | index.ts:62-70 | `parseInt` of a missing attribute (the text "undefined") is NaN in radix 10 and in radix 16. |
| `Js.ParseIntOfDecimal` | index.ts:52 | `parseInt(·, 10)` reads back the decimal text of every non-negative number, and stops at the first non-digit. |
| `Js.ParseIntOfHexPair` | index.ts:99 | `parseInt(·, 16)` of two hex digits is the byte they spell. |
| `Js.NatToString` | index.ts:100 | The decimal text of a number is non-empty, all digits, and has no leading zero. Its value is the number itself, by `Js.DigitsValueOfNatToString`. |
| `Js.DigitsValueOfNatToString` | index.ts:100 | The digits of the decimal text of `n`, read in radix 10, give back `n`. |
| `Codec.ParseCodecPrivateData` | index.ts:90-102 | The decoder: "avc1." and the profile after the first SPS marker for "H264", "mp4a.40." and the object type for a tag starting with "AAC" (throwing without private data), and `undefined` for any other tag. Its properties are the `Codec` lemmas below. |
| `Codec.FindSpsMarker` | index.ts:93 | Returns the leftmost position matching `/00000001[0-9]7/`, or none when nothing matches. |
| `Codec.AacObjectType` | index.ts:99 | `(b & 0xF8) >> 3` always lies in 0..31. |
| `Js.BitAndF8` | index.ts:99 | Masking a non-negative number with 0xF8 keeps exactly its bits 3 to 7: the result is 8 times ((u / 8) mod 32). |
| `Codec.IndexOfFirstMarker` | index.ts:95 | `indexOf` of the matched text returns the match position itself. |
| `Codec.H264CodecFromFirstMarker` | index.ts:91-97 | For "H264" with first marker at `i`, the codec is "avc1." followed by the private data from `i+10`, up to six characters. |
| `Codec.H264ProfileLength` | index.ts:95-97 | That codec starts with "avc1." and has 6 characters after it, or fewer when the data ends sooner (`substr` clamps). |
| `Codec.H264Example` | index.ts:93-97 | "0000000167640028…" gives "avc1.640028". |
| `Codec.H264CodecWithoutMarker` | index.ts:93-97 | For "H264" with no marker, or with no private data, the codec is exactly "avc1.undefined". |
| `Codec.AacObjectTypeIsHighBits` | index.ts:99 | The object type is bits 3-7 of the low byte of the parsed number, with 0 for NaN. |
| `Codec.AacCodec` | index.ts:98-100 | For a tag starting with "AAC", the codec is "mp4a.40." + decimal of ((b mod 256) / 8). `b` is the first two characters read as hex, 0 if they do not parse. The value is in 0..31. |
| `Codec.AacCodecOfHexByte` | index.ts:98-100 | When the first two characters are hex digits, the object type is that byte shifted right by 3. |
| `Codec.AacLowComplexityExample` | index.ts:98-100 | For any AAC tag, private data starting with "12" (as in "1210", AAC-LC) gives "mp4a.40.2". |
| `Codec.AacWithoutPrivateDataThrows` | index.ts:99 | An AAC tag with no private data throws reading `substr` of `undefined`. |
| `Codec.CodecThrowsOnlyForAacWithoutData` | index.ts:90-102 | The decoder throws iff the tag starts with "AAC" and the private data is absent. |
| `Codec.OtherFourCCHasNoCodec` | index.ts:90-102 | Any other tag gives no codec string (`undefined`). |
| `Codec.MissingFourCCHasNoCodec` | index.ts:91-98 | A missing tag gives no codec string. |
| `Manifest.BuildMss` | index.ts:49-88 | The constructor: the root is the first `SmoothStreamingMedia` child, the header is built from it, and each `StreamIndex` child is built in order. A `TypeError` the source would throw is `Err`. Its properties are `BuildSucceedsIffWellShaped` and `BuildPreservesStructure`. |
| `Manifest.BuildHeader` | index.ts:50-57 | The header: the version text, the raw parses of the four numeric attributes, and liveness. Its properties are `LivenessIsExact`, `VersionJoinsAttributes` and `HeaderNumbersHaveNoFallback`. |
| `Manifest.BuildQualityLevel` | index.ts:59-73 | One quality level: the attribute texts, the bitrate parse, the `\|\| undefined` parses, and the decoder's codec; it fails only as the decoder does. Its properties are `QualityLevelSucceeds`, `QualityLevelNumbers` and `BuiltLevelCodec`. |
| `Manifest.BuildStream` | index.ts:58-87 | One stream: its quality levels in order (failing without a `QualityLevel` list or on the first failing level), its attributes, and an empty chunk list. Its properties are `StreamSucceeds`, `StreamNumbers` and `BuiltStreamStructure`. |
| `Manifest.OrUndefined` | index.ts:64-70 | `x \|\| undefined` is absent iff x is NaN or 0. Otherwise it equals x, which is then non-zero. |
| `Manifest.IntAttrOfDecimal` | index.ts:62-70 | A decimal attribute parses to its number. With `\|\| undefined` it is absent only when that number is 0. |
| `Manifest.IntAttrOfMissing` | index.ts:62-70 | A missing numeric attribute is absent, with or without `\|\| undefined`. |
| `Manifest.QualityLevelNumbers` | index.ts:62-70 | The bitrate is the raw parse. Max width and height, channels, sampling rate, bits per sample and packet size are absent exactly when the parse is NaN or 0, and otherwise equal it. |
| `Manifest.StreamNumbers` | index.ts:78-82 | The stream's chunk count is the raw parse. Its max and display sizes are absent exactly when the parse is NaN or 0. |
| `Manifest.LivenessIsExact` | index.ts:54 | `isLive` holds iff the `IsLive` attribute is exactly "TRUE". "true" is not live. |
| `Manifest.VersionJoinsAttributes` | index.ts:51 | The version is MajorVersion + "." + MinorVersion. A missing major version reads "undefined.". |
| `Manifest.HeaderNumbersHaveNoFallback` | index.ts:52-56 | Timescale, duration, DVR window length and look-ahead count are each exactly `parseInt(·, 10)` of their attribute, NaN included, with no fallback. So a decimal text gives its number, 0 included. |
| `Manifest.QualityLevelSucceeds` | index.ts:59-73 | Building a quality level fails iff it is an AAC level without private data. |
| `Manifest.BuiltLevelCodec` | index.ts:71 | A built quality level's codec is exactly what the decoder returns for that level's FourCC tag and private data. |
| `Manifest.StreamSucceeds` | index.ts:58-87 | Building a stream fails iff it has no `QualityLevel` list, or one of its levels fails. |
| `Manifest.BuildSucceedsIffWellShaped` | index.ts:49-88 | The build succeeds iff the tree has a root, a `StreamIndex` list, and a `QualityLevel` list in each stream whose AAC levels all have private data. |
| `Manifest.BuiltStreamStructure` | index.ts:58-86 | A built stream has an empty chunk list and one quality level per `QualityLevel` child. Each level is the build of that child and carries the decoder's result for it. |
| `Manifest.BuildPreservesStructure` | index.ts:58-87 | A built model has one stream per `StreamIndex` element and one quality level per `QualityLevel` child, both in order. Each stream is the build of its element and each level the build of its child. Each level's codec is the decoder's result, and every chunk list is empty. |
| `Manifest.LiveManifestWithTwoStreams` | spec/index_spec.js:16-25 | A live manifest with a video stream of one H.264 level and an audio stream of one AAC level, both with private data, builds a live model with two streams. The video codec is "avc1." and the profile after the marker, the audio codec "mp4a.40.2". |
| `Parser.DecodeEach` | index.ts:125-130 | The buffer after a series of writes: each chunk decoded by a fresh decoder and the texts joined in order. Its properties are `DecodeEachAppend` and `EarlierTextIsPrefix`. |
| `Parser.SelectEncoding` | index.ts:121 | The encoding defaults to "utf8" with no options, no encoding or an empty one. Otherwise it is the given encoding. |
| `Parser.DecodeEachAppend` | index.ts:125-130 | The text of chunks `cs + ds` is the text of `cs` followed by the text of `ds`. Each chunk is decoded separately. |
| `Parser.EarlierTextIsPrefix` | index.ts:128 | More writes never change the text already in the buffer: it stays a prefix. |
| `Parser.MssParser.constructor` | index.ts:119-123 | A fresh parser has the chosen encoding, an empty buffer, no chunks written and no model. |
| `Parser.MssParser.Write` | index.ts:125-130 | A write appends the chunk's text to the buffer and records the chunk. The earlier buffer content is unchanged. |
| `Parser.MssParser.Final` | index.ts:132-141 | The tree is always kept. The outcome is the build of the parsed buffer. The model (what the `mss` getter returns) is stored only when the build succeeds. |
| `Parser.MssParser.Model` | index.ts:143-145 | The `mss` getter: the model stored by the last `Final` whose build succeeded, or none before that. `Final` states how it changes. |
| `Parser.MssParser.ToString` | index.ts:147-149 | `toString()` is the per-chunk texts of all chunks written so far, joined in order. |
| `Parser.ParseTwoChunks` | index.ts:119-141 | A client that constructs a parser, writes two chunks and finishes. With two chunks, the buffer is the two per-chunk texts joined, and the result is the build of the parsed buffer. |

## Left out

- Node stream plumbing is not modelled: `Writable` inheritance, the `next` callbacks, the "finish" and "error" events, and `debug` logging. A build failure is returned as the `Err` outcome of `Final`, not as an event.
- The XML library (`fast-xml-parser`) is a parameter of `Final`. Its own errors are not modelled. Attribute values are strings, as the library leaves them by default. Text content is not modelled because the code never reads it.
- The tree assumes every `SmoothStreamingMedia`, `StreamIndex` and `QualityLevel` element is a non-leaf element, so each of them is a `Node`. With `arrayMode` on, the library may leave a leaf element with no attributes and no children (a bare `<QualityLevel/>`) as the empty string and not wrap it in a list. Then `"".map` throws at index.ts:59, while the model builds a level for it.
- `Parser.ParseTwoChunks` is a generic write-write-finish client. The assertions of the fixture-based tests (a given `isLive` value and two streams for a particular manifest file) depend on fixtures outside this model.
- Node's `StringDecoder` and `Buffer` are a decoder parameter. No real UTF-8 or UTF-16LE decoding is modelled. An unknown encoding name, which makes the decoder throw, is not modelled either.
- Strings are sequences of Unicode scalar values, while JavaScript indexes UTF-16 code units. `substr` and `indexOf` positions differ only for characters outside the Basic Multilingual Plane, which hex private data never holds.
- Js.ParseIntOfDecimal: numbers are unbounded integers, so the rounding of `parseInt` results beyond 2^53 is not modelled. A negative zero is the integer 0.
- `examples/parse.js` (network fetch and console output) and the fixture files read by `spec/index_spec.js` are driver and test code. They are not part of this model.
