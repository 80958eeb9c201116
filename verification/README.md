# extract-transcript: the flat stream and the text renderers

A Dafny model of the core of `extract-transcript`, a tool that turns a
speech-recognition transcript into other forms. The transcript is a
recording whose element 0 is an array of locale blocks
`[words, isNewLocale, locale]`. Each word is a record with canonical text,
decorated text, a start and an end time in milliseconds, and fields the
tool never interprets.

The model has five modules:

- `Transcript` (transcript.dfy) holds the data model: `Word`, `Block`, the
  `Recording`, and `AllWords`, the words of a block list in order.
- `JsString` (js_string.dfy) models the JavaScript string operations the
  renderers depend on:
  - `String.prototype.trim` over the ECMAScript white-space set;
  - `Array.prototype.join`;
  - how a template literal renders a natural number;
  - `Split`, which reads joined text back field by field.
- `FlatRecording` (flat_recording.dfy) models `flattenRecording`. It emits
  a top header (level 0, version "1.0") and a block-array header (level 1).
  Then, for each block, it emits a block header (level 2, carrying the
  block's `isNewLocale` and `locale`) followed by the block's words. A
  parser, `Unflatten`, cuts such a stream back into blocks. It shows that
  the stream loses nothing, including blocks without words.
- `Extractor` (extractor.dfy) models the renderers. These are `extract`
  (plain text), `extractWithTimestamps` and `formatAsTranscript` (one
  `stamp<TAB>text` line per block), `formatAsSRT` (numbered cues) and
  `formatWords`. The two luxon clock formats are function parameters:
  `clock` stands for `m:ss` and `srtClock` for `hh:mm:ss,SSS`. The
  properties are stated the way a reader of the output sees them: split
  at line breaks, the text gives back one line per block, or four lines
  per SRT cue.
- `Quantizer` (quantizer.dfy) models `quantizeBlocks` and
  `extractWithBlockInterval`. Both are written as the source's `reduce`
  fold with no initial value. The fold is proved equal to a declarative
  reference: cut the block list wherever the interval
  `floor(start / interval)` of a block's first word changes, and merge
  each piece. `extractWithBlockInterval`, which folds `[start, text]`
  pairs, is proved to print the transcript of `quantizeBlocks` applied
  with the same interval width. The model gives that width as
  `1000 * interval`, a whole number of milliseconds, so an interval of 2.5
  seconds is the width 2500.

Intervals are floored with Dafny's `/`. For a positive divisor this is
JavaScript's `Math.floor(a / b)`, negative start times included.

## Model

| member | source | states |
|---|---|---|
| FlatRecording.FlattenRecording | lib/flatRecording.js:14-26 | The stream has 2 + (number of blocks) + (number of words) items. It opens with the top header (level 0, type "top", version "1.0") and then the block-array header (level 1, type "blockArray"). When there is a block, item 2 is the first block's header. |
| FlatRecording.FlattenBlocks | lib/flatRecording.js:19-24 | The `forEach` over the blocks pushes one item per block and one per word, and when there is a block the first item pushed is that block's header. |
| FlatRecording.FlattenReadsOnlyBlockArray | lib/flatRecording.js:16 | Two recordings with the same block array `recording[0]` flatten to the same stream: later elements are never read. |
| FlatRecording.FlattenRecordingLevels | lib/flatRecording.js:17-20 | Every header after the first two items is a level-2 block header. |
| FlatRecording.FlattenKeepsWords | lib/flatRecording.js:19-24 | With the headers removed, the stream is exactly the words of all blocks, block by block and in order: nothing is lost, added or reordered. |
| FlatRecording.FlattenBlockHeaders | lib/flatRecording.js:10-12 | There is exactly one level-2 header per block, in block order, and the header for block i carries block i's `isNewLocale` and `locale`. |
| FlatRecording.FlattenLayout | lib/flatRecording.js:19-24 | Block i's header sits at position 2 + i + (number of words before it), and its words fill the positions right after it. The item that follows is either the next block header or the end of the stream. |
| FlatRecording.FlattenEmptyBlock | lib/flatRecording.js:19-24 | A block with no words still gets its header. The header is followed directly by the next block header or by the end of the stream. |
| FlatRecording.UnflattenFlatten | lib/flatRecording.js:14-26 | Cutting the stream at its block headers gives back the block array `recording[0]`. This is the round trip. |
| FlatRecording.FlattenInjective | lib/flatRecording.js:14-26 | Two recordings flatten to the same stream only when their block arrays are equal. |
| JsString.TrimSpec | lib/extractor.js:124 | `trim` leaves no white space at either end, and its result is a contiguous piece of the input with only white space around it. |
| JsString.TrimIdempotent | lib/extractor.js:124 | Trimming twice gives the same result as trimming once. |
| JsString.JoinLength | lib/extractor.js:124 | n parts joined have the parts' characters plus n - 1 separators. |
| JsString.SplitJoin | lib/extractor.js:23 | When no part contains the separator character, splitting the joined text at that character gives the parts back. |
| JsString.NatToStringDigits | lib/extractor.js:118 | The cue number is written in decimal digits with no leading zero. |
| JsString.NatToStringRoundTrip | lib/extractor.js:118 | Reading the decimal cue number `${index+1}` back as a number gives the number. |
| Extractor.RenderWordIsTrimmedSource | lib/extractor.js:124 | A rendered word has no white space at either end. It is the decorated text when that is present, even when empty (`??` falls back only when the value is missing), and otherwise the canonical text, with only the surrounding white space removed. |
| Extractor.EmptyDecoratedIsKept | lib/extractor.js:124 | A word whose decorated text is present but empty renders as the empty string: `??` falls back to the canonical text only when the decorated text is missing. |
| Extractor.FormatWordsLength | lib/extractor.js:122-125 | Formatting n words gives the rendered words' characters plus n - 1 single spaces. |
| Extractor.FormatWordsSplits | lib/extractor.js:122-125 | When no rendered word contains a space, splitting the formatted text at spaces gives every rendered word back, in order, one field per word. |
| Extractor.FormatWordsAppend | lib/extractor.js:122-125 | Formatting two non-empty word lists together is formatting each one and putting a single space between them. |
| Extractor.ExtractIsFormatWordsOfAllWords | lib/extractor.js:8-13 | When no block is empty, the plain text equals the formatting of all the recording's words as one list, so block boundaries leave no trace. An empty block array gives the empty text on both sides. |
| Extractor.ExtractWithTimestampsIsTranscript | lib/extractor.js:15-24 | `extractWithTimestamps(r)` prints exactly `formatAsTranscript(r[0])`. |
| Extractor.TranscriptLinesAreBlocks | lib/extractor.js:100-106 | Split at line breaks, the transcript has exactly one line per block. Line i is the clock stamp of block i's first word, a tab, and block i's formatted words. |
| Extractor.TranscriptAppend | lib/extractor.js:100-106 | Appending a block to a non-empty list appends one line break and that block's line. |
| Extractor.TranscriptNoTrailingNewline | lib/extractor.js:100-106 | The transcript of one or more blocks is non-empty and does not end in a line break. |
| Extractor.SrtLinesAreCues | lib/extractor.js:111-120 | Split at line breaks, the SRT text has four lines per block. For block i they are the number i + 1, then `start --> end` running from the first word's start to the last word's end, then the formatted words, then a blank line. |
| Extractor.SrtAppend | lib/extractor.js:111-120 | Appending a block appends a line break and then that block's cue, numbered one more than the number of blocks before it. |
| Extractor.SrtSingleBlock | lib/extractor.js:111-120 | A single block gives one cue numbered "1" that ends in exactly one line break. This is the shape of the repository's sample1 expectation (test/tests.js:77). |
| Quantizer.BucketBounds | lib/extractor.js:71-78 | The interval index of a block is the r with r * interval <= the first word's start < (r + 1) * interval. |
| Quantizer.AbsorbKeepsBucket | lib/extractor.js:81-84 | Absorbing a block keeps the run's first word, so the merged block stays in the interval of the run's first block. Comparing later blocks with `lastInterval` is therefore comparing them with the block being built. |
| Quantizer.QuantizeFrom | lib/extractor.js:75-93 | The reducer only appends: the blocks already pushed stay in front, and the rest of the fold adds at least the open run and at most one block per remaining input block. |
| Quantizer.QuantizeBlocks | lib/extractor.js:68-96 | The result has between 1 and |blocks| blocks, none of them empty, and its words, read in order, are exactly the input's words. |
| Quantizer.RunStartsSpec | lib/extractor.js:85-90 | The indices where a new output block opens are strictly increasing, all open a new interval, and the first one is block 0. |
| Quantizer.QuantizeBlocksIsRuns | lib/extractor.js:68-96 | The fold equals the reference: one merged block for each maximal run of consecutive blocks whose first words start in the same interval. |
| Quantizer.QuantizedBlocksAreSegments | lib/extractor.js:75-93 | Output block j holds the words of input blocks starts[j] up to the next run start, in order. It starts with the first word of its first block and carries that block's `isNewLocale` and `locale`. |
| Quantizer.QuantizedBlocksShareInterval | lib/extractor.js:81-84 | Every input block merged into output block j starts in the same interval as output block j. |
| Quantizer.QuantizedNeighboursDiffer | lib/extractor.js:85-90 | Neighbouring output blocks start in different intervals, so nothing mergeable is left apart. |
| Quantizer.QuantizeNoMergeBack | lib/extractor.js:81-90 | Only neighbours are compared: blocks at 0, 6000 and 1000 ms with interval 5000 stay three blocks, although the first and the last share an interval. |
| Quantizer.QuantizeCommentExample | lib/extractor.js:61-66 | The example in the source comment: blocks at 0, 3000, 6000 and 9000 ms with interval 5000 give two blocks, holding the words of the first two and of the last two. |
| Quantizer.ExtractWithBlockIntervalIsQuantized | lib/extractor.js:26-59 | `extractWithBlockInterval(r, s)` prints exactly `formatAsTranscript(quantizeBlocks(r[0], 1000 * s))`: the same grouping, stamps and texts. The interval is given as its width `1000 * s` in whole milliseconds. |
| Quantizer.MergeFrom | lib/extractor.js:39-54 | The `[start, text]` reducer only appends: the pairs already pushed stay in front, and the rest of the fold adds at least the pair being built and at most one pair per remaining input pair. |
| Quantizer.MergeFromIsQuantizeFrom | lib/extractor.js:39-54 | At every step, the `[start, text]` fold computes the start and text pairs of the block fold's result. |
| Quantizer.BlockIntervalTenSeconds | test/tests.js:49-52 | One-word blocks at 0, 5, 10, 15 and 20 s with interval 10 (width 10000 ms) print three lines: stamp 0 with the first two words, stamp 10000 with the next two, and stamp 20000 with the last. |
| Quantizer.BlockIntervalSevenSeconds | test/tests.js:54-57 | With interval 7 (width 7000 ms), the same blocks print three lines: stamp 0 with the first two words, stamp 10000 with the third, and stamp 15000 with the last two. |

## Left out

- Clock formatting: luxon's `Duration.toFormat("m:ss")` and `"hh:mm:ss,SSS"` are the function parameters `clock` and `srtClock`. The properties hold for every clock. The SRT and transcript line properties (`TranscriptLinesAreBlocks`, `SrtLinesAreCues`) assume that neither the clock's output nor any rendered word contains a line break. A word can hold one: `trim` removes white space only at the ends, so a line break inside a word's text stays, and the output then has more lines than blocks. The other properties make no such assumption.
- Logging: the `console.log` calls in `quantizeBlocks` (lib/extractor.js:72, 79, 83, 86) have no effect on the result and are not modelled.
- Aliasing: `quantizeBlocks` pushes words into the input's own first block of each run (lib/extractor.js:84, with the reduce seeded by `blocks[0]`), so the caller's blocks are changed too. The model is pure and returns new blocks. Its only caller in the repository, extract-transcript.js, replaces `blocks` with the result.
- Mutation in `extractWithBlockInterval`: the in-place update of `memo[1]` (line 46) is modelled as building a new pair.
- Errors on malformed input: where the source would throw a `TypeError`, the model has preconditions instead:
  - an empty `recording`;
  - an empty block array in the two interval functions. Both throw before their `reduce` runs: `quantizeBlocks` reads `blocks[0][0][0]` (lib/extractor.js:71) and `extractWithBlockInterval` reads `blocks[0][0]` (lib/extractor.js:36);
  - a block without words in any function that reads `b[0][0]`.

  `extract` and `flattenRecording` handle a block whose word list is empty (`[[], isNewLocale, locale]`), and the model does too.
- Blocks with no word list at all: a zero-word block written as `[]` makes `b[0].map` (lib/extractor.js:10) and `block[0].forEach` (lib/flatRecording.js:21) throw a `TypeError`. The `Block` datatype always has a word list, so the model cannot express this shape.
- Quantizer.BucketBounds: the interval width is a positive whole number of milliseconds. In JavaScript, a zero width gives `Infinity`, `-Infinity` or `NaN` buckets, a non-numeric one gives `NaN` buckets, and a negative or fractional width gives ordinary floored quotients. The precondition excludes all of these.
- Quantizer.ExtractWithBlockInterval: the interval is taken as its width `1000 * interval` in whole milliseconds. An interval whose width is not a whole positive number of milliseconds is not covered. Examples are 0.0015 seconds, and floating-point products such as `1000 * 1.005`, which is 1004.9999999999999.
- JavaScript coercions: times are integers, and the numeric-string form some transcripts carry is not modelled.
- The uninterpreted word fields (two reserved fields and the speaker/confidence pair) are one opaque `Payload`, carried through unchanged.
- `trim` follows the ECMAScript WhiteSpace and LineTerminator sets, written out as a predicate. Characters outside that list are never trimmed.
- Engine limits: array length, string length and argument-spread limits (`push(...block[0])` on a very large block) are not modelled.
- extract-transcript.js imports several things that do not appear in the library source, and none of them is part of this model:
  - `lib/config` (extract-transcript.js:1);
  - `formatAsText`, `formatAsWebVTT` and `softBreakBlocks` from lib/extractor.js (extract-transcript.js:3-10);
  - `fattenRecording`, `splitHyphenGenerator`, `joinHyphenGenerator`, `replaceGenerator` and `timeshiftStream` from lib/flatRecording.js (extract-transcript.js:13-20).
- `Unflatten` is this model's own reader of the flat stream. The library source has no reader in it.
- Command-line parsing, file reading and output printing (extract-transcript.js, index.js) are not part of this model.
- The tests in tests/tests.js target an older interface and are not modelled.
- The two `extractWithBlockInterval` tests (test/tests.js:49-57) are marked `todo`, and their fixture sample3.json is not part of this model. `BlockIntervalTenSeconds` and `BlockIntervalSevenSeconds` state their expectations for one-word blocks starting at 0, 5, 10, 15 and 20 seconds, which is what the expected texts describe.
- The fixtures sample1.json and sample2.json are not part of this model. The remaining tests at test/tests.js:27-85 are covered by the general lemmas above rather than by concrete strings.
