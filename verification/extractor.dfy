/**
 * Text assembly (lib/extractor.js): rendering words, plain text, the
 * timestamped transcript and SRT. The luxon clock formatting is a
 * parameter: `clock` for the transcript's `m:ss` stamp, `srtClock` for SRT's
 * `hh:mm:ss,SSS` stamp.
 */
module Extractor {
  import opened Transcript
  import opened JsString

  /**
   * `(word[WORD_DECORATED] ?? word[WORD_TEXT]).trim()`: the decorated text
   * when present (even when it is empty), otherwise the canonical text.
   */
  function RenderWord(w: Word): string {
    Trim(match w.decorated case Some(d) => d case None => w.text)
  }

  /**
   * A rendered word is its decorated text when that is present, otherwise
   * its canonical text, with the whitespace at both ends removed and nothing
   * else changed.
   */
  lemma {:induction false} RenderWordIsTrimmedSource(w: Word)
    ensures Trimmed(RenderWord(w))
    ensures w.decorated.Some? ==> exists i :: TrimmedAt(w.decorated.value, RenderWord(w), i)
    ensures w.decorated.None? ==> exists i :: TrimmedAt(w.text, RenderWord(w), i)
  {
    TrimSpec(match w.decorated case Some(d) => d case None => w.text);
  }

  /** Each word rendered, in order. */
  function RenderAll(words: seq<Word>): (r: seq<string>)
    ensures |r| == |words|
  {
    seq(|words|, k requires 0 <= k < |words| => RenderWord(words[k]))
  }

  /** `formatWords`: the rendered words joined with single spaces. */
  function FormatWords(words: seq<Word>): string {
    Join(RenderAll(words), " ")
  }

  /** An empty decorated text is kept: `??` falls back only on a missing value. */
  lemma {:induction false} EmptyDecoratedIsKept(w: Word)
    requires w.decorated == Some("")
    ensures RenderWord(w) == ""
  {
  }

  /** n words give the rendered characters plus n - 1 single-space separators. */
  lemma {:induction false} FormatWordsLength(words: seq<Word>)
    requires |words| > 0
    ensures |FormatWords(words)| == TotalLength(RenderAll(words)) + |words| - 1
  {
    JoinLength(RenderAll(words), " ");
  }

  /** Reading the text back field by field at single spaces gives each rendered word, when none contains a space. */
  lemma {:induction false} FormatWordsSplits(words: seq<Word>)
    requires |words| > 0
    requires forall k :: 0 <= k < |words| ==> ' ' !in RenderWord(words[k])
    ensures Split(FormatWords(words), ' ') == RenderAll(words)
    ensures |Split(FormatWords(words), ' ')| == |words|
  {
    SplitJoin(RenderAll(words), ' ');
  }

  /** Formatting two non-empty word lists one after the other puts one space between them. */
  lemma {:induction false} FormatWordsAppend(a: seq<Word>, b: seq<Word>)
    requires |a| > 0 && |b| > 0
    ensures FormatWords(a + b) == FormatWords(a) + " " + FormatWords(b)
  {
    var ra := RenderAll(a);
    var rb := RenderAll(b);
    forall k | 0 <= k < |a + b| ensures RenderAll(a + b)[k] == (ra + rb)[k] {
      if k < |a| { assert (a + b)[k] == a[k]; } else { assert (a + b)[k] == b[k - |a|]; }
    }
    assert RenderAll(a + b) == ra + rb;
    JoinAppend(RenderAll(a), RenderAll(b), " ");
  }

  /** A trimmed non-empty string does not end in a line break. */
  lemma {:induction false} TrimmedNoTrailingBreak(s: string)
    requires Trimmed(s) && |s| > 0
    ensures s[|s| - 1] != '\n'
  {
    assert IsWhitespace('\n');
  }

  /** A non-empty rendering never ends in a line break. */
  lemma {:induction false} FormatWordsLastChar(words: seq<Word>)
    requires |FormatWords(words)| > 0
    ensures FormatWords(words)[|FormatWords(words)| - 1] != '\n'
  {
    var parts := RenderAll(words);
    forall i | 0 <= i < |parts| && |parts[i]| > 0
      ensures parts[i][|parts[i]| - 1] != '\n'
    {
      RenderWordIsTrimmedSource(words[i]);
      TrimmedNoTrailingBreak(parts[i]);
    }
    JoinLastChar(parts, " ", '\n');
  }


  /** `extract`: every block's words formatted, the blocks joined with single spaces. */
  function Extract(recording: Recording): string
    requires |recording| > 0
  {
    Join(BlockTexts(recording[0]), " ")
  }

  /** The per-block renderings of `blocks`: the text of every block, as `extract` and the SRT cues print it. */
  function BlockTexts(blocks: seq<Block>): (r: seq<string>)
    ensures |r| == |blocks|
  {
    seq(|blocks|, i requires 0 <= i < |blocks| => FormatWords(blocks[i].words))
  }

  lemma {:induction false} BlockTextsJoin(blocks: seq<Block>)
    requires |blocks| > 0 && AllHaveWords(blocks)
    ensures Join(BlockTexts(blocks), " ") == FormatWords(AllWords(blocks))
    decreases |blocks|
  {
    var t := BlockTexts(blocks);
    assert AllWords(blocks) == blocks[0].words + AllWords(blocks[1..]);
    if |blocks| == 1 {
      assert blocks[0].words + [] == blocks[0].words;
    } else {
      var rest := blocks[1..];
      assert AllHaveWords(rest) by {
        forall i | 0 <= i < |rest| ensures |rest[i].words| > 0 {
          assert rest[i] == blocks[i + 1];
        }
      }
      BlockTextsJoin(rest);
      assert t[1..] == BlockTexts(rest);
      AllWordsNonEmpty(rest);
      FormatWordsAppend(blocks[0].words, AllWords(rest));
    }
  }

  /**
   * When no block is empty, the plain text is the rendering of all words of
   * the recording as one list; an empty block array gives the empty text.
   */
  lemma {:induction false} ExtractIsFormatWordsOfAllWords(recording: Recording)
    requires |recording| > 0 && AllHaveWords(recording[0])
    ensures Extract(recording) == FormatWords(AllWords(recording[0]))
  {
    if |recording[0]| == 0 {
      assert BlockTexts(recording[0]) == [];
      assert RenderAll(AllWords(recording[0])) == [];
    } else {
      BlockTextsJoin(recording[0]);
    }
  }

  /** A transcript line: the clock stamp of the block's first word, a tab, the block's text. */
  function TranscriptLine(block: Block, clock: int -> string): string
    requires |block.words| > 0
  {
    clock(block.words[0].start) + "\t" + FormatWords(block.words)
  }

  /** The transcript lines of `blocks`, one per block. */
  function TranscriptLines(blocks: seq<Block>, clock: int -> string): (r: seq<string>)
    requires AllHaveWords(blocks)
    ensures |r| == |blocks|
  {
    seq(|blocks|, i requires 0 <= i < |blocks| => TranscriptLine(blocks[i], clock))
  }

  /** `formatAsTranscript`: one line per block, joined by line breaks. */
  function FormatAsTranscript(blocks: seq<Block>, clock: int -> string): string
    requires AllHaveWords(blocks)
  {
    Join(TranscriptLines(blocks, clock), "\n")
  }

  /** The `[stamp, text]` pairs `extractWithTimestamps` builds, one per block. */
  function StampedPairs(blocks: seq<Block>, clock: int -> string): (r: seq<(string, string)>)
    requires AllHaveWords(blocks)
    ensures |r| == |blocks|
  {
    seq(|blocks|, i requires 0 <= i < |blocks| =>
      (clock(blocks[i].words[0].start), FormatWords(blocks[i].words)))
  }

  /** Each pair printed as `stamp<TAB>text`. */
  function PrintPairs(pairs: seq<(string, string)>): (r: seq<string>)
    ensures |r| == |pairs|
  {
    seq(|pairs|, i requires 0 <= i < |pairs| => pairs[i].0 + "\t" + pairs[i].1)
  }

  /** `extractWithTimestamps`: pairs of stamp and text, each pair printed as `stamp<TAB>text`. */
  function ExtractWithTimestamps(recording: Recording, clock: int -> string): string
    requires |recording| > 0 && AllHaveWords(recording[0])
  {
    Join(PrintPairs(StampedPairs(recording[0], clock)), "\n")
  }

  /** `extractWithTimestamps(r)` prints the same text as `formatAsTranscript(r[0])`. */
  lemma {:induction false} ExtractWithTimestampsIsTranscript(recording: Recording, clock: int -> string)
    requires |recording| > 0 && AllHaveWords(recording[0])
    ensures ExtractWithTimestamps(recording, clock) == FormatAsTranscript(recording[0], clock)
  {
    var blocks := recording[0];
    var printed := PrintPairs(StampedPairs(blocks, clock));
    var lines := TranscriptLines(blocks, clock);
    forall i | 0 <= i < |blocks|
      ensures printed[i] == lines[i]
    {
      assert printed[i] == StampedPairs(blocks, clock)[i].0 + "\t" + StampedPairs(blocks, clock)[i].1;
    }
    assert printed == lines;
  }

  /** Transcript text without line breaks in the stamps or the words. */
  ghost predicate NoLineBreaks(blocks: seq<Block>, clock: int -> string) {
    && (forall t :: '\n' !in clock(t))
    && (forall i, k :: 0 <= i < |blocks| && 0 <= k < |blocks[i].words| ==> '\n' !in RenderWord(blocks[i].words[k]))
  }

  lemma {:induction false} NoLineBreakInWords(words: seq<Word>)
    requires forall k :: 0 <= k < |words| ==> '\n' !in RenderWord(words[k])
    ensures '\n' !in FormatWords(words)
  {
    JoinWithout(RenderAll(words), " ", '\n');
  }


  /** Read line by line, the transcript has exactly one line per block: stamp, tab, text. */
  lemma {:induction false} TranscriptLinesAreBlocks(blocks: seq<Block>, clock: int -> string)
    requires |blocks| > 0 && AllHaveWords(blocks)
    requires NoLineBreaks(blocks, clock)
    ensures var lines := Split(FormatAsTranscript(blocks, clock), '\n');
      && |lines| == |blocks|
      && forall i :: 0 <= i < |blocks| ==>
           lines[i] == clock(blocks[i].words[0].start) + "\t" + FormatWords(blocks[i].words)
  {
    var lines := TranscriptLines(blocks, clock);
    forall i | 0 <= i < |lines|
      ensures '\n' !in lines[i]
    {
      NoLineBreakInWords(blocks[i].words);
      assert lines[i] == clock(blocks[i].words[0].start) + "\t" + FormatWords(blocks[i].words);
    }
    SplitJoin(lines, '\n');
  }

  /** A block appended to a non-empty list adds a line break and its own line. */
  lemma {:induction false} TranscriptAppend(blocks: seq<Block>, block: Block, clock: int -> string)
    requires |blocks| > 0 && AllHaveWords(blocks) && |block.words| > 0
    ensures AllHaveWords(blocks + [block])
    ensures FormatAsTranscript(blocks + [block], clock)
         == FormatAsTranscript(blocks, clock) + "\n" + clock(block.words[0].start) + "\t" + FormatWords(block.words)
  {
    AllHaveWordsSnoc(blocks, block);
    TranscriptLinesSnoc(blocks, block, clock);
    JoinAppend(TranscriptLines(blocks, clock), [TranscriptLine(block, clock)], "\n");
  }

  /** One more block adds one more line at the end. */
  lemma {:induction false} TranscriptLinesSnoc(blocks: seq<Block>, block: Block, clock: int -> string)
    requires AllHaveWords(blocks) && |block.words| > 0
    ensures AllHaveWords(blocks + [block])
    ensures TranscriptLines(blocks + [block], clock) == TranscriptLines(blocks, clock) + [TranscriptLine(block, clock)]
  {
    var all := blocks + [block];
    AllHaveWordsSnoc(blocks, block);
    var lines := TranscriptLines(blocks, clock);
    var line := TranscriptLine(block, clock);
    forall i | 0 <= i < |all| ensures TranscriptLines(all, clock)[i] == (lines + [line])[i] {
      if i < |blocks| { assert all[i] == blocks[i]; } else { assert all[i] == block; }
    }
  }

  /** The transcript of at least one block is not empty and has no trailing line break. */
  lemma {:induction false} TranscriptNoTrailingNewline(blocks: seq<Block>, clock: int -> string)
    requires |blocks| > 0 && AllHaveWords(blocks)
    ensures var t := FormatAsTranscript(blocks, clock); |t| > 0 && t[|t| - 1] != '\n'
  {
    var lines := TranscriptLines(blocks, clock);
    var last := blocks[|blocks| - 1];
    if |blocks| > 1 {
      assert blocks == blocks[..|blocks| - 1] + [last];
      TranscriptAppend(blocks[..|blocks| - 1], last, clock);
    }
    if |FormatWords(last.words)| > 0 {
      FormatWordsLastChar(last.words);
    }
  }

  /** An SRT cue: number line, timing line, text line, each ending in a line break. */
  function Cue(number: string, timing: string, text: string): string {
    number + "\n" + timing + "\n" + text + "\n"
  }

  /** The SRT timing line of a block: from its first word's start to its last word's end. */
  function SrtTiming(block: Block, srtClock: int -> string): string
    requires |block.words| > 0
  {
    srtClock(block.words[0].start) + " --> " + srtClock(block.words[|block.words| - 1].end)
  }

  /** The cue of the block at `index`, numbered `index + 1`. */
  function SrtEntry(index: nat, block: Block, srtClock: int -> string): string
    requires |block.words| > 0
  {
    Cue(NatToString(index + 1), SrtTiming(block, srtClock), FormatWords(block.words))
  }

  function SrtEntries(blocks: seq<Block>, srtClock: int -> string): (r: seq<string>)
    requires AllHaveWords(blocks)
    ensures |r| == |blocks|
  {
    seq(|blocks|, i requires 0 <= i < |blocks| => SrtEntry(i, blocks[i], srtClock))
  }

  /** `formatAsSRT`: one cue per block, cues separated by an extra line break. */
  function FormatAsSRT(blocks: seq<Block>, srtClock: int -> string): string
    requires AllHaveWords(blocks)
  {
    Join(SrtEntries(blocks, srtClock), "\n")
  }

  lemma {:induction false} AllHaveWordsSnoc(blocks: seq<Block>, block: Block)
    requires AllHaveWords(blocks) && |block.words| > 0
    ensures AllHaveWords(blocks + [block])
  {
    var all := blocks + [block];
    forall i | 0 <= i < |all| ensures |all[i].words| > 0 {
      if i < |blocks| { assert all[i] == blocks[i]; } else { assert all[i] == block; }
    }
  }

  lemma {:induction false} SrtEntriesSnoc(blocks: seq<Block>, block: Block, srtClock: int -> string)
    requires AllHaveWords(blocks) && |block.words| > 0
    ensures AllHaveWords(blocks + [block])
    ensures SrtEntries(blocks + [block], srtClock) == SrtEntries(blocks, srtClock) + [SrtEntry(|blocks|, block, srtClock)]
  {
    AllHaveWordsSnoc(blocks, block);
    var all := blocks + [block];
    var entries := SrtEntries(blocks, srtClock);
    var entry := SrtEntry(|blocks|, block, srtClock);
    forall i | 0 <= i < |all| ensures SrtEntries(all, srtClock)[i] == (entries + [entry])[i] {
      if i < |blocks| { assert all[i] == blocks[i]; } else { assert all[i] == block; }
    }
  }

  /**
   * A block appended to a non-empty list adds a line break and then the
   * block's cue, numbered one past the number of blocks before it.
   */
  lemma {:induction false} SrtAppend(blocks: seq<Block>, block: Block, srtClock: int -> string)
    requires |blocks| > 0 && AllHaveWords(blocks) && |block.words| > 0
    ensures AllHaveWords(blocks + [block])
    ensures FormatAsSRT(blocks + [block], srtClock)
         == FormatAsSRT(blocks, srtClock) + "\n"
            + Cue(NatToString(|blocks| + 1), SrtTiming(block, srtClock), FormatWords(block.words))
  {
    SrtEntriesSnoc(blocks, block, srtClock);
    JoinAppend(SrtEntries(blocks, srtClock), [SrtEntry(|blocks|, block, srtClock)], "\n");
  }

  /** Regrouping a cue followed by more text so that each line break separates a line from the rest. */
  lemma {:induction false} CueRegroup(number: string, timing: string, text: string, tail: string)
    ensures Cue(number, timing, text) + tail == number + "\n" + (timing + "\n" + (text + "\n" + tail))
  {
  }

  /** A cue's three lines, each ending in a line break, read back as three fields. */
  lemma {:induction false} SplitCue(number: string, timing: string, text: string, tail: string)
    requires '\n' !in number && '\n' !in timing && '\n' !in text
    ensures Split(Cue(number, timing, text) + tail, '\n') == [number, timing, text] + Split(tail, '\n')
  {
    CueRegroup(number, timing, text, tail);
    var t3 := text + "\n" + tail;
    var t2 := timing + "\n" + t3;
    SplitLine(text, tail, '\n');
    SplitLine(timing, t3, '\n');
    SplitLine(number, t2, '\n');
    assert [number] + ([timing] + ([text] + Split(tail, '\n'))) == [number, timing, text] + Split(tail, '\n');
  }

  /** The lines of consecutive cues: number, timing, text and a blank line for each. */
  function CueLines(numbers: seq<string>, timings: seq<string>, texts: seq<string>): seq<string>
    requires |numbers| == |timings| == |texts|
    decreases |numbers|
  {
    if |numbers| == 0 then []
    else [numbers[0], timings[0], texts[0], ""] + CueLines(numbers[1..], timings[1..], texts[1..])
  }

  /** Lines `4 * i` to `4 * i + 3` of `lines` are the number, timing, text and blank line of a cue. */
  predicate CueAt(lines: seq<string>, i: nat, number: string, timing: string, text: string) {
    && 4 * i + 3 < |lines|
    && lines[4 * i] == number && lines[4 * i + 1] == timing
    && lines[4 * i + 2] == text && lines[4 * i + 3] == ""
  }

  lemma {:induction false} CueLinesAt(numbers: seq<string>, timings: seq<string>, texts: seq<string>)
    requires |numbers| == |timings| == |texts|
    ensures var lines := CueLines(numbers, timings, texts);
      && |lines| == 4 * |numbers|
      && forall i :: 0 <= i < |numbers| ==> CueAt(lines, i, numbers[i], timings[i], texts[i])
    decreases |numbers|
  {
    if |numbers| > 0 {
      var head := [numbers[0], timings[0], texts[0], ""];
      var rest := CueLines(numbers[1..], timings[1..], texts[1..]);
      CueLinesAt(numbers[1..], timings[1..], texts[1..]);
      forall i | 1 <= i < |numbers|
        ensures CueAt(head + rest, i, numbers[i], timings[i], texts[i])
      {
        assert CueAt(rest, i - 1, numbers[1..][i - 1], timings[1..][i - 1], texts[1..][i - 1]);
        CueAtShift(head, rest, i - 1, numbers[i], timings[i], texts[i]);
      }
    }
  }

  /** A cue at position `i` of `rest` is at position `i + 1` once four lines are put in front. */
  lemma {:induction false} CueAtShift(head: seq<string>, rest: seq<string>, i: nat, number: string, timing: string, text: string)
    requires |head| == 4 && CueAt(rest, i, number, timing, text)
    ensures CueAt(head + rest, i + 1, number, timing, text)
  {
    assert (head + rest)[4 * (i + 1)] == rest[4 * i];
    assert (head + rest)[4 * (i + 1) + 1] == rest[4 * i + 1];
    assert (head + rest)[4 * (i + 1) + 2] == rest[4 * i + 2];
    assert (head + rest)[4 * (i + 1) + 3] == rest[4 * i + 3];
  }

  /** Cues joined by line breaks read back as four lines per cue: number, timing, text, blank. */
  lemma {:induction false} SplitCues(entries: seq<string>, numbers: seq<string>, timings: seq<string>, texts: seq<string>)
    requires |entries| > 0 && |numbers| == |timings| == |texts| == |entries|
    requires forall i :: 0 <= i < |entries| ==> entries[i] == Cue(numbers[i], timings[i], texts[i])
    requires forall i :: 0 <= i < |entries| ==> '\n' !in numbers[i] && '\n' !in timings[i] && '\n' !in texts[i]
    ensures Split(Join(entries, "\n"), '\n') == CueLines(numbers, timings, texts)
    decreases |entries|
  {
    var first := [numbers[0], timings[0], texts[0]];
    var tails := CueLines(numbers[1..], timings[1..], texts[1..]);
    assert CueLines(numbers, timings, texts) == first + [""] + tails;
    if |entries| == 1 {
      assert Join(entries, "\n") == Cue(numbers[0], timings[0], texts[0]) + "";
      SplitCue(numbers[0], timings[0], texts[0], "");
      assert tails == [];
    } else {
      var rest := Join(entries[1..], "\n");
      SplitCues(entries[1..], numbers[1..], timings[1..], texts[1..]);
      assert Join(entries, "\n") == Cue(numbers[0], timings[0], texts[0]) + ("\n" + rest);
      SplitCue(numbers[0], timings[0], texts[0], "\n" + rest);
      SplitLeading(rest, '\n');
    }
  }

  /** A cue number holds no line break. */
  lemma {:induction false} NumberWithoutBreak(n: nat)
    ensures '\n' !in NatToString(n)
  {
    var num := NatToString(n);
    NatToStringDigits(n);
    forall k | 0 <= k < |num| ensures num[k] != '\n' { assert IsDigit(num[k]); }
  }

  /** A timing line holds no line break when the clock never produces one. */
  lemma {:induction false} TimingWithoutBreak(block: Block, srtClock: int -> string)
    requires |block.words| > 0
    requires forall t :: '\n' !in srtClock(t)
    ensures '\n' !in SrtTiming(block, srtClock)
  {
    var words := block.words;
    var a := srtClock(words[0].start);
    var b := srtClock(words[|words| - 1].end);
    assert '\n' !in a && '\n' !in b;
    assert '\n' !in " --> ";
  }

  /** The cue numbers `1..n`. */
  function CueNumbers(n: nat): (r: seq<string>)
    ensures |r| == n
  {
    seq(n, i requires 0 <= i < n => NatToString(i + 1))
  }

  /** The timing line of every block. */
  function CueTimings(blocks: seq<Block>, srtClock: int -> string): (r: seq<string>)
    requires AllHaveWords(blocks)
    ensures |r| == |blocks|
  {
    seq(|blocks|, i requires 0 <= i < |blocks| => SrtTiming(blocks[i], srtClock))
  }

  /** Every SRT entry is the cue built from the block's number, timing and text. */
  lemma {:induction false} CueFields(blocks: seq<Block>, srtClock: int -> string, i: nat)
    requires AllHaveWords(blocks) && i < |blocks|
    requires NoLineBreaks(blocks, srtClock)
    ensures SrtEntries(blocks, srtClock)[i]
         == Cue(CueNumbers(|blocks|)[i], CueTimings(blocks, srtClock)[i], BlockTexts(blocks)[i])
    ensures '\n' !in CueNumbers(|blocks|)[i]
    ensures '\n' !in CueTimings(blocks, srtClock)[i]
    ensures '\n' !in BlockTexts(blocks)[i]
  {
    NumberWithoutBreak(i + 1);
    TimingWithoutBreak(blocks[i], srtClock);
    var words := blocks[i].words;
    assert forall k :: 0 <= k < |words| ==> '\n' !in RenderWord(words[k]);
    NoLineBreakInWords(words);
  }

  /**
   * Read line by line, the SRT text has four lines per block: the cue
   * number `i + 1`, the range from the first word's start to the last
   * word's end, the text, and a blank line.
   */
  lemma {:induction false} SrtLinesAreCues(blocks: seq<Block>, srtClock: int -> string)
    requires |blocks| > 0 && AllHaveWords(blocks)
    requires NoLineBreaks(blocks, srtClock)
    ensures var lines := Split(FormatAsSRT(blocks, srtClock), '\n');
      && |lines| == 4 * |blocks|
      && forall i :: 0 <= i < |blocks| ==>
           var words := blocks[i].words;
           && lines[4 * i] == NatToString(i + 1)
           && lines[4 * i + 1] == srtClock(words[0].start) + " --> " + srtClock(words[|words| - 1].end)
           && lines[4 * i + 2] == FormatWords(words)
           && lines[4 * i + 3] == ""
  {
    var lines := Split(FormatAsSRT(blocks, srtClock), '\n');
    SrtLineCount(blocks, srtClock);
    forall i | 0 <= i < |blocks|
      ensures lines[4 * i] == NatToString(i + 1)
      ensures lines[4 * i + 1] == SrtTiming(blocks[i], srtClock)
      ensures lines[4 * i + 2] == FormatWords(blocks[i].words)
      ensures lines[4 * i + 3] == ""
    {
      SrtCueLines(blocks, srtClock, i);
    }
  }

  /** The SRT text reads back as four lines per block. */
  lemma {:induction false} SrtLineCount(blocks: seq<Block>, srtClock: int -> string)
    requires |blocks| > 0 && AllHaveWords(blocks)
    requires NoLineBreaks(blocks, srtClock)
    ensures |Split(FormatAsSRT(blocks, srtClock), '\n')| == 4 * |blocks|
  {
    SrtSplitIsCueLines(blocks, srtClock);
    CueLinesAt(CueNumbers(|blocks|), CueTimings(blocks, srtClock), BlockTexts(blocks));
  }

  /** Lines `4 * i` to `4 * i + 3` of the SRT text are block `i`'s cue. */
  lemma {:induction false} SrtCueLines(blocks: seq<Block>, srtClock: int -> string, i: nat)
    requires |blocks| > 0 && AllHaveWords(blocks) && i < |blocks|
    requires NoLineBreaks(blocks, srtClock)
    ensures CueAt(Split(FormatAsSRT(blocks, srtClock), '\n'), i,
                  NatToString(i + 1), SrtTiming(blocks[i], srtClock), FormatWords(blocks[i].words))
  {
    var numbers := CueNumbers(|blocks|);
    var timings := CueTimings(blocks, srtClock);
    var texts := BlockTexts(blocks);
    SrtSplitIsCueLines(blocks, srtClock);
    CueLinesAt(numbers, timings, texts);
    assert CueAt(CueLines(numbers, timings, texts), i, numbers[i], timings[i], texts[i]);
    CueLineValues(blocks, srtClock, i);
  }

  /** The number, timing and text of cue `i` are those of block `i`. */
  lemma {:induction false} CueLineValues(blocks: seq<Block>, srtClock: int -> string, i: nat)
    requires AllHaveWords(blocks) && i < |blocks|
    ensures CueNumbers(|blocks|)[i] == NatToString(i + 1)
    ensures CueTimings(blocks, srtClock)[i] == SrtTiming(blocks[i], srtClock)
    ensures BlockTexts(blocks)[i] == FormatWords(blocks[i].words)
  {
  }

  /** Reading the SRT text back line by line gives the number, timing, text and blank line of each cue in turn. */
  lemma {:induction false} SrtSplitIsCueLines(blocks: seq<Block>, srtClock: int -> string)
    requires |blocks| > 0 && AllHaveWords(blocks)
    requires NoLineBreaks(blocks, srtClock)
    ensures Split(FormatAsSRT(blocks, srtClock), '\n')
         == CueLines(CueNumbers(|blocks|), CueTimings(blocks, srtClock), BlockTexts(blocks))
  {
    var entries := SrtEntries(blocks, srtClock);
    var numbers := CueNumbers(|blocks|);
    var timings := CueTimings(blocks, srtClock);
    var texts := BlockTexts(blocks);
    forall i | 0 <= i < |blocks|
      ensures entries[i] == Cue(numbers[i], timings[i], texts[i])
      ensures '\n' !in numbers[i] && '\n' !in timings[i] && '\n' !in texts[i]
    {
      CueFields(blocks, srtClock, i);
    }
    SplitCues(entries, numbers, timings, texts);
  }

  /** A single block is one cue numbered 1, ending in one line break. */
  lemma {:induction false} SrtSingleBlock(block: Block, srtClock: int -> string)
    requires |block.words| > 0
    ensures FormatAsSRT([block], srtClock) == Cue("1", SrtTiming(block, srtClock), FormatWords(block.words))
  {
    assert NatToString(1) == "1";
    assert SrtEntries([block], srtClock) == [SrtEntry(0, block, srtClock)];
  }
}
