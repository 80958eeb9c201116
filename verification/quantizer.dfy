/**
 * Grouping blocks by time interval (lib/extractor.js): `quantizeBlocks`
 * merges consecutive blocks whose first words start in the same interval,
 * and `extractWithBlockInterval` does the same on `[start, text]` pairs
 * before printing them as a transcript.
 *
 * Both are written as the left fold the source runs (`reduce` without an
 * initial value, the first block as the seed). The fold is compared with a
 * declarative reference: cut the block list wherever the interval changes
 * and merge each piece.
 */
module Quantizer {
  import opened Transcript
  import opened JsString
  import opened Extractor

  /** `Math.floor(start / interval)` for the block's first word and a positive integer interval. */
  function Bucket(block: Block, interval: int): int
    requires |block.words| > 0 && interval > 0
  {
    block.words[0].start / interval
  }

  /** The bucket is the r with r * interval <= start < (r + 1) * interval, for negative starts too. */
  lemma {:induction false} BucketBounds(block: Block, interval: int)
    requires |block.words| > 0 && interval > 0
    ensures var r := Bucket(block, interval);
      r * interval <= block.words[0].start < (r + 1) * interval
  {
  }

  /** `newBlock[0].push(...block[0])`: the run keeps its metadata and gains the block's words. */
  function Absorb(run: Block, block: Block): Block {
    Block(run.words + block.words, run.isNewLocale, run.locale)
  }

  /**
   * Absorbing a block keeps the run's first word, so the merged block stays
   * in the interval of the run's first block: comparing later blocks with
   * `lastInterval` is comparing them with the block being built.
   */
  lemma {:induction false} AbsorbKeepsBucket(run: Block, block: Block, interval: int)
    requires |run.words| > 0 && interval > 0
    ensures |Absorb(run, block).words| > 0
    ensures Absorb(run, block).words[0] == run.words[0]
    ensures Bucket(Absorb(run, block), interval) == Bucket(run, interval)
  {
  }

  /**
   * The reducer of `quantizeBlocks` applied to `blocks[k..]`: `done` are the
   * runs already pushed, `run` the one being built, `last` the interval of
   * its first block.
   */
  function QuantizeFrom(blocks: seq<Block>, interval: int, k: nat, done: seq<Block>, run: Block, last: int): (r: seq<Block>)
    requires AllHaveWords(blocks) && interval > 0 && k <= |blocks|
    ensures |done| + 1 <= |r| <= |done| + 1 + |blocks| - k
    ensures r[..|done|] == done
    decreases |blocks| - k
  {
    if k == |blocks| then done + [run]
    else if Bucket(blocks[k], interval) == last then
      QuantizeFrom(blocks, interval, k + 1, done, Absorb(run, blocks[k]), last)
    else
      var r := QuantizeFrom(blocks, interval, k + 1, done + [run], blocks[k], Bucket(blocks[k], interval));
      assert r[..|done|] == (r[..|done| + 1])[..|done|];
      r
  }

  /** The fold never produces a block without words. */
  lemma {:induction false} QuantizeFromNonEmpty(blocks: seq<Block>, interval: int, k: nat, done: seq<Block>, run: Block, last: int)
    requires AllHaveWords(blocks) && interval > 0 && k <= |blocks|
    requires AllHaveWords(done) && |run.words| > 0
    ensures AllHaveWords(QuantizeFrom(blocks, interval, k, done, run, last))
    decreases |blocks| - k
  {
    AllHaveWordsSnoc(done, run);
    if k < |blocks| {
      if Bucket(blocks[k], interval) == last {
        QuantizeFromNonEmpty(blocks, interval, k + 1, done, Absorb(run, blocks[k]), last);
      } else {
        QuantizeFromNonEmpty(blocks, interval, k + 1, done + [run], blocks[k], Bucket(blocks[k], interval));
      }
    }
  }

  /** The fold loses no word and adds none: its words are those pushed, then the run's, then the rest. */
  lemma {:induction false} QuantizeFromWords(blocks: seq<Block>, interval: int, k: nat, done: seq<Block>, run: Block, last: int)
    requires AllHaveWords(blocks) && interval > 0 && k <= |blocks|
    ensures AllWords(QuantizeFrom(blocks, interval, k, done, run, last)) == AllWords(done) + run.words + AllWords(blocks[k..])
    decreases |blocks| - k
  {
    AllWordsSnoc(done, run);
    if k == |blocks| {
      assert AllWords(blocks[k..]) == [];
    } else {
      var block := blocks[k];
      var later := AllWords(blocks[k + 1..]);
      assert blocks[k..][0] == block && blocks[k..][1..] == blocks[k + 1..];
      assert AllWords(blocks[k..]) == block.words + later;
      if Bucket(block, interval) == last {
        var r := QuantizeFrom(blocks, interval, k + 1, done, Absorb(run, block), last);
        assert QuantizeFrom(blocks, interval, k, done, run, last) == r;
        QuantizeFromWords(blocks, interval, k + 1, done, Absorb(run, block), last);
        WordsRegroup(AllWords(done), run.words, block.words, later);
      } else {
        var r := QuantizeFrom(blocks, interval, k + 1, done + [run], block, Bucket(block, interval));
        assert QuantizeFrom(blocks, interval, k, done, run, last) == r;
        QuantizeFromWords(blocks, interval, k + 1, done + [run], block, Bucket(block, interval));
        WordsRegroup(AllWords(done), run.words, block.words, later);
      }
    }
  }

  /** Regrouping four word lists. */
  lemma {:induction false} WordsRegroup(a: seq<Word>, b: seq<Word>, c: seq<Word>, d: seq<Word>)
    ensures a + (b + c) + d == a + b + (c + d)
    ensures (a + b) + c + d == a + b + (c + d)
  {
  }

  /** `quantizeBlocks`: consecutive blocks whose first words start in the same interval become one block. */
  function QuantizeBlocks(blocks: seq<Block>, interval: int): (r: seq<Block>)
    requires |blocks| > 0 && AllHaveWords(blocks) && interval > 0
    ensures 1 <= |r| <= |blocks|
    ensures AllHaveWords(r)
    ensures AllWords(r) == AllWords(blocks)
  {
    assert AllWords(blocks) == blocks[0].words + AllWords(blocks[1..]);
    assert AllWords([]) == [];
    QuantizeFromNonEmpty(blocks, interval, 1, [], blocks[0], Bucket(blocks[0], interval));
    QuantizeFromWords(blocks, interval, 1, [], blocks[0], Bucket(blocks[0], interval));
    QuantizeFrom(blocks, interval, 1, [], blocks[0], Bucket(blocks[0], interval))
  }

  // The reference: runs of equal interval.

  /** Block `m` opens a run: it is the first block or its interval differs from its predecessor's. */
  predicate StartsRun(blocks: seq<Block>, interval: int, m: nat)
    requires AllHaveWords(blocks) && interval > 0 && m < |blocks|
  {
    m == 0 || Bucket(blocks[m], interval) != Bucket(blocks[m - 1], interval)
  }

  /** The indices below `m` that open a run, in increasing order. */
  function RunStarts(blocks: seq<Block>, interval: int, m: nat): seq<nat>
    requires AllHaveWords(blocks) && interval > 0 && m <= |blocks|
    decreases m
  {
    if m == 0 then []
    else
      var prev := RunStarts(blocks, interval, m - 1);
      if StartsRun(blocks, interval, m - 1) then prev + [m - 1] else prev
  }

  /** The listed indices are below `m`, open runs, increase strictly, and begin with 0. */
  lemma {:induction false} RunStartsSpec(blocks: seq<Block>, interval: int, m: nat)
    requires AllHaveWords(blocks) && interval > 0 && m <= |blocks|
    ensures var r := RunStarts(blocks, interval, m);
      && (forall i :: 0 <= i < |r| ==> r[i] < m && StartsRun(blocks, interval, r[i]))
      && (forall i, j :: 0 <= i < j < |r| ==> r[i] < r[j])
      && (m > 0 ==> |r| > 0 && r[0] == 0)
    decreases m
  {
    if m > 0 {
      var prev := RunStarts(blocks, interval, m - 1);
      RunStartsSpec(blocks, interval, m - 1);
      if StartsRun(blocks, interval, m - 1) {
        var r := prev + [m - 1];
        assert RunStarts(blocks, interval, m) == r;
        forall i | 0 <= i < |r| ensures r[i] < m && StartsRun(blocks, interval, r[i]) {
          if i < |prev| { assert r[i] == prev[i]; }
        }
        forall i, j | 0 <= i < j < |r| ensures r[i] < r[j] {
          assert r[i] == prev[i];
          if j < |prev| { assert r[j] == prev[j]; }
        }
        if m - 1 > 0 {
          assert r[0] == prev[0];
        }
      } else {
        assert RunStarts(blocks, interval, m) == prev;
        assert m - 1 > 0;
      }
    }
  }

  /** Blocks `lo..hi` merged into one: their words in order, the metadata of block `lo`. */
  function Segment(blocks: seq<Block>, lo: nat, hi: nat): (r: Block)
    requires lo < hi <= |blocks|
    ensures r.isNewLocale == blocks[lo].isNewLocale && r.locale == blocks[lo].locale
  {
    Block(AllWords(blocks[lo..hi]), blocks[lo].isNewLocale, blocks[lo].locale)
  }

  /** Where run `j` ends: at the next run's start, or at the end of the list. */
  function RunEnd(starts: seq<nat>, j: nat, n: nat): nat
    requires j < |starts|
  {
    if j + 1 < |starts| then starts[j + 1] else n
  }

  /** Run `j` is a non-empty range of block indices. */
  lemma {:induction false} RunBounds(blocks: seq<Block>, interval: int, j: nat)
    requires |blocks| > 0 && AllHaveWords(blocks) && interval > 0
    requires j < |RunStarts(blocks, interval, |blocks|)|
    ensures var starts := RunStarts(blocks, interval, |blocks|);
      starts[j] < RunEnd(starts, j, |blocks|) <= |blocks|
  {
    RunStartsSpec(blocks, interval, |blocks|);
  }

  /** The reference result: one merged block per run of equal interval. */
  function Runs(blocks: seq<Block>, interval: int): (r: seq<Block>)
    requires |blocks| > 0 && AllHaveWords(blocks) && interval > 0
  {
    RunStartsSpec(blocks, interval, |blocks|);
    var starts := RunStarts(blocks, interval, |blocks|);
    seq(|starts|, j requires 0 <= j < |starts| =>
      Segment(blocks, starts[j], RunEnd(starts, j, |blocks|)))
  }

  /** One block merged on its own is that block. */
  lemma {:induction false} SegmentSingle(blocks: seq<Block>, k: nat)
    requires k < |blocks|
    ensures Segment(blocks, k, k + 1) == blocks[k]
  {
    assert blocks[k..k + 1] == [blocks[k]];
    assert AllWords([blocks[k]]) == blocks[k].words + AllWords([]);
    assert blocks[k].words + [] == blocks[k].words;
  }

  /** Absorbing the next block into a merged segment extends the segment by one. */
  lemma {:induction false} SegmentSnoc(blocks: seq<Block>, lo: nat, k: nat)
    requires lo < k < |blocks|
    ensures Absorb(Segment(blocks, lo, k), blocks[k]) == Segment(blocks, lo, k + 1)
  {
    AllWordsSliceSnoc(blocks, lo, k);
  }

  /**
   * The fold invariant: after blocks `0..k`, `done` holds the closed runs
   * merged and `run` the open run, from the last run start up to `k`.
   */
  predicate FoldState(blocks: seq<Block>, interval: int, k: nat, done: seq<Block>, run: Block)
    requires AllHaveWords(blocks) && interval > 0 && 1 <= k <= |blocks|
  {
    RunStartsSpec(blocks, interval, k);
    var starts := RunStarts(blocks, interval, k);
    && |done| + 1 == |starts|
    && (forall j :: 0 <= j < |done| ==> done[j] == Segment(blocks, starts[j], starts[j + 1]))
    && run == Segment(blocks, starts[|done|], k)
  }

  /** At the end of the list the closed runs and the open one are the reference result. */
  lemma {:induction false} FoldStateFinal(blocks: seq<Block>, interval: int, done: seq<Block>, run: Block)
    requires |blocks| > 0 && AllHaveWords(blocks) && interval > 0
    requires FoldState(blocks, interval, |blocks|, done, run)
    ensures done + [run] == Runs(blocks, interval)
  {
    var r := done + [run];
    var ref := Runs(blocks, interval);
    assert |ref| == |r|;
    forall j | 0 <= j < |r| ensures r[j] == ref[j] {
      if j < |done| {
        assert r[j] == done[j];
      } else {
        assert r[j] == run;
      }
    }
  }

  /** A block in the open run's interval extends the open run. */
  lemma {:induction false} FoldStateSame(blocks: seq<Block>, interval: int, k: nat, done: seq<Block>, run: Block)
    requires AllHaveWords(blocks) && interval > 0 && 1 <= k < |blocks|
    requires FoldState(blocks, interval, k, done, run)
    requires !StartsRun(blocks, interval, k)
    ensures FoldState(blocks, interval, k + 1, done, Absorb(run, blocks[k]))
  {
    var starts := RunStarts(blocks, interval, k);
    RunStartsSpec(blocks, interval, k);
    assert RunStarts(blocks, interval, k + 1) == starts;
    SegmentSnoc(blocks, starts[|done|], k);
  }

  /** A block in another interval closes the open run and opens its own. */
  lemma {:induction false} FoldStateNew(blocks: seq<Block>, interval: int, k: nat, done: seq<Block>, run: Block)
    requires AllHaveWords(blocks) && interval > 0 && 1 <= k < |blocks|
    requires FoldState(blocks, interval, k, done, run)
    requires StartsRun(blocks, interval, k)
    ensures FoldState(blocks, interval, k + 1, done + [run], blocks[k])
  {
    var starts := RunStarts(blocks, interval, k);
    var next := RunStarts(blocks, interval, k + 1);
    RunStartsSpec(blocks, interval, k);
    RunStartsSpec(blocks, interval, k + 1);
    assert next == starts + [k];
    assert run == Segment(blocks, starts[|done|], k);
    var done' := done + [run];
    forall j | 0 <= j < |done'| ensures done'[j] == Segment(blocks, next[j], next[j + 1]) {
      if j < |done| {
        assert done'[j] == done[j] == Segment(blocks, starts[j], starts[j + 1]);
      } else {
        assert done'[j] == run;
      }
    }
    SegmentSingle(blocks, k);
  }

  /** From any state the invariant describes, the rest of the fold yields the reference result. */
  lemma {:induction false} QuantizeFromIsRuns(blocks: seq<Block>, interval: int, k: nat, done: seq<Block>, run: Block, last: int)
    requires AllHaveWords(blocks) && interval > 0 && 1 <= k <= |blocks|
    requires FoldState(blocks, interval, k, done, run)
    requires last == Bucket(blocks[k - 1], interval)
    ensures QuantizeFrom(blocks, interval, k, done, run, last) == Runs(blocks, interval)
    decreases |blocks| - k
  {
    if k == |blocks| {
      FoldStateFinal(blocks, interval, done, run);
    } else if Bucket(blocks[k], interval) == last {
      FoldStepSame(blocks, interval, k, done, run, last);
      QuantizeFromIsRuns(blocks, interval, k + 1, done, Absorb(run, blocks[k]), last);
    } else {
      FoldStepNew(blocks, interval, k, done, run, last);
      QuantizeFromIsRuns(blocks, interval, k + 1, done + [run], blocks[k], Bucket(blocks[k], interval));
    }
  }

  /** A fold step that extends the open run keeps the invariant. */
  lemma {:induction false} FoldStepSame(blocks: seq<Block>, interval: int, k: nat, done: seq<Block>, run: Block, last: int)
    requires AllHaveWords(blocks) && interval > 0 && 1 <= k < |blocks|
    requires FoldState(blocks, interval, k, done, run)
    requires last == Bucket(blocks[k - 1], interval) == Bucket(blocks[k], interval)
    ensures FoldState(blocks, interval, k + 1, done, Absorb(run, blocks[k]))
    ensures QuantizeFrom(blocks, interval, k, done, run, last)
         == QuantizeFrom(blocks, interval, k + 1, done, Absorb(run, blocks[k]), last)
  {
    assert !StartsRun(blocks, interval, k);
    FoldStateSame(blocks, interval, k, done, run);
  }

  /** A fold step that closes the open run keeps the invariant. */
  lemma {:induction false} FoldStepNew(blocks: seq<Block>, interval: int, k: nat, done: seq<Block>, run: Block, last: int)
    requires AllHaveWords(blocks) && interval > 0 && 1 <= k < |blocks|
    requires FoldState(blocks, interval, k, done, run)
    requires last == Bucket(blocks[k - 1], interval) != Bucket(blocks[k], interval)
    ensures FoldState(blocks, interval, k + 1, done + [run], blocks[k])
    ensures QuantizeFrom(blocks, interval, k, done, run, last)
         == QuantizeFrom(blocks, interval, k + 1, done + [run], blocks[k], Bucket(blocks[k], interval))
  {
    assert StartsRun(blocks, interval, k);
    FoldStateNew(blocks, interval, k, done, run);
  }

  /** `quantizeBlocks` computes the reference: one merged block per run of equal interval. */
  lemma {:induction false} QuantizeBlocksIsRuns(blocks: seq<Block>, interval: int)
    requires |blocks| > 0 && AllHaveWords(blocks) && interval > 0
    ensures QuantizeBlocks(blocks, interval) == Runs(blocks, interval)
  {
    FoldStateInitial(blocks, interval);
    QuantizeFromIsRuns(blocks, interval, 1, [], blocks[0], Bucket(blocks[0], interval));
  }

  /** Before the fold's first step the first block is the open run and nothing is done. */
  lemma {:induction false} FoldStateInitial(blocks: seq<Block>, interval: int)
    requires |blocks| > 0 && AllHaveWords(blocks) && interval > 0
    ensures FoldState(blocks, interval, 1, [], blocks[0])
  {
    var starts := RunStarts(blocks, interval, 1);
    assert starts == [0] by {
      assert RunStarts(blocks, interval, 0) == [];
    }
    SegmentSingle(blocks, 0);
  }

  /** A merged segment starts with the first word of its first block. */
  lemma {:induction false} SegmentFirstWord(blocks: seq<Block>, lo: nat, hi: nat)
    requires lo < hi <= |blocks| && |blocks[lo].words| > 0
    ensures |Segment(blocks, lo, hi).words| > 0
    ensures Segment(blocks, lo, hi).words[0] == blocks[lo].words[0]
  {
    assert AllWords(blocks[lo..hi]) == blocks[lo].words + AllWords(blocks[lo + 1..hi]) by {
      assert blocks[lo..hi][0] == blocks[lo];
      assert blocks[lo..hi][1..] == blocks[lo + 1..hi];
    }
  }

  /** Every index below `m` that opens a run is listed. */
  lemma {:induction false} RunStartsComplete(blocks: seq<Block>, interval: int, m: nat, x: nat)
    requires AllHaveWords(blocks) && interval > 0 && x < m <= |blocks|
    requires StartsRun(blocks, interval, x)
    ensures x in RunStarts(blocks, interval, m)
    decreases m
  {
    if x < m - 1 {
      RunStartsComplete(blocks, interval, m - 1, x);
    }
  }

  /** Only run starts open a run: an index strictly inside run `j` is not one. */
  lemma {:induction false} InsideRunIsNoStart(blocks: seq<Block>, interval: int, j: nat, m: nat)
    requires |blocks| > 0 && AllHaveWords(blocks) && interval > 0
    requires var starts := RunStarts(blocks, interval, |blocks|);
      j < |starts| && starts[j] < m < RunEnd(starts, j, |blocks|)
    ensures m < |blocks| && !StartsRun(blocks, interval, m)
  {
    RunBounds(blocks, interval, j);
    if StartsRun(blocks, interval, m) {
      RunStartsComplete(blocks, interval, |blocks|, m);
      RunStartsSpec(blocks, interval, |blocks|);
      assert false;
    }
  }

  /** With no run start after `lo` up to `m`, block `m` starts in block `lo`'s interval. */
  lemma {:induction false} NoStartSameInterval(blocks: seq<Block>, interval: int, lo: nat, m: nat)
    requires AllHaveWords(blocks) && interval > 0 && lo <= m < |blocks|
    requires forall x :: lo < x <= m ==> !StartsRun(blocks, interval, x)
    ensures Bucket(blocks[m], interval) == Bucket(blocks[lo], interval)
    decreases m
  {
    if lo < m {
      assert !StartsRun(blocks, interval, m);
      NoStartSameInterval(blocks, interval, lo, m - 1);
    }
  }

  /** Every block of run `j` starts in the interval of the run's first block. */
  lemma {:induction false} RunSharesInterval(blocks: seq<Block>, interval: int, j: nat, m: nat)
    requires |blocks| > 0 && AllHaveWords(blocks) && interval > 0
    requires var starts := RunStarts(blocks, interval, |blocks|);
      j < |starts| && starts[j] <= m < RunEnd(starts, j, |blocks|)
    ensures m < |blocks| && Bucket(blocks[m], interval) == Bucket(blocks[RunStarts(blocks, interval, |blocks|)[j]], interval)
  {
    var starts := RunStarts(blocks, interval, |blocks|);
    RunBounds(blocks, interval, j);
    forall x | starts[j] < x <= m ensures !StartsRun(blocks, interval, x) {
      InsideRunIsNoStart(blocks, interval, j, x);
    }
    NoStartSameInterval(blocks, interval, starts[j], m);
  }

  /**
   * The blocks `quantizeBlocks` returns partition the input into runs: output
   * block `j` holds the words of the input blocks from the `j`th run start up
   * to the next one, in order, starts with the first word of the first of them
   * and keeps that block's locale fields.
   */
  lemma {:induction false} QuantizedBlocksAreSegments(blocks: seq<Block>, interval: int)
    requires |blocks| > 0 && AllHaveWords(blocks) && interval > 0
    ensures var r := QuantizeBlocks(blocks, interval);
      var starts := RunStarts(blocks, interval, |blocks|);
      && |r| == |starts|
      && forall j :: 0 <= j < |r| ==>
            && starts[j] < RunEnd(starts, j, |blocks|) <= |blocks|
            && r[j].words == AllWords(blocks[starts[j]..RunEnd(starts, j, |blocks|)])
            && r[j].words[0] == blocks[starts[j]].words[0]
            && r[j].isNewLocale == blocks[starts[j]].isNewLocale
            && r[j].locale == blocks[starts[j]].locale
  {
    var r := QuantizeBlocks(blocks, interval);
    var starts := RunStarts(blocks, interval, |blocks|);
    QuantizeBlocksIsRuns(blocks, interval);
    forall j | 0 <= j < |r|
      ensures starts[j] < RunEnd(starts, j, |blocks|) <= |blocks|
      ensures r[j].words == AllWords(blocks[starts[j]..RunEnd(starts, j, |blocks|)])
      ensures r[j].words[0] == blocks[starts[j]].words[0]
    {
      RunIsSegment(blocks, interval, j);
    }
  }

  /** Every input block merged into output block `j` starts in the same interval as that output block. */
  lemma {:induction false} QuantizedBlocksShareInterval(blocks: seq<Block>, interval: int)
    requires |blocks| > 0 && AllHaveWords(blocks) && interval > 0
    ensures var r := QuantizeBlocks(blocks, interval);
      var starts := RunStarts(blocks, interval, |blocks|);
      && |r| == |starts|
      && (forall j :: 0 <= j < |r| ==> RunEnd(starts, j, |blocks|) <= |blocks|)
      && forall j, m :: 0 <= j < |r| && starts[j] <= m < RunEnd(starts, j, |blocks|) ==>
           Bucket(blocks[m], interval) == Bucket(r[j], interval)
  {
    var r := QuantizeBlocks(blocks, interval);
    var starts := RunStarts(blocks, interval, |blocks|);
    QuantizeBlocksIsRuns(blocks, interval);
    forall j | 0 <= j < |r| ensures RunEnd(starts, j, |blocks|) <= |blocks| {
      RunBounds(blocks, interval, j);
    }
    forall j, m | 0 <= j < |r| && starts[j] <= m < RunEnd(starts, j, |blocks|)
      ensures Bucket(blocks[m], interval) == Bucket(r[j], interval)
    {
      RunIsSegment(blocks, interval, j);
    }
  }

  /** Two neighbouring output blocks start in different intervals: nothing that could be merged is left apart. */
  lemma {:induction false} QuantizedNeighboursDiffer(blocks: seq<Block>, interval: int)
    requires |blocks| > 0 && AllHaveWords(blocks) && interval > 0
    ensures var r := QuantizeBlocks(blocks, interval);
      forall j :: 0 < j < |r| ==> Bucket(r[j], interval) != Bucket(r[j - 1], interval)
  {
    var r := QuantizeBlocks(blocks, interval);
    QuantizeBlocksIsRuns(blocks, interval);
    forall j | 0 < j < |r| ensures Bucket(r[j], interval) != Bucket(r[j - 1], interval) {
      RunIsSegment(blocks, interval, j);
      RunIsSegment(blocks, interval, j - 1);
      NeighbourRunsDiffer(blocks, interval, j);
    }
  }

  /** Run `j` of the reference is the segment from its start to the next start, all in one interval. */
  lemma {:induction false} RunIsSegment(blocks: seq<Block>, interval: int, j: nat)
    requires |blocks| > 0 && AllHaveWords(blocks) && interval > 0
    requires j < |RunStarts(blocks, interval, |blocks|)|
    ensures var starts := RunStarts(blocks, interval, |blocks|);
      var lo := starts[j];
      var hi := RunEnd(starts, j, |blocks|);
      && lo < hi <= |blocks|
      && Runs(blocks, interval)[j] == Segment(blocks, lo, hi)
      && |Segment(blocks, lo, hi).words| > 0
      && Segment(blocks, lo, hi).words[0] == blocks[lo].words[0]
      && Bucket(Segment(blocks, lo, hi), interval) == Bucket(blocks[lo], interval)
      && forall m :: lo <= m < hi ==> Bucket(blocks[m], interval) == Bucket(blocks[lo], interval)
  {
    var starts := RunStarts(blocks, interval, |blocks|);
    RunBounds(blocks, interval, j);
    SegmentFirstWord(blocks, starts[j], RunEnd(starts, j, |blocks|));
    forall m | starts[j] <= m < RunEnd(starts, j, |blocks|)
      ensures Bucket(blocks[m], interval) == Bucket(blocks[starts[j]], interval)
    {
      RunSharesInterval(blocks, interval, j, m);
    }
  }

  /** Two neighbouring runs lie in different intervals: the later one starts where the interval changes. */
  lemma {:induction false} NeighbourRunsDiffer(blocks: seq<Block>, interval: int, j: nat)
    requires |blocks| > 0 && AllHaveWords(blocks) && interval > 0
    requires 0 < j < |RunStarts(blocks, interval, |blocks|)|
    ensures var starts := RunStarts(blocks, interval, |blocks|);
      && starts[j - 1] < starts[j] < |blocks|
      && Bucket(blocks[starts[j]], interval) != Bucket(blocks[starts[j - 1]], interval)
  {
    var starts := RunStarts(blocks, interval, |blocks|);
    RunStartsSpec(blocks, interval, |blocks|);
    RunIsSegment(blocks, interval, j - 1);
    assert StartsRun(blocks, interval, starts[j]);
    assert starts[j - 1] <= starts[j] - 1 < RunEnd(starts, j - 1, |blocks|);
  }

  /**
   * The example of the comment above `quantizeBlocks`: blocks starting at
   * 0, 3000, 6000 and 9000 ms with an interval of 5000 ms merge into two
   * blocks starting at 0 and 6000 ms.
   */
  lemma {:induction false} QuantizeCommentExample(w0: Word, w1: Word, w2: Word, w3: Word)
    requires w0.start == 0 && w1.start == 3000 && w2.start == 6000 && w3.start == 9000
    ensures var blocks := [Block([w0], None, None), Block([w1], None, None),
                           Block([w2], None, None), Block([w3], None, None)];
      QuantizeBlocks(blocks, 5000) == [Block([w0, w1], None, None), Block([w2, w3], None, None)]
  {
    var blocks := [Block([w0], None, None), Block([w1], None, None),
                   Block([w2], None, None), Block([w3], None, None)];
    var first := Block([w0, w1], None, None);
    var second := Block([w2, w3], None, None);
    assert Bucket(blocks[0], 5000) == 0 && Bucket(blocks[1], 5000) == 0;
    assert Bucket(blocks[2], 5000) == 1 && Bucket(blocks[3], 5000) == 1;
    assert Absorb(blocks[0], blocks[1]) == first by { assert [w0] + [w1] == [w0, w1]; }
    assert Absorb(blocks[2], blocks[3]) == second by { assert [w2] + [w3] == [w2, w3]; }
    assert QuantizeFrom(blocks, 5000, 4, [first], second, 1) == [first, second];
    assert QuantizeFrom(blocks, 5000, 3, [first], blocks[2], 1) == [first, second];
    assert [] + [first] == [first];
    assert QuantizeFrom(blocks, 5000, 2, [], first, 0) == [first, second];
    assert QuantizeFrom(blocks, 5000, 1, [], blocks[0], 0) == [first, second];
  }

  /**
   * Only neighbours are compared: blocks at 0, 6000 and 1000 ms with an
   * interval of 5000 ms stay three blocks, although the first and the last
   * start in the same interval.
   */
  lemma {:induction false} QuantizeNoMergeBack(w0: Word, w1: Word, w2: Word)
    requires w0.start == 0 && w1.start == 6000 && w2.start == 1000
    ensures var blocks := [Block([w0], None, None), Block([w1], None, None), Block([w2], None, None)];
      QuantizeBlocks(blocks, 5000) == blocks
  {
    var blocks := [Block([w0], None, None), Block([w1], None, None), Block([w2], None, None)];
    assert Bucket(blocks[0], 5000) == 0 && Bucket(blocks[1], 5000) == 1 && Bucket(blocks[2], 5000) == 0;
    assert [] + [blocks[0]] == blocks[..1];
    assert blocks[..1] + [blocks[1]] == blocks[..2];
    assert blocks[..2] + [blocks[2]] == blocks;
    assert QuantizeFrom(blocks, 5000, 3, blocks[..2], blocks[2], 0) == blocks;
    assert QuantizeFrom(blocks, 5000, 2, blocks[..1], blocks[1], 1) == blocks;
    assert QuantizeFrom(blocks, 5000, 1, [], blocks[0], 0) == blocks;
  }

  // `extractWithBlockInterval`: the same grouping on `[start, text]` pairs.

  /** The `[start, text]` pair `extractWithBlockInterval` builds for a block. */
  function StartAndText(block: Block): (int, string)
    requires |block.words| > 0
  {
    (block.words[0].start, FormatWords(block.words))
  }

  /** The pairs of all blocks, in order. */
  function StartsAndTexts(blocks: seq<Block>): (r: seq<(int, string)>)
    requires AllHaveWords(blocks)
    ensures |r| == |blocks|
  {
    seq(|blocks|, i requires 0 <= i < |blocks| => StartAndText(blocks[i]))
  }

  /**
   * The reducer of `extractWithBlockInterval` applied to `pairs[k..]`, with
   * intervals `width` milliseconds wide: a pair in the interval of the pair
   * being built (`memo`) has its text appended after a space, any other pair
   * closes `memo` and becomes the new one.
   */
  function MergeFrom(pairs: seq<(int, string)>, width: int, k: nat, done: seq<(int, string)>, memo: (int, string), last: int): (r: seq<(int, string)>)
    requires width > 0 && k <= |pairs|
    ensures |done| + 1 <= |r| <= |done| + 1 + |pairs| - k
    ensures r[..|done|] == done
    decreases |pairs| - k
  {
    if k == |pairs| then done + [memo]
    else
      var (time, text) := pairs[k];
      if time / width == last then
        MergeFrom(pairs, width, k + 1, done, (memo.0, memo.1 + " " + text), last)
      else
        var r := MergeFrom(pairs, width, k + 1, done + [memo], pairs[k], time / width);
        assert r[..|done|] == (r[..|done| + 1])[..|done|];
        r
  }

  /**
   * `extractWithBlockInterval`: the blocks' pairs merged per interval, each
   * printed as `stamp<TAB>text`, joined by line breaks. The interval is given
   * by its width `1000 * interval` in whole milliseconds, so an interval of
   * 2.5 seconds is the width 2500.
   */
  function ExtractWithBlockInterval(recording: Recording, width: int, clock: int -> string): string
    requires |recording| > 0 && |recording[0]| > 0 && AllHaveWords(recording[0]) && width > 0
  {
    var pairs := StartsAndTexts(recording[0]);
    var merged := MergeFrom(pairs, width, 1, [], pairs[0], pairs[0].0 / width);
    Join(seq(|merged|, i requires 0 <= i < |merged| => clock(merged[i].0) + "\t" + merged[i].1), "\n")
  }

  /** The pairs of a list extended by one block are extended by that block's pair. */
  lemma {:induction false} StartsAndTextsSnoc(blocks: seq<Block>, block: Block)
    requires AllHaveWords(blocks) && |block.words| > 0
    ensures AllHaveWords(blocks + [block])
    ensures StartsAndTexts(blocks + [block]) == StartsAndTexts(blocks) + [StartAndText(block)]
  {
    AllHaveWordsSnoc(blocks, block);
    var all := blocks + [block];
    forall i | 0 <= i < |all|
      ensures StartsAndTexts(all)[i] == (StartsAndTexts(blocks) + [StartAndText(block)])[i]
    {
      if i < |blocks| { assert all[i] == blocks[i]; } else { assert all[i] == block; }
    }
  }

  /** Absorbing a block appends its text after a space and keeps the run's start. */
  lemma {:induction false} StartAndTextAbsorb(run: Block, block: Block)
    requires |run.words| > 0 && |block.words| > 0
    ensures StartAndText(Absorb(run, block))
         == (StartAndText(run).0, StartAndText(run).1 + " " + StartAndText(block).1)
  {
    FormatWordsAppend(run.words, block.words);
  }

  /** Step by step, the pair fold computes the pairs of the block fold. */
  lemma {:induction false} MergeFromIsQuantizeFrom(blocks: seq<Block>, width: int, k: nat, done: seq<Block>, run: Block, last: int)
    requires AllHaveWords(blocks) && width > 0 && k <= |blocks|
    requires AllHaveWords(done) && |run.words| > 0
    ensures AllHaveWords(QuantizeFrom(blocks, width, k, done, run, last))
    ensures MergeFrom(StartsAndTexts(blocks), width, k, StartsAndTexts(done), StartAndText(run), last)
         == StartsAndTexts(QuantizeFrom(blocks, width, k, done, run, last))
    decreases |blocks| - k
  {
    QuantizeFromNonEmpty(blocks, width, k, done, run, last);
    StartsAndTextsSnoc(done, run);
    if k < |blocks| {
      var block := blocks[k];
      assert StartsAndTexts(blocks)[k] == StartAndText(block);
      if Bucket(block, width) == last {
        StartAndTextAbsorb(run, block);
        MergeFromIsQuantizeFrom(blocks, width, k + 1, done, Absorb(run, block), last);
      } else {
        MergeFromIsQuantizeFrom(blocks, width, k + 1, done + [run], block, Bucket(block, width));
      }
    }
  }

  /**
   * `extractWithBlockInterval(r, s)` prints the transcript of
   * `quantizeBlocks(r[0], 1000 * s)`: the same grouping, the same stamps
   * and the same texts. `width` is `1000 * s` in milliseconds.
   */
  lemma {:induction false} ExtractWithBlockIntervalIsQuantized(recording: Recording, width: int, clock: int -> string)
    requires |recording| > 0 && |recording[0]| > 0 && AllHaveWords(recording[0]) && width > 0
    ensures ExtractWithBlockInterval(recording, width, clock)
         == FormatAsTranscript(QuantizeBlocks(recording[0], width), clock)
  {
    var blocks := recording[0];
    var pairs := StartsAndTexts(blocks);
    assert pairs[0] == StartAndText(blocks[0]);
    assert StartsAndTexts([]) == [];
    MergeFromIsQuantizeFrom(blocks, width, 1, [], blocks[0], Bucket(blocks[0], width));
    var merged := MergeFrom(pairs, width, 1, [], pairs[0], pairs[0].0 / width);
    var q := QuantizeBlocks(blocks, width);
    assert merged == StartsAndTexts(q);
    var printed := seq(|merged|, i requires 0 <= i < |merged| => clock(merged[i].0) + "\t" + merged[i].1);
    var lines := TranscriptLines(q, clock);
    forall i | 0 <= i < |q| ensures printed[i] == lines[i] {
      assert merged[i] == StartAndText(q[i]);
    }
    assert printed == lines;
  }

  /** One word is printed as its rendering. */
  lemma {:induction false} FormatOne(w: Word)
    ensures FormatWords([w]) == RenderWord(w)
  {
    assert RenderAll([w]) == [RenderWord(w)];
  }

  /** Two words are printed as their renderings with a space between. */
  lemma {:induction false} FormatTwo(w: Word, v: Word)
    ensures FormatWords([w, v]) == RenderWord(w) + " " + RenderWord(v)
  {
    assert [w, v] == [w] + [v];
    FormatWordsAppend([w], [v]);
    FormatOne(w);
    FormatOne(v);
  }

  /** One-word blocks at 0, 5, 10, 15 and 20 seconds. */
  function FiveMarks(ws: seq<Word>): (r: seq<Block>)
    requires |ws| == 5
    ensures |r| == 5 && AllHaveWords(r)
  {
    seq(5, i requires 0 <= i < 5 => Block([ws[i]], None, None))
  }

  /** In 7-second intervals the five marks fall into intervals 0, 0, 1, 2 and 2. */
  lemma {:induction false} QuantizeFiveMarksSeven(ws: seq<Word>)
    requires |ws| == 5
    requires forall i :: 0 <= i < 5 ==> ws[i].start == 5000 * i
    ensures QuantizeBlocks(FiveMarks(ws), 7000)
         == [Block([ws[0], ws[1]], None, None), Block([ws[2]], None, None), Block([ws[3], ws[4]], None, None)]
  {
    var blocks := FiveMarks(ws);
    var b0 := Block([ws[0], ws[1]], None, None);
    var b1 := Block([ws[2]], None, None);
    var b2 := Block([ws[3], ws[4]], None, None);
    assert ws[0].start == 0 && ws[1].start == 5000 && ws[2].start == 10000;
    assert ws[3].start == 15000 && ws[4].start == 20000;
    assert Bucket(blocks[0], 7000) == 0 && Bucket(blocks[1], 7000) == 0;
    assert Bucket(blocks[2], 7000) == 1;
    assert Bucket(blocks[3], 7000) == 2 && Bucket(blocks[4], 7000) == 2;
    assert Absorb(blocks[0], blocks[1]) == b0 by { assert [ws[0]] + [ws[1]] == [ws[0], ws[1]]; }
    assert Absorb(blocks[3], blocks[4]) == b2 by { assert [ws[3]] + [ws[4]] == [ws[3], ws[4]]; }
    assert [] + [b0] == [b0];
    assert [b0] + [b1] == [b0, b1];
    assert [b0, b1] + [b2] == [b0, b1, b2];
    var q := [b0, b1, b2];
    assert QuantizeFrom(blocks, 7000, 5, [b0, b1], b2, 2) == q;
    assert QuantizeFrom(blocks, 7000, 4, [b0, b1], blocks[3], 2) == q;
    assert QuantizeFrom(blocks, 7000, 3, [b0], b1, 1) == q;
    assert QuantizeFrom(blocks, 7000, 2, [], b0, 0) == q;
    assert QuantizeFrom(blocks, 7000, 1, [], blocks[0], 0) == q;
  }

  /**
   * The expectation of the repository's 7-second test: one-word blocks at
   * 0, 5, 10, 15 and 20 seconds print as three lines stamped 0, 10 and 15
   * seconds, holding the words of the first two, the third, and the last two.
   */
  lemma {:induction false} BlockIntervalSevenSeconds(ws: seq<Word>, clock: int -> string)
    requires |ws| == 5
    requires forall i :: 0 <= i < 5 ==> ws[i].start == 5000 * i
    ensures ExtractWithBlockInterval([FiveMarks(ws)], 7000, clock)
         == Join([clock(0) + "\t" + RenderWord(ws[0]) + " " + RenderWord(ws[1]),
                  clock(10000) + "\t" + RenderWord(ws[2]),
                  clock(15000) + "\t" + RenderWord(ws[3]) + " " + RenderWord(ws[4])], "\n")
  {
    var b0 := Block([ws[0], ws[1]], None, None);
    var b1 := Block([ws[2]], None, None);
    var b2 := Block([ws[3], ws[4]], None, None);
    QuantizeFiveMarksSeven(ws);
    ExtractWithBlockIntervalIsQuantized([FiveMarks(ws)], 7000, clock);
    TranscriptOfThree(b0, b1, b2, clock);
    assert ws[0].start == 0 && ws[2].start == 10000 && ws[3].start == 15000;
    FormatTwo(ws[0], ws[1]);
    FormatOne(ws[2]);
    FormatTwo(ws[3], ws[4]);
    assert TranscriptLine(b0, clock) == clock(0) + "\t" + RenderWord(ws[0]) + " " + RenderWord(ws[1]) by {
      SeqAssoc(clock(0) + "\t", RenderWord(ws[0]) + " ", RenderWord(ws[1]));
      SeqAssoc(clock(0) + "\t", RenderWord(ws[0]), " ");
    }
    assert TranscriptLine(b2, clock) == clock(15000) + "\t" + RenderWord(ws[3]) + " " + RenderWord(ws[4]) by {
      SeqAssoc(clock(15000) + "\t", RenderWord(ws[3]) + " ", RenderWord(ws[4]));
      SeqAssoc(clock(15000) + "\t", RenderWord(ws[3]), " ");
    }
  }

  /** In 10-second intervals the five marks fall into intervals 0, 0, 1, 1 and 2. */
  lemma {:induction false} QuantizeFiveMarksTen(ws: seq<Word>)
    requires |ws| == 5
    requires forall i :: 0 <= i < 5 ==> ws[i].start == 5000 * i
    ensures QuantizeBlocks(FiveMarks(ws), 10000)
         == [Block([ws[0], ws[1]], None, None), Block([ws[2], ws[3]], None, None), Block([ws[4]], None, None)]
  {
    var blocks := FiveMarks(ws);
    var b0 := Block([ws[0], ws[1]], None, None);
    var b1 := Block([ws[2], ws[3]], None, None);
    var b2 := Block([ws[4]], None, None);
    assert ws[0].start == 0 && ws[1].start == 5000 && ws[2].start == 10000;
    assert ws[3].start == 15000 && ws[4].start == 20000;
    assert Bucket(blocks[0], 10000) == 0 && Bucket(blocks[1], 10000) == 0;
    assert Bucket(blocks[2], 10000) == 1 && Bucket(blocks[3], 10000) == 1;
    assert Bucket(blocks[4], 10000) == 2;
    assert Absorb(blocks[0], blocks[1]) == b0 by { assert [ws[0]] + [ws[1]] == [ws[0], ws[1]]; }
    assert Absorb(blocks[2], blocks[3]) == b1 by { assert [ws[2]] + [ws[3]] == [ws[2], ws[3]]; }
    assert [] + [b0] == [b0];
    assert [b0] + [b1] == [b0, b1];
    assert [b0, b1] + [b2] == [b0, b1, b2];
    var q := [b0, b1, b2];
    assert QuantizeFrom(blocks, 10000, 5, [b0, b1], b2, 2) == q;
    assert QuantizeFrom(blocks, 10000, 4, [b0], b1, 1) == q;
    assert QuantizeFrom(blocks, 10000, 3, [b0], blocks[2], 1) == q;
    assert QuantizeFrom(blocks, 10000, 2, [], b0, 0) == q;
    assert QuantizeFrom(blocks, 10000, 1, [], blocks[0], 0) == q;
  }

  /**
   * The expectation of the repository's 10-second test: the same five marks
   * print as three lines stamped 0, 10 and 20 seconds, holding the words of
   * the first two, the next two, and the last.
   */
  lemma {:induction false} BlockIntervalTenSeconds(ws: seq<Word>, clock: int -> string)
    requires |ws| == 5
    requires forall i :: 0 <= i < 5 ==> ws[i].start == 5000 * i
    ensures ExtractWithBlockInterval([FiveMarks(ws)], 10000, clock)
         == Join([clock(0) + "\t" + RenderWord(ws[0]) + " " + RenderWord(ws[1]),
                  clock(10000) + "\t" + RenderWord(ws[2]) + " " + RenderWord(ws[3]),
                  clock(20000) + "\t" + RenderWord(ws[4])], "\n")
  {
    var b0 := Block([ws[0], ws[1]], None, None);
    var b1 := Block([ws[2], ws[3]], None, None);
    var b2 := Block([ws[4]], None, None);
    QuantizeFiveMarksTen(ws);
    ExtractWithBlockIntervalIsQuantized([FiveMarks(ws)], 10000, clock);
    TranscriptOfThree(b0, b1, b2, clock);
    assert ws[0].start == 0 && ws[2].start == 10000 && ws[4].start == 20000;
    FormatTwo(ws[0], ws[1]);
    FormatTwo(ws[2], ws[3]);
    FormatOne(ws[4]);
    assert TranscriptLine(b0, clock) == clock(0) + "\t" + RenderWord(ws[0]) + " " + RenderWord(ws[1]) by {
      SeqAssoc(clock(0) + "\t", RenderWord(ws[0]) + " ", RenderWord(ws[1]));
      SeqAssoc(clock(0) + "\t", RenderWord(ws[0]), " ");
    }
    assert TranscriptLine(b1, clock) == clock(10000) + "\t" + RenderWord(ws[2]) + " " + RenderWord(ws[3]) by {
      SeqAssoc(clock(10000) + "\t", RenderWord(ws[2]) + " ", RenderWord(ws[3]));
      SeqAssoc(clock(10000) + "\t", RenderWord(ws[2]), " ");
    }
  }

  /** The transcript of three blocks is their three lines joined. */
  lemma {:induction false} TranscriptOfThree(b0: Block, b1: Block, b2: Block, clock: int -> string)
    requires |b0.words| > 0 && |b1.words| > 0 && |b2.words| > 0
    ensures FormatAsTranscript([b0, b1, b2], clock)
         == Join([TranscriptLine(b0, clock), TranscriptLine(b1, clock), TranscriptLine(b2, clock)], "\n")
  {
    var lines := TranscriptLines([b0, b1, b2], clock);
    assert lines == [TranscriptLine(b0, clock), TranscriptLine(b1, clock), TranscriptLine(b2, clock)];
  }

  /** String concatenation is associative. */
  lemma {:induction false} SeqAssoc(a: string, b: string, c: string)
    ensures a + (b + c) == (a + b) + c
  {
  }
}
