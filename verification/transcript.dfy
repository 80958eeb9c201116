/**
 * The transcript data model: timed words grouped into locale blocks, and a
 * recording whose first element is the array of blocks.
 */
module Transcript {

  /** A field that may be `null` or `undefined` in the JSON transcript. */
  datatype Option<+T> = None | Some(value: T)

  /**
   * The word fields no operation here interprets (two reserved fields and the
   * speaker/confidence pair). Only their identity matters: they are carried
   * through unchanged.
   */
  type Payload = seq<int>

  /**
   * A word record: canonical text, decorated (display) text when present,
   * start and end time in milliseconds, and the uninterpreted remainder.
   */
  datatype Word = Word(
    text: string,
    decorated: Option<string>,
    start: int,
    end: int,
    payload: Payload)

  /** A block `[words, isNewLocale, locale]`. */
  datatype Block = Block(
    words: seq<Word>,
    isNewLocale: Option<bool>,
    locale: Option<string>)

  /**
   * A recording as read from a transcript file: an array whose element 0 is
   * the block array. Later elements are never read.
   */
  type Recording = seq<seq<Block>>

  /** Every block has at least one word, so `block[0][0]` exists. */
  predicate AllHaveWords(blocks: seq<Block>) {
    forall i :: 0 <= i < |blocks| ==> |blocks[i].words| > 0
  }

  /** The words of all blocks, block after block, each block's words in order. */
  function AllWords(blocks: seq<Block>): seq<Word> {
    if |blocks| == 0 then [] else blocks[0].words + AllWords(blocks[1..])
  }

  /** Word lists concatenate along block lists. */
  lemma {:induction false} AllWordsAppend(a: seq<Block>, b: seq<Block>)
    ensures AllWords(a + b) == AllWords(a) + AllWords(b)
    decreases |a|
  {
    if |a| == 0 {
      assert a + b == b;
    } else {
      assert (a + b)[1..] == a[1..] + b;
      AllWordsAppend(a[1..], b);
    }
  }

  /** Extending a block list by one block extends its words by that block's words. */
  lemma {:induction false} AllWordsSnoc(a: seq<Block>, b: Block)
    ensures AllWords(a + [b]) == AllWords(a) + b.words
  {
    AllWordsAppend(a, [b]);
    assert [b][1..] == [];
  }

  /** The words of the slice `blocks[lo..hi + 1]` are those of `blocks[lo..hi]` followed by `blocks[hi]`'s. */
  lemma {:induction false} AllWordsSliceSnoc(blocks: seq<Block>, lo: nat, hi: nat)
    requires lo <= hi < |blocks|
    ensures AllWords(blocks[lo..hi + 1]) == AllWords(blocks[lo..hi]) + blocks[hi].words
  {
    assert blocks[lo..hi + 1] == blocks[lo..hi] + [blocks[hi]];
    AllWordsSnoc(blocks[lo..hi], blocks[hi]);
  }

  /** A non-empty list of blocks that all have words has words. */
  lemma {:induction false} AllWordsNonEmpty(blocks: seq<Block>)
    requires |blocks| > 0 && AllHaveWords(blocks)
    ensures |AllWords(blocks)| > 0
  {
    assert AllWords(blocks) == blocks[0].words + AllWords(blocks[1..]);
  }
}
