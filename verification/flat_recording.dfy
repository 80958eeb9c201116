/**
 * The flat, level-tagged stream a recording is serialised into
 * (lib/flatRecording.js): a top header, a block-array header, then for each
 * block a block header followed by the block's words. `Unflatten` cuts such
 * a stream back into blocks and shows that nothing is lost.
 */
module FlatRecording {
  import opened Transcript

  /** A structural marker in the stream. */
  datatype Header =
    | Top(version: string)
    | BlockArray
    | BlockStart(isNewLocale: Option<bool>, locale: Option<string>)
  {
    /** The header's `level` field. */
    function Level(): nat {
      match this
      case Top(_) => 0
      case BlockArray => 1
      case BlockStart(_, _) => 2
    }

    /** The header's `type` field. */
    function Type(): string {
      match this
      case Top(_) => "top"
      case BlockArray => "blockArray"
      case BlockStart(_, _) => "block"
    }
  }

  /** A stream element: a header object or a word array. */
  datatype Item = HeaderItem(header: Header) | WordItem(word: Word)

  function TopHeader(): Header {
    Top("1.0")
  }

  function BlockArrayHeader(): Header {
    BlockArray
  }

  /** The header of a block carries the block's `isNewLocale` and `locale`. */
  function BlockHeader(block: Block): Header {
    BlockStart(block.isNewLocale, block.locale)
  }

  /** One word item per word, in order. */
  function WordItems(words: seq<Word>): (r: seq<Item>)
    ensures |r| == |words|
  {
    seq(|words|, k requires 0 <= k < |words| => WordItem(words[k]))
  }

  /** What `flattenRecording` pushes for one block: its header, then its words. */
  function BlockItems(block: Block): (r: seq<Item>)
    ensures |r| == 1 + |block.words|
  {
    [HeaderItem(BlockHeader(block))] + WordItems(block.words)
  }

  /** The part of the stream after the two leading headers. */
  function FlattenBlocks(blocks: seq<Block>): (r: seq<Item>)
    ensures |r| == |blocks| + |AllWords(blocks)|
    ensures |blocks| > 0 ==> r[0] == HeaderItem(BlockHeader(blocks[0]))
  {
    if |blocks| == 0 then [] else BlockItems(blocks[0]) + FlattenBlocks(blocks[1..])
  }

  /** `flattenRecording`: only the block array `recording[0]` is read. */
  function FlattenRecording(recording: Recording): (r: seq<Item>)
    requires |recording| > 0
    ensures |r| == 2 + |recording[0]| + |AllWords(recording[0])|
    ensures r[0] == HeaderItem(Top("1.0"))
    ensures r[0].header.Level() == 0 && r[0].header.Type() == "top"
    ensures r[1] == HeaderItem(BlockArray)
    ensures r[1].header.Level() == 1 && r[1].header.Type() == "blockArray"
    ensures |r| > 2 ==> r[2] == HeaderItem(BlockHeader(recording[0][0]))
  {
    [HeaderItem(TopHeader()), HeaderItem(BlockArrayHeader())] + FlattenBlocks(recording[0])
  }

  /** The stream is the top header, then the block-array header, then the blocks' items. */
  lemma {:induction false} FlattenRecordingParts(recording: Recording)
    requires |recording| > 0
    ensures FlattenRecording(recording)
         == [HeaderItem(TopHeader())] + ([HeaderItem(BlockArrayHeader())] + FlattenBlocks(recording[0]))
  {
  }

  /** The words of a stream, headers removed. */
  function WordsOf(items: seq<Item>): seq<Word> {
    if |items| == 0 then []
    else (if items[0].WordItem? then [items[0].word] else []) + WordsOf(items[1..])
  }

  /** The level-2 headers of a stream, in order. */
  function BlockHeadersOf(items: seq<Item>): seq<Header> {
    if |items| == 0 then []
    else (if items[0].HeaderItem? && items[0].header.Level() == 2 then [items[0].header] else [])
         + BlockHeadersOf(items[1..])
  }

  lemma {:induction false} WordsOfAppend(a: seq<Item>, b: seq<Item>)
    ensures WordsOf(a + b) == WordsOf(a) + WordsOf(b)
    decreases |a|
  {
    if |a| == 0 {
      assert a + b == b;
    } else {
      var head := if a[0].WordItem? then [a[0].word] else [];
      assert (a + b)[0] == a[0];
      assert (a + b)[1..] == a[1..] + b;
      WordsOfAppend(a[1..], b);
      calc {
        WordsOf(a + b);
        head + WordsOf(a[1..] + b);
        head + (WordsOf(a[1..]) + WordsOf(b));
        (head + WordsOf(a[1..])) + WordsOf(b);
      }
    }
  }

  lemma {:induction false} BlockHeadersOfAppend(a: seq<Item>, b: seq<Item>)
    ensures BlockHeadersOf(a + b) == BlockHeadersOf(a) + BlockHeadersOf(b)
    decreases |a|
  {
    if |a| == 0 {
      assert a + b == b;
    } else {
      assert (a + b)[1..] == a[1..] + b;
      BlockHeadersOfAppend(a[1..], b);
    }
  }

  lemma {:induction false} WordItemsContents(words: seq<Word>)
    ensures WordsOf(WordItems(words)) == words
    ensures BlockHeadersOf(WordItems(words)) == []
    decreases |words|
  {
    if |words| > 0 {
      WordItemsContents(words[1..]);
      assert WordItems(words)[1..] == WordItems(words[1..]);
    }
  }

  /** Removing the headers from the stream leaves every block's words, unchanged and in order. */
  lemma {:induction false} FlattenKeepsWords(recording: Recording)
    requires |recording| > 0
    ensures WordsOf(FlattenRecording(recording)) == AllWords(recording[0])
  {
    var r := FlattenRecording(recording);
    FlattenRecordingParts(recording);
    FlattenBlocksWords(recording[0]);
    WordsOfAppend([HeaderItem(TopHeader())], [HeaderItem(BlockArrayHeader())] + FlattenBlocks(recording[0]));
    WordsOfAppend([HeaderItem(BlockArrayHeader())], FlattenBlocks(recording[0]));
  }

  /** A block's items hold its words and exactly its header. */
  lemma {:induction false} BlockItemsContents(block: Block)
    ensures WordsOf(BlockItems(block)) == block.words
    ensures BlockHeadersOf(BlockItems(block)) == [BlockHeader(block)]
  {
    var h := [HeaderItem(BlockHeader(block))];
    WordItemsContents(block.words);
    WordsOfAppend(h, WordItems(block.words));
    BlockHeadersOfAppend(h, WordItems(block.words));
    assert BlockHeadersOf(h) == [BlockHeader(block)] + BlockHeadersOf([]);
  }

  lemma {:induction false} FlattenBlocksWords(blocks: seq<Block>)
    ensures WordsOf(FlattenBlocks(blocks)) == AllWords(blocks)
    decreases |blocks|
  {
    if |blocks| > 0 {
      FlattenBlocksWords(blocks[1..]);
      BlockItemsContents(blocks[0]);
      WordsOfAppend(BlockItems(blocks[0]), FlattenBlocks(blocks[1..]));
    }
  }

  /** The block header of every block, in order. */
  function HeadersOf(blocks: seq<Block>): (r: seq<Header>)
    ensures |r| == |blocks|
  {
    seq(|blocks|, i requires 0 <= i < |blocks| => BlockHeader(blocks[i]))
  }

  lemma {:induction false} FlattenBlocksHeaders(blocks: seq<Block>)
    ensures BlockHeadersOf(FlattenBlocks(blocks)) == HeadersOf(blocks)
    decreases |blocks|
  {
    if |blocks| > 0 {
      FlattenBlocksHeaders(blocks[1..]);
      BlockItemsContents(blocks[0]);
      BlockHeadersOfAppend(BlockItems(blocks[0]), FlattenBlocks(blocks[1..]));
      assert HeadersOf(blocks) == [BlockHeader(blocks[0])] + HeadersOf(blocks[1..]);
    }
  }

  /** Every header in `items` is a level-2 block header. */
  predicate OnlyBlockHeaders(items: seq<Item>) {
    forall k :: 0 <= k < |items| && items[k].HeaderItem? ==> items[k].header.Level() == 2
  }

  /** Every header after the two leading ones is a level-2 block header. */
  lemma {:induction false} FlattenBlocksLevels(blocks: seq<Block>)
    ensures OnlyBlockHeaders(FlattenBlocks(blocks))
    decreases |blocks|
  {
    if |blocks| > 0 {
      var h := [HeaderItem(BlockHeader(blocks[0]))];
      var ws := WordItems(blocks[0].words);
      var rest := FlattenBlocks(blocks[1..]);
      var r := FlattenBlocks(blocks);
      assert r == h + ws + rest;
      FlattenBlocksLevels(blocks[1..]);
      forall k | 0 <= k < |r| && r[k].HeaderItem? ensures r[k].header.Level() == 2 {
        if k == 0 {
          assert r[k] == h[0];
        } else if k >= 1 + |ws| {
          assert r[k] == rest[k - 1 - |ws|];
        }
      }
    }
  }

  /** Every header after the top and block-array headers is a level-2 block header. */
  lemma {:induction false} FlattenRecordingLevels(recording: Recording)
    requires |recording| > 0
    ensures var r := FlattenRecording(recording);
      forall k :: 2 <= k < |r| && r[k].HeaderItem? ==> r[k].header.Level() == 2
  {
    var r := FlattenRecording(recording);
    var fb := FlattenBlocks(recording[0]);
    FlattenRecordingParts(recording);
    FlattenBlocksLevels(recording[0]);
    forall k | 2 <= k < |r| && r[k].HeaderItem? ensures r[k].header.Level() == 2 {
      assert r[k] == fb[k - 2];
    }
  }

  /** Exactly one level-2 header per block, in block order, carrying the block's `isNewLocale` and `locale`. */
  lemma {:induction false} FlattenBlockHeaders(recording: Recording)
    requires |recording| > 0
    ensures var hs := BlockHeadersOf(FlattenRecording(recording));
      && |hs| == |recording[0]|
      && forall i :: 0 <= i < |hs| ==>
           hs[i] == BlockStart(recording[0][i].isNewLocale, recording[0][i].locale)
  {
    var r := FlattenRecording(recording);
    FlattenRecordingParts(recording);
    FlattenBlocksHeaders(recording[0]);
    BlockHeadersOfAppend([HeaderItem(TopHeader())], [HeaderItem(BlockArrayHeader())] + FlattenBlocks(recording[0]));
    BlockHeadersOfAppend([HeaderItem(BlockArrayHeader())], FlattenBlocks(recording[0]));
  }

  /**
   * Where block `i` sits in `FlattenBlocks(blocks)`: after the headers and
   * words of the blocks before it.
   */
  function BlockOffset(blocks: seq<Block>, i: nat): nat
    requires i <= |blocks|
  {
    i + |AllWords(blocks[..i])|
  }

  /** `r` holds `block`'s header at position `p`, followed by the block's words. */
  predicate BlockAt(r: seq<Item>, p: nat, block: Block) {
    && p + 1 + |block.words| <= |r|
    && r[p] == HeaderItem(BlockHeader(block))
    && forall k :: 0 <= k < |block.words| ==> r[p + 1 + k] == WordItem(block.words[k])
  }

  /**
   * Block `i` occupies its header position followed by its words, and the
   * item after its last word is the next block's header, or the stream ends.
   */
  lemma {:induction false} FlattenBlocksLayout(blocks: seq<Block>, i: nat)
    requires i < |blocks|
    ensures var r := FlattenBlocks(blocks);
      && BlockOffset(blocks, i) + 1 + |blocks[i].words| == BlockOffset(blocks, i + 1) <= |r|
      && BlockAt(r, BlockOffset(blocks, i), blocks[i])
      && (i + 1 == |blocks| ==> BlockOffset(blocks, i + 1) == |r|)
  {
    var pre := FlattenBlocks(blocks[..i]);
    var post := FlattenBlocks(blocks[i + 1..]);
    FlattenSplitAt(blocks, i);
    BlockOffsetStep(blocks, i);
    assert |pre| == BlockOffset(blocks, i);
    BlockItemsInside(FlattenBlocks(blocks), pre, blocks[i], post);
    if i + 1 == |blocks| {
      assert blocks[i + 1..] == [];
    }
  }

  /** In `pre + (BlockItems(block) + post)` the block's header sits at `|pre|` and its words follow. */
  lemma {:induction false} BlockItemsInside(r: seq<Item>, pre: seq<Item>, block: Block, post: seq<Item>)
    requires r == pre + (BlockItems(block) + post)
    ensures |pre| + 1 + |block.words| + |post| == |r|
    ensures BlockAt(r, |pre|, block)
  {
    var mid := BlockItems(block);
    InsideMiddle(pre, mid, post);
    assert mid[0] == HeaderItem(BlockHeader(block));
    forall k | 0 <= k < |block.words| ensures r[|pre| + 1 + k] == WordItem(block.words[k]) {
      assert r[|pre| + 1 + k] == mid[1 + k] == WordItems(block.words)[k];
    }
  }

  /** A block found at `p` in `r` is found at `|a| + p` in `a + r`. */
  lemma {:induction false} BlockAtShift(a: seq<Item>, r: seq<Item>, p: nat, block: Block)
    requires BlockAt(r, p, block)
    ensures BlockAt(a + r, |a| + p, block)
  {
    forall k | 0 <= k < |block.words| ensures (a + r)[|a| + p + 1 + k] == WordItem(block.words[k]) {
      assert (a + r)[|a| + p + 1 + k] == r[p + 1 + k];
    }
  }

  /** The stream splits around block `i` into the blocks before it, its own items, and the blocks after it. */
  lemma {:induction false} FlattenSplitAt(blocks: seq<Block>, i: nat)
    requires i < |blocks|
    ensures FlattenBlocks(blocks)
         == FlattenBlocks(blocks[..i]) + (BlockItems(blocks[i]) + FlattenBlocks(blocks[i + 1..]))
  {
    assert blocks == blocks[..i] + blocks[i..];
    FlattenBlocksAppend(blocks[..i], blocks[i..]);
    assert blocks[i..][0] == blocks[i] && blocks[i..][1..] == blocks[i + 1..];
  }

  /** Block `i + 1` starts one header and block `i`'s words after block `i`. */
  lemma {:induction false} BlockOffsetStep(blocks: seq<Block>, i: nat)
    requires i < |blocks|
    ensures BlockOffset(blocks, i + 1) == BlockOffset(blocks, i) + 1 + |blocks[i].words|
  {
    AllWordsSliceSnoc(blocks, 0, i);
    assert blocks[0..i] == blocks[..i] && blocks[0..i + 1] == blocks[..i + 1];
  }

  /** The elements of `b` reappear shifted by `|a|` in `a + (b + c)`. */
  lemma {:induction false} InsideMiddle(a: seq<Item>, b: seq<Item>, c: seq<Item>)
    ensures |a + (b + c)| == |a| + |b| + |c|
    ensures forall k :: 0 <= k < |b| ==> (a + (b + c))[|a| + k] == b[k]
  {
  }

  /** The stream of a concatenation is the concatenation of the streams. */
  lemma {:induction false} FlattenBlocksAppend(a: seq<Block>, b: seq<Block>)
    ensures FlattenBlocks(a + b) == FlattenBlocks(a) + FlattenBlocks(b)
    decreases |a|
  {
    if |a| == 0 {
      assert a + b == b;
    } else {
      assert (a + b)[0] == a[0];
      assert (a + b)[1..] == a[1..] + b;
      FlattenBlocksAppend(a[1..], b);
    }
  }

  /**
   * The same layout in the whole stream: block `i`'s header is at
   * `2 + i + (words before it)`, its words follow, and a block with no
   * words is followed directly by the next block's header or by the end.
   */
  lemma {:induction false} FlattenLayout(recording: Recording, i: nat)
    requires |recording| > 0 && i < |recording[0]|
    ensures var blocks := recording[0];
      var r := FlattenRecording(recording);
      var p := 2 + BlockOffset(blocks, i);
      var n := |blocks[i].words|;
      && BlockAt(r, p, blocks[i])
      && (p + 1 + n == |r| || (r[p + 1 + n].HeaderItem? && r[p + 1 + n].header.Level() == 2))
  {
    var blocks := recording[0];
    var fb := FlattenBlocks(blocks);
    var two := [HeaderItem(TopHeader()), HeaderItem(BlockArrayHeader())];
    assert FlattenRecording(recording) == two + fb;
    FlattenBlocksLayout(blocks, i);
    BlockAtShift(two, fb, BlockOffset(blocks, i), blocks[i]);
    if i + 1 < |blocks| {
      FlattenBlocksLayout(blocks, i + 1);
      BlockAtShift(two, fb, BlockOffset(blocks, i + 1), blocks[i + 1]);
    }
  }

  /** A block without words still has its header, followed at once by the next header or the end. */
  lemma {:induction false} FlattenEmptyBlock(recording: Recording, i: nat)
    requires |recording| > 0 && i < |recording[0]| && |recording[0][i].words| == 0
    ensures var r := FlattenRecording(recording);
      var p := 2 + BlockOffset(recording[0], i);
      && p < |r|
      && r[p] == HeaderItem(BlockHeader(recording[0][i]))
      && (p + 1 == |r| || (r[p + 1].HeaderItem? && r[p + 1].header.Level() == 2))
  {
    FlattenLayout(recording, i);
  }

  /** Elements of a recording after the block array do not affect the stream. */
  lemma {:induction false} FlattenReadsOnlyBlockArray(r1: Recording, r2: Recording)
    requires |r1| > 0 && |r2| > 0 && r1[0] == r2[0]
    ensures FlattenRecording(r1) == FlattenRecording(r2)
  {
  }

  /** The number of word items at the front of `items`. */
  function LeadingWords(items: seq<Item>): (n: nat)
    ensures n <= |items|
  {
    if |items| == 0 || items[0].HeaderItem? then 0 else 1 + LeadingWords(items[1..])
  }

  /** Cuts a stream body at each block header; `None` when it is not a sequence of block groups. */
  function ParseBlocks(items: seq<Item>): Option<seq<Block>>
    decreases |items|
  {
    if |items| == 0 then Some([])
    else if !(items[0].HeaderItem? && items[0].header.BlockStart?) then None
    else
      var h := items[0].header;
      var n := LeadingWords(items[1..]);
      match ParseBlocks(items[1 + n..])
      case None => None
      case Some(rest) => Some([Block(WordsOf(items[1..1 + n]), h.isNewLocale, h.locale)] + rest)
  }

  /** Recovers the block array from a stream that opens with a top and a block-array header. */
  function Unflatten(items: seq<Item>): Option<seq<Block>> {
    if |items| >= 2 && items[0].HeaderItem? && items[0].header.Top? && items[1] == HeaderItem(BlockArray)
    then ParseBlocks(items[2..])
    else None
  }

  lemma {:induction false} LeadingWordsOfBlock(words: seq<Word>, tail: seq<Item>)
    requires |tail| == 0 || tail[0].HeaderItem?
    ensures LeadingWords(WordItems(words) + tail) == |words|
    decreases |words|
  {
    var s := WordItems(words) + tail;
    if |words| > 0 {
      LeadingWordsOfBlock(words[1..], tail);
      assert s[1..] == WordItems(words[1..]) + tail;
    } else {
      assert s == tail;
    }
  }

  /** A block's items in front of a stream that starts at a header are read back as that block. */
  lemma {:induction false} ParseBlockItems(block: Block, tail: seq<Item>)
    requires |tail| == 0 || tail[0].HeaderItem?
    ensures ParseBlocks(BlockItems(block) + tail)
         == match ParseBlocks(tail)
            case None => None
            case Some(rest) => Some([block] + rest)
  {
    var items := BlockItems(block) + tail;
    var ws := WordItems(block.words);
    var n := |block.words|;
    assert items[0] == HeaderItem(BlockHeader(block));
    assert items[1..] == ws + tail;
    LeadingWordsOfBlock(block.words, tail);
    assert items[1 + n..] == tail;
    assert items[1..1 + n] == ws;
    WordItemsContents(block.words);
  }

  lemma {:induction false} ParseFlattenBlocks(blocks: seq<Block>)
    ensures ParseBlocks(FlattenBlocks(blocks)) == Some(blocks)
    decreases |blocks|
  {
    if |blocks| > 0 {
      ParseBlockItems(blocks[0], FlattenBlocks(blocks[1..]));
      ParseFlattenBlocks(blocks[1..]);
      assert [blocks[0]] + blocks[1..] == blocks;
    }
  }

  /** Cutting the stream at its block headers yields the original blocks. */
  lemma {:induction false} UnflattenFlatten(recording: Recording)
    requires |recording| > 0
    ensures Unflatten(FlattenRecording(recording)) == Some(recording[0])
  {
    var r := FlattenRecording(recording);
    FlattenRecordingParts(recording);
    assert r[2..] == FlattenBlocks(recording[0]);
    ParseFlattenBlocks(recording[0]);
  }

  /** Two recordings flatten to the same stream only if their block arrays are equal. */
  lemma {:induction false} FlattenInjective(r1: Recording, r2: Recording)
    requires |r1| > 0 && |r2| > 0
    requires FlattenRecording(r1) == FlattenRecording(r2)
    ensures r1[0] == r2[0]
  {
    UnflattenFlatten(r1);
    UnflattenFlatten(r2);
  }
}
