/** From blocks to pages to chunks: paginate (ragsvc/ingest/textdoc.py),
    _carry_sections and the end of ingest_document (ragsvc/ingest/pipeline.py).
    Blocks are objects here: both loops write into them. */
module Pages {
  import opened Codes
  import opened Packing
  import opened Chunk

  const PAGE_CHARS := 8000

  class PageBlock {
    const kind: Kind
    const text: Text
    const conf: real
    const lowConf: bool
    var page: int
    var section: Text

    constructor (kind: Kind, text: Text, page: int, section: Text, conf: real, lowConf: bool)
      ensures Value() == Block(kind, text, page, section, conf, lowConf)
    {
      this.kind, this.text, this.page, this.section, this.conf, this.lowConf := kind, text, page, section, conf,
        lowConf;
    }

    function Value(): Block
      reads this
    {
      Block(kind, text, page, section, conf, lowConf)
    }
  }

  datatype PageResult = PageResult(page: int, blocks: seq<PageBlock>)

  ghost predicate Distinct(bs: seq<PageBlock>) {
    forall i, j :: 0 <= i < j < |bs| ==> bs[i] != bs[j]
  }

  function BlocksOf(pages: seq<PageResult>): seq<seq<PageBlock>> {
    seq(|pages|, i requires 0 <= i < |pages| => pages[i].blocks)
  }

  /** [b for page in pages for b in page.blocks] */
  function AllBlocks(pages: seq<PageResult>): seq<PageBlock> { Flatten(BlocksOf(pages)) }

  function Values(bs: seq<PageBlock>): (vs: seq<Block>)
    reads bs
    ensures |vs| == |bs|
  {
    seq(|bs|, i requires 0 <= i < |bs| reads bs => bs[i].Value())
  }

  function Length(): PageBlock -> nat { (b: PageBlock) => |b.text| }

  /** Pages are numbered 1..n and their blocks carry their number. */
  ghost predicate Numbered(pages: seq<PageResult>)
    reads set i, b | 0 <= i < |pages| && b in pages[i].blocks :: b
  {
    forall i :: 0 <= i < |pages| ==> pages[i].page == i + 1 && forall b :: b in pages[i].blocks ==> b.page == i + 1
  }

  ghost predicate OnPage(bs: seq<PageBlock>, number: int)
    reads bs
  {
    forall b :: b in bs ==> b.page == number
  }

  // --- paginate ------------------------------------------------------------------------------

  method SetPage(bs: seq<PageBlock>, number: int)
    modifies bs
    ensures OnPage(bs, number)
    ensures forall b :: b in bs ==> b.section == old(b.section)
  {
    for i := 0 to |bs|
      invariant OnPage(bs[..i], number)
      invariant forall b :: b in bs ==> b.section == old(b.section)
    {
      bs[i].page := number;
      assert forall b :: b in bs[..i + 1] ==> b in bs[..i] || b == bs[i];
    }
    assert bs[..|bs|] == bs;
  }

  lemma BlocksSnoc(pages: seq<PageResult>, p: PageResult)
    ensures BlocksOf(pages + [p]) == BlocksOf(pages) + [p.blocks]
    ensures AllBlocks(pages + [p]) == AllBlocks(pages) + p.blocks
  {
    assert BlocksOf(pages + [p]) == BlocksOf(pages) + [p.blocks];
    FlattenAppend(BlocksOf(pages), [p.blocks]);
    FlattenOne(p.blocks);
  }

  lemma InAll(pages: seq<PageResult>, i: nat)
    requires i < |pages|
    ensures forall b :: b in pages[i].blocks ==> b in AllBlocks(pages)
  {
    FlattenPart(BlocksOf(pages), i);
    var o := |Flatten(BlocksOf(pages)[..i])|;
    forall b | b in pages[i].blocks ensures b in AllBlocks(pages) {
      var j :| 0 <= j < |pages[i].blocks| && pages[i].blocks[j] == b;
      assert AllBlocks(pages)[o..o + |pages[i].blocks|][j] == b;
    }
  }

  /** Closing a page: blocks that follow the closed ones get the next number. */
  method ClosePage(pages: seq<PageResult>, current: seq<PageBlock>) returns (more: seq<PageResult>)
    requires Numbered(pages) && Distinct(AllBlocks(pages) + current)
    modifies current
    ensures more == pages + [PageResult(|pages| + 1, current)]
    ensures Numbered(more)
    ensures forall b :: b in current ==> b.section == old(b.section)
  {
    forall i | 0 <= i < |pages| ensures forall b :: b in pages[i].blocks ==> b !in current {
      InAll(pages, i);
      Apart(AllBlocks(pages), current);
    }
    SetPage(current, |pages| + 1);
    more := pages + [PageResult(|pages| + 1, current)];
    forall i | 0 <= i < |more| ensures more[i].page == i + 1 && forall b :: b in more[i].blocks ==> b.page == i + 1 {
      if i < |pages| { assert more[i] == pages[i]; }
    }
  }

  lemma Apart(a: seq<PageBlock>, b: seq<PageBlock>)
    requires Distinct(a + b)
    ensures forall x :: x in a ==> x !in b
  {
    forall i, j | 0 <= i < |a| && 0 <= j < |b| ensures a[i] != b[j] {
      assert (a + b)[i] != (a + b)[|a| + j];
    }
  }

  /** paginate: the greedy packing of the blocks by length, numbered from one. */
  method Paginate(blocks: seq<PageBlock>) returns (pages: seq<PageResult>)
    requires Distinct(blocks)
    modifies blocks
    ensures BlocksOf(pages) == Packed(blocks, Length(), 8000)
    ensures AllBlocks(pages) == blocks && Numbered(pages)
    ensures forall b :: b in blocks ==> b.section == old(b.section)
  {
    hide Packed, Packs, Total, Flatten, Numbered;
    pages := [];
    var current: seq<PageBlock>, size := [], 0;
    NoPages();
    NothingYet();
    PacksStart(blocks, Length(), PAGE_CHARS);
    assert blocks[0..] == blocks;
    for i := 0 to |blocks|
      invariant AllBlocks(pages) + current == blocks[..i]
      invariant Numbered(pages) && size == Total(current, Length())
      invariant Packs(BlocksOf(pages), current, blocks[i..], blocks, Length(), PAGE_CHARS)
      invariant forall b :: b in blocks ==> b.section == old(b.section)
    {
      var block := blocks[i];
      if current != [] && size + |block.text| > PAGE_CHARS {
        PacksClose(BlocksOf(pages), current, blocks[i..], blocks, Length(), PAGE_CHARS);
        PrefixDistinct(blocks, i);
        InPrefix(blocks, AllBlocks(pages), current, i);
        BlocksSnoc(pages, PageResult(|pages| + 1, current));
        pages := ClosePage(pages, current);
        assert AllBlocks(pages) + [] == AllBlocks(pages);
        current, size := [], 0;
      }
      PacksAppend(BlocksOf(pages), current, blocks[i..], blocks, Length(), PAGE_CHARS);
      TotalSnoc(current, block, Length());
      assert blocks[i..][1..] == blocks[i + 1..];
      assert AllBlocks(pages) + (current + [block]) == (AllBlocks(pages) + current) + [block];
      assert blocks[..i] + [block] == blocks[..i + 1];
      current := current + [block];
      size := size + |block.text|;
    }
    assert blocks[|blocks|..] == [] && blocks[..|blocks|] == blocks;
    if current != [] {
      PacksClose(BlocksOf(pages), current, [], blocks, Length(), PAGE_CHARS);
      InPrefix(blocks, AllBlocks(pages), current, |blocks|);
      BlocksSnoc(pages, PageResult(|pages| + 1, current));
      pages := ClosePage(pages, current);
      current := [];
    }
    assert AllBlocks(pages) + [] == AllBlocks(pages);
    PacksEnd(BlocksOf(pages), blocks, Length(), PAGE_CHARS);
  }

  lemma NoPages()
    ensures BlocksOf([]) == [] && AllBlocks([]) == [] && Numbered([])
  {
  }

  lemma NothingYet()
    ensures Total<PageBlock>([], Length()) == 0
  {
  }

  lemma PrefixDistinct(blocks: seq<PageBlock>, i: nat)
    requires Distinct(blocks) && i <= |blocks|
    ensures Distinct(blocks[..i])
  {
  }

  lemma InPrefix(blocks: seq<PageBlock>, done: seq<PageBlock>, current: seq<PageBlock>, i: nat)
    requires i <= |blocks| && done + current == blocks[..i]
    ensures forall b :: b in current ==> b in blocks
    ensures forall j :: 0 <= j < |current| ==> current[j] == blocks[|done| + j]
  {
    forall j | 0 <= j < |current| ensures current[j] == blocks[|done| + j] {
      assert (done + current)[|done| + j] == current[j];
    }
    forall b | b in current ensures b in blocks {
      var j :| 0 <= j < |current| && current[j] == b;
      assert (done + current)[|done| + j] == b;
    }
  }

  /** What paginate promises: every block once and in order, each page within the
      limit or a single block, and as few pages as any such split could have. */
  lemma FewestPages(pages: seq<PageResult>, blocks: seq<PageBlock>, other: seq<seq<PageBlock>>)
    requires BlocksOf(pages) == Packed(blocks, Length(), 8000)
    requires IsSplit(other, blocks, Length(), 8000)
    ensures IsSplit(BlocksOf(pages), blocks, Length(), 8000)
    ensures |pages| <= |other|
  {
    PackedSplits(blocks, Length(), PAGE_CHARS);
    PackedFewest(other, blocks, Length(), PAGE_CHARS);
  }

  // --- _carry_sections --------------------------------------------------------------------------

  function Sections(bs: seq<PageBlock>): (r: seq<Text>)
    reads bs
    ensures |r| == |bs|
  {
    seq(|bs|, i requires 0 <= i < |bs| reads bs => bs[i].section)
  }

  /** The section in force after these: the last one named, if any was. */
  function Running(sections: seq<Text>): Text {
    if sections == [] then []
    else if sections[|sections| - 1] != [] then sections[|sections| - 1]
    else Running(sections[..|sections| - 1])
  }

  lemma RunningSnoc(sections: seq<Text>, k: nat)
    requires k < |sections|
    ensures Running(sections[..k + 1]) == if sections[k] != [] then sections[k] else Running(sections[..k])
  {
    assert sections[..k + 1][..k] == sections[..k];
  }

  /** Every block gets the last section named at or before it, across page breaks;
      a block that names its own keeps it. */
  method CarrySections(pages: seq<PageResult>)
    requires Distinct(AllBlocks(pages))
    modifies AllBlocks(pages)
    ensures var was := old(Sections(AllBlocks(pages)));
      forall k :: 0 <= k < |AllBlocks(pages)| ==> AllBlocks(pages)[k].section == Running(was[..k + 1])
    ensures forall b :: b in AllBlocks(pages) ==> b.page == old(b.page)
  {
    hide AllBlocks, Running, Filled, Offset, Distinct, Sections;
    ghost var all := AllBlocks(pages);
    ghost var was := Sections(all);
    var current: Text := [];
    NoneNamed(was);
    NoneFilled(all, was);
    FirstPage(pages);
    for i := 0 to |pages|
      invariant forall b :: b in all ==> b.page == old(b.page)
      invariant Offset(pages, i) <= |all| && Filled(all, was, Offset(pages, i))
          && current == Running(was[..Offset(pages, i)])
    {
      PageAt(pages, i);
      PageWithin(pages, i);
      current := CarryPage(pages[i].blocks, current, all, was, Offset(pages, i));
    }
    EndOf(pages);
    AllFilled(all, was);
  }

  /** The inner loop: the blocks of one page, which stand in `all` from `o` on. */
  method CarryPage(blocks: seq<PageBlock>, current: Text, ghost all: seq<PageBlock>, ghost was: seq<Text>, ghost o: nat)
    returns (next: Text)
    requires |was| == |all| && o + |blocks| <= |all| && Distinct(all)
    requires forall j :: 0 <= j < |blocks| ==> all[o + j] == blocks[j]
    requires Filled(all, was, o) && current == Running(was[..o])
    modifies blocks
    ensures Filled(all, was, o + |blocks|) && next == Running(was[..o + |blocks|])
    ensures forall b :: b in all ==> b.page == old(b.page)
  {
    hide Running, Filled, Distinct;
    next := current;
    for j := 0 to |blocks|
      invariant forall b :: b in all ==> b.page == old(b.page)
      invariant Filled(all, was, o + j) && next == Running(was[..o + j])
    {
      next := CarryInto(blocks[j], next, all, was, o + j);
    }
  }

  /** One block: name the section, or take the one in force. */
  method CarryInto(block: PageBlock, current: Text, ghost all: seq<PageBlock>, ghost was: seq<Text>, ghost k: nat)
    returns (next: Text)
    requires |was| == |all| && k < |all| && all[k] == block && Distinct(all)
    requires Filled(all, was, k) && current == Running(was[..k])
    modifies block`section
    ensures Filled(all, was, k + 1) && next == Running(was[..k + 1])
  {
    hide Running;
    RunningSnoc(was, k);
    next := current;
    if block.section != [] {
      next := block.section;
    } else if current != [] {
      block.section := current;
    }
  }

  lemma NoneFilled(all: seq<PageBlock>, was: seq<Text>)
    requires was == Sections(all)
    ensures Filled(all, was, 0)
  {
  }

  lemma AllFilled(all: seq<PageBlock>, was: seq<Text>)
    requires |was| == |all| && Filled(all, was, |all|)
    ensures forall k :: 0 <= k < |all| ==> all[k].section == Running(was[..k + 1])
  {
  }

  /** The first `k` blocks have their section, the others still what they had. */
  ghost predicate Filled(all: seq<PageBlock>, was: seq<Text>, k: nat)
    requires |was| == |all|
    reads all
  {
    forall n :: 0 <= n < |all| ==> all[n].section == if n < k then Running(was[..n + 1]) else was[n]
  }

  lemma NoneNamed(was: seq<Text>)
    ensures Running(was[..0]) == []
  {
  }

  lemma FirstPage(pages: seq<PageResult>)
    ensures Offset(pages, 0) == 0
  {
    assert BlocksOf(pages)[..0] == [];
  }

  function Offset(pages: seq<PageResult>, i: nat): nat
    requires i <= |pages|
  {
    |Flatten(BlocksOf(pages)[..i])|
  }

  lemma PageAt(pages: seq<PageResult>, i: nat)
    requires i < |pages|
    ensures Offset(pages, i + 1) == Offset(pages, i) + |pages[i].blocks| <= |AllBlocks(pages)|
    ensures forall j :: 0 <= j < |pages[i].blocks| ==> AllBlocks(pages)[Offset(pages, i) + j] == pages[i].blocks[j]
  {
    FlattenPart(BlocksOf(pages), i);
    var o := Offset(pages, i);
    forall j | 0 <= j < |pages[i].blocks| ensures AllBlocks(pages)[o + j] == pages[i].blocks[j] {
      assert AllBlocks(pages)[o..o + |pages[i].blocks|][j] == AllBlocks(pages)[o + j];
    }
  }

  lemma PageWithin(pages: seq<PageResult>, i: nat)
    requires i < |pages|
    ensures forall b :: b in pages[i].blocks ==> b in AllBlocks(pages)
  {
    hide AllBlocks, Offset;
    PageAt(pages, i);
    forall b | b in pages[i].blocks ensures b in AllBlocks(pages) {
      var j :| 0 <= j < |pages[i].blocks| && pages[i].blocks[j] == b;
      assert AllBlocks(pages)[Offset(pages, i) + j] == b;
    }
  }

  lemma EndOf(pages: seq<PageResult>)
    ensures Offset(pages, |pages|) == |AllBlocks(pages)|
  {
    assert BlocksOf(pages)[..|pages|] == BlocksOf(pages);
  }

  /** What "the section in force" means. */
  lemma {:induction false} RunningIs(sections: seq<Text>)
    ensures Running(sections) == [] <==> forall i :: 0 <= i < |sections| ==> sections[i] == []
    ensures Running(sections) != [] ==>
      exists i :: 0 <= i < |sections| && sections[i] == Running(sections) && forall j :: i < j < |sections| ==>
        sections[j] == []
  {
    if sections != [] {
      var l := |sections| - 1;
      RunningIs(sections[..l]);
      if sections[l] == [] && Running(sections) != [] {
        var i :| 0 <= i < |sections[..l]| && sections[..l][i] == Running(sections[..l])
          && forall j :: i < j < |sections[..l]| ==> sections[..l][j] == [];
        assert forall j :: i < j < l ==> sections[..l][j] == sections[j];
        assert sections[i] == Running(sections);
      }
      assert forall i :: 0 <= i < l ==> sections[..l][i] == sections[i];
    }
  }

  // --- pages to chunks -----------------------------------------------------------------------------

  lemma NumberedAscends(pages: seq<PageResult>, i: nat)
    requires Numbered(pages) && i <= |pages|
    ensures Ascending(Values(Flatten(BlocksOf(pages)[..i])))
    ensures forall b :: b in Flatten(BlocksOf(pages)[..i]) ==> b.page <= i
    decreases i
  {
    if i > 0 {
      NumberedAscends(pages, i - 1);
      assert BlocksOf(pages)[..i] == BlocksOf(pages)[..i - 1] + [pages[i - 1].blocks];
      FlattenAppend(BlocksOf(pages)[..i - 1], [pages[i - 1].blocks]);
      FlattenOne(pages[i - 1].blocks);
      AscendingThen(Flatten(BlocksOf(pages)[..i - 1]), pages[i - 1].blocks, i);
    }
  }

  lemma AscendingThen(a: seq<PageBlock>, b: seq<PageBlock>, page: int)
    requires Ascending(Values(a)) && (forall x :: x in a ==> x.page <= page) && forall x :: x in b ==> x.page == page
    ensures Ascending(Values(a + b))
  {
    forall i, j | 0 <= i < j < |a + b| ensures Values(a + b)[i].page <= Values(a + b)[j].page {
      if j < |a| {
        assert Values(a)[i].page <= Values(a)[j].page;
      } else {
        assert (a + b)[j] in b;
        assert (a + b)[i] in a || (a + b)[i] in b;
      }
    }
  }

  /** Every chunk's span holds the pages of all blocks it owns, and no chunk ends
      after the next one starts. */
  ghost predicate SpansHold(chunks: seq<Chunk>, groups: seq<seq<Item>>) {
    && |chunks| == |groups|
    && (forall i, k :: 0 <= i < |groups| && 0 <= k < |groups[i]| ==>
      chunks[i].page <= groups[i][k].block.page <= chunks[i].pageEnd)
    && (forall i :: 0 <= i && i + 1 < |chunks| ==> chunks[i].pageEnd <= chunks[i + 1].page)
  }

  lemma ChunksSpan(st: Settings, blocks: seq<Block>)
    requires Ascending(blocks) && forall i :: 0 <= i < |Groups(st, blocks)| ==> Groups(st, blocks)[i] != []
    ensures SpansHold(RenderAll(st, Groups(st, blocks)), Groups(st, blocks))
  {
    hide Ascending, Groups, CarryAfter, ChunkText, FirstSection, MinPage, MaxPage;
    var groups := Groups(st, blocks);
    forall i | 0 <= i < |groups|
      ensures forall k :: 0 <= k < |groups[i]| ==>
        MinPage(Own(groups[i])) <= groups[i][k].block.page <= MaxPage(Own(groups[i]))
      ensures i + 1 < |groups| ==> MaxPage(Own(groups[i])) <= MinPage(Own(groups[i + 1]))
    {
      SpansInOrder(st, blocks, i);
    }
  }

  /** The end of ingest_document: sections carried over page breaks, then chunks. */
  method ChunkPages(st: Settings, pages: seq<PageResult>) returns (chunks: seq<Chunk>, ghost groups: seq<seq<Item>>)
    requires Counting(st) && Distinct(AllBlocks(pages)) && Numbered(pages)
    modifies AllBlocks(pages)
    ensures groups == Groups(st, Values(AllBlocks(pages))) && forall i :: 0 <= i < |groups| ==> groups[i] != []
    ensures chunks == RenderAll(st, groups)
    ensures var was := old(Sections(AllBlocks(pages)));
      forall k :: 0 <= k < |AllBlocks(pages)| ==> AllBlocks(pages)[k].section == Running(was[..k + 1])
    ensures Numbered(pages)
    ensures SpansHold(chunks, groups)
  {
    hide Groups, RenderAll, SpansHold, Ascending, Running;
    forall i | 0 <= i < |pages| ensures forall b :: b in pages[i].blocks ==> b in AllBlocks(pages) { InAll(pages, i); }
    CarrySections(pages);
    NumberedAscends(pages, |pages|);
    assert BlocksOf(pages)[..|pages|] == BlocksOf(pages);
    chunks, groups := ChunkBlocks(st, Values(AllBlocks(pages)));
    ChunksSpan(st, Values(AllBlocks(pages)));
  }

  /** A text document, from its blocks to its chunks. */
  method IngestText(st: Settings, blocks: seq<PageBlock>)
    returns (pages: seq<PageResult>, chunks: seq<Chunk>, ghost groups: seq<seq<Item>>)
    requires Counting(st) && Distinct(blocks)
    modifies blocks
    ensures BlocksOf(pages) == Packed(blocks, Length(), PAGE_CHARS) && AllBlocks(pages) == blocks && Numbered(pages)
    ensures Flatten(groups) == Items(st, Values(blocks)) && Lawful(st, groups)
    ensures forall i :: 0 <= i < |groups| ==> groups[i] != []
    ensures chunks == RenderAll(st, groups) && SpansHold(chunks, groups)
    ensures var was := old(Sections(blocks)); forall k :: 0 <= k < |blocks| ==>
      blocks[k].section == Running(was[..k + 1])
  {
    hide Groups, RenderAll, SpansHold, Lawful, Items, Numbered, Running, Packed, AllBlocks, BlocksOf;
    ghost var was := Sections(blocks);
    pages := Paginate(blocks);
    assert Sections(blocks) == was;
    chunks, groups := ChunkPages(st, pages);
    GroupsKeep(st, Values(blocks));
  }
}
