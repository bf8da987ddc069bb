/** The parser's loops, proved to produce what the grammar of module Markdown describes. */
module MarkdownParser {
  import opened Prelude
  import opened Markdown

  // ---------------------------------------------------------------- simple blocks

  method ReadDisplayMathBlock<L>(s: Syntax<L>, lines: seq<L>, start: nat)
    returns (r: Option<(seq<L>, nat)>)
    requires start < |lines|
    ensures r.None? <==> s.mathOpen(lines[start]).None?
    ensures r.Some? ==> start < r.value.1 <= |lines| && IsMath(s, lines, start, r.value.1, r.value.0)
  {
    var open := s.mathOpen(lines[start]);
    if open.None? { return None; }
    var (dollar, first) := open.value;
    var body := [first];
    var i := start + 1;
    var closed := s.mathClose(dollar, first);
    if closed.Some? { return Some(([closed.value], i)); }
    while i < |lines|
      invariant start < i <= |lines| && body == [first] + lines[start + 1..i]
      invariant forall k :: start < k < i ==> s.mathClose(dollar, lines[k]).None?
    {
      var current := lines[i];
      closed := s.mathClose(dollar, current);
      if closed.Some? {
        assert MathCloses(s, lines, start, dollar, i);
        return Some((body + [closed.value], i + 1));
      }
      body := body + [current];
      i := i + 1;
    }
    assert MathCloses(s, lines, start, dollar, i);
    r := Some((body, i));
  }

  /** The closing fence is skipped even when it is missing, so `next` can pass the end by one. */
  method ReadFence<L>(s: Syntax<L>, lines: seq<L>, start: nat) returns (lang: L, code: seq<L>, next: nat)
    requires start < |lines| && s.fenceOpen(lines[start]).Some?
    ensures start < next <= |lines| + 1
    ensures IsFence(s, lines, start, if next <= |lines| then next else |lines|, lang, code)
  {
    lang := s.fenceOpen(lines[start]).value;
    code := [];
    var i := start + 1;
    while i < |lines| && !s.fence(lines[i])
      invariant start < i <= |lines| && code == lines[start + 1..i]
      invariant forall k :: start < k < i ==> !s.fence(lines[k])
    {
      code := code + [lines[i]];
      i := i + 1;
    }
    assert FenceCloses(s, lines, start, i);
    next := i + 1;
  }

  method ReadQuote<L>(s: Syntax<L>, lines: seq<L>, start: nat) returns (texts: seq<L>, next: nat)
    requires start < |lines| && s.quote(lines[start]).Some?
    ensures IsQuote(s, lines, start, next, texts)
  {
    texts := [];
    next := start;
    while next < |lines| && s.quote(lines[next]).Some?
      invariant start <= next <= |lines| && |texts| == next - start
      invariant forall k :: start <= k < next ==> s.quote(lines[k]) == Some(texts[k - start])
    {
      texts := texts + [s.quote(lines[next]).value];
      next := next + 1;
    }
  }

  method ReadTable<L>(s: Syntax<L>, lines: seq<L>, start: nat) returns (table: Block<L>, next: nat)
    requires start < |lines| && TableStart(s, lines, start)
    ensures IsTable(s, lines, start, next, table)
  {
    var aligns := s.delimiter(lines[start + 1]).value;
    var header := s.cells(lines[start]);
    var rows := [];
    next := start + 2;
    while next < |lines| && s.pipe(lines[next]) && !s.blank(lines[next])
      invariant start + 2 <= next <= |lines| && |rows| == next - start - 2
      invariant forall k :: start + 2 <= k < next ==>
          IsRow(s, lines[k]) && rows[k - start - 2] == Fit(s.cells(lines[k]), |header|, s.nothing)
    {
      rows := rows + [Fit(s.cells(lines[next]), |header|, s.nothing)];
      next := next + 1;
    }
    table := Table(aligns, header, rows);
  }

  method ReadParagraph<L>(s: Syntax<L>, lines: seq<L>, start: nat) returns (para: seq<L>, next: nat)
    requires start < |lines|
    ensures IsParagraph(s, lines, start, next, para)
  {
    para := [lines[start]];
    next := start + 1;
    while next < |lines| && !EndsParagraph(s, lines, next)
      invariant start < next <= |lines| && para == lines[start..next]
      invariant forall k :: start < k < next ==> !EndsParagraph(s, lines, k)
    {
      para := para + [lines[next]];
      next := next + 1;
    }
  }

  // ---------------------------------------------------------------- lists

  lemma {:induction false} NonBlankSplit<L>(s: Syntax<L>, lines: seq<L>, a: nat, b: nat, c: nat)
    requires a <= b <= c <= |lines|
    requires forall k :: b <= k < c ==> s.blank(lines[k])
    ensures NonBlank(s, lines[a..c]) == NonBlank(s, lines[a..b])
    decreases c
  {
    if b < c {
      assert lines[a..c][..c - a - 1] == lines[a..c - 1];
      NonBlankSplit(s, lines, a, b, c - 1);
    }
  }

  lemma NonBlankNext<L>(s: Syntax<L>, lines: seq<L>, a: nat, b: nat)
    requires a <= b < |lines| && !s.blank(lines[b])
    ensures NonBlank(s, lines[a..b + 1]) == NonBlank(s, lines[a..b]) + [lines[b]]
  {
    assert lines[a..b + 1][..b - a] == lines[a..b];
  }

  lemma {:induction false} NonBlankShort<L>(s: Syntax<L>, lines: seq<L>)
    ensures |NonBlank(s, lines)| <= |lines|
  {
    if lines != [] { NonBlankShort(s, lines[..|lines| - 1]); }
  }

  lemma {:induction false} FlattenLong<L>(raws: seq<RawItem<L>>, k: nat)
    requires k < |raws|
    ensures |Flatten(raws)| > |raws[k].children|
  {
    if k < |raws| - 1 { FlattenLong(raws[..|raws| - 1], k); }
  }

  /** A line joins the item that is being read. */
  function WithChild<L>(raws: seq<RawItem<L>>, line: L): (r: seq<RawItem<L>>)
    requires raws != []
    ensures |r| == |raws|
  {
    var last := raws[|raws| - 1];
    raws[..|raws| - 1] + [last.(children := last.children + [line])]
  }

  lemma WithChildKeeps<L>(s: Syntax<L>, raws: seq<RawItem<L>>, line: L, base: nat, ordered: bool)
    requires raws != [] && RawsOk(s, raws, base, ordered) && IsChild(s, line, base)
    ensures RawsOk(s, WithChild(raws, line), base, ordered)
    ensures Flatten(WithChild(raws, line)) == Flatten(raws) + [line]
  {
    var r := WithChild(raws, line);
    var n := |raws| - 1;
    assert r[..n] == raws[..n];
    assert RawOk(s, r[n], base, ordered) by { assert RawOk(s, raws[n], base, ordered); }
    forall k | 0 <= k < |r| ensures RawOk(s, r[k], base, ordered) {
      if k < n { assert r[k] == raws[k]; }
    }
  }

  lemma NewItemKeeps<L>(s: Syntax<L>, raws: seq<RawItem<L>>, line: L, base: nat, ordered: bool)
    requires RawsOk(s, raws, base, ordered) && IsHead(s, line, base, ordered)
    ensures RawsOk(s, raws + [RawItem(line, [])], base, ordered)
    ensures Flatten(raws + [RawItem(line, [])]) == Flatten(raws) + [line]
  {
    var r := raws + [RawItem(line, [])];
    assert r[..|raws|] == raws;
  }

  /** Skips blank lines. */
  method NextNonBlank<L>(s: Syntax<L>, lines: seq<L>, start: nat) returns (j: nat)
    requires start < |lines| && s.blank(lines[start])
    ensures start < j <= |lines| && (forall k :: start <= k < j ==> s.blank(lines[k]))
    ensures j < |lines| ==> !s.blank(lines[j])
  {
    j := start + 1;
    while j < |lines| && s.blank(lines[j])
      invariant start < j <= |lines| && forall k :: start <= k < j ==> s.blank(lines[k])
    {
      j := j + 1;
    }
  }

  /** Where the gap of blank lines before j leads: on with the list, or out of it. */
  predicate GoesOn<L>(s: Syntax<L>, lines: seq<L>, j: nat, base: nat, ordered: bool)
    requires j <= |lines|
  {
    j < |lines|
    && var after := s.item(lines[j]);
       || (after.Some? && after.value.indent > base)
       || (after.Some? && after.value.indent == base && after.value.ordered == ordered)
       || (s.indent(lines[j]) > base && after.None?)
  }

  lemma GoesOnToMember<L(!new)>(s: Syntax<L>, lines: seq<L>, j: nat, base: nat, ordered: bool)
    requires Coherent(s) && j < |lines| && !s.blank(lines[j])
    ensures GoesOn(s, lines, j, base, ordered) <==> IsMember(s, lines[j], base, ordered)
  {
  }

  /** Blank lines inside a list: does the list go on after them? */
  method CrossGap<L(!new)>(s: Syntax<L>, lines: seq<L>, i: nat, base: nat, ordered: bool) returns (j: nat, on: bool)
    requires Coherent(s) && i < |lines| && s.blank(lines[i])
    ensures i < j <= |lines| && (forall k :: i <= k < j ==> s.blank(lines[k]))
    ensures if on then j < |lines| && IsMember(s, lines[j], base, ordered) else ListStops(s, lines, i, base, ordered)
  {
    j := NextNonBlank(s, lines, i);
    if j < |lines| { GoesOnToMember(s, lines, j, base, ordered); }
    on := GoesOn(s, lines, j, base, ordered);
    assert j == NextText(s, lines, i);
  }

  /** What holds of the first loop of the list parser before line i. */
  ghost predicate Collecting<L>(s: Syntax<L>, lines: seq<L>, start: nat, i: nat, raws: seq<RawItem<L>>, base: nat, ordered: bool) {
    && start <= i <= |lines| && (raws == [] <==> i == start)
    && RawsOk(s, raws, base, ordered) && Flatten(raws) == NonBlank(s, lines[start..i])
    && (i > start && s.blank(lines[i - 1]) ==> i < |lines| && IsMember(s, lines[i], base, ordered))
  }

  lemma CollectHead<L>(s: Syntax<L>, lines: seq<L>, start: nat, i: nat, raws: seq<RawItem<L>>, base: nat, ordered: bool)
    requires Collecting(s, lines, start, i, raws, base, ordered)
    requires i < |lines| && !s.blank(lines[i]) && IsHead(s, lines[i], base, ordered)
    ensures Collecting(s, lines, start, i + 1, raws + [RawItem(lines[i], [])], base, ordered)
  {
    NonBlankNext(s, lines, start, i);
    NewItemKeeps(s, raws, lines[i], base, ordered);
  }

  lemma CollectChild<L>(s: Syntax<L>, lines: seq<L>, start: nat, i: nat, raws: seq<RawItem<L>>, base: nat, ordered: bool)
    requires Collecting(s, lines, start, i, raws, base, ordered) && raws != []
    requires i < |lines| && !s.blank(lines[i]) && IsChild(s, lines[i], base)
    ensures Collecting(s, lines, start, i + 1, WithChild(raws, lines[i]), base, ordered)
  {
    NonBlankNext(s, lines, start, i);
    WithChildKeeps(s, raws, lines[i], base, ordered);
  }

  lemma CollectGap<L>(s: Syntax<L>, lines: seq<L>, start: nat, i: nat, j: nat, raws: seq<RawItem<L>>, base: nat, ordered: bool)
    requires Collecting(s, lines, start, i, raws, base, ordered) && raws != []
    requires i < j < |lines| && (forall k :: i <= k < j ==> s.blank(lines[k]))
    requires IsMember(s, lines[j], base, ordered)
    ensures Collecting(s, lines, start, j, raws, base, ordered)
  {
    NonBlankSplit(s, lines, start, i, j);
  }

  /** Gives a line that is not blank to the item it belongs to, if it belongs to the list. */
  method TakeLine<L(!new)>(s: Syntax<L>, lines: seq<L>, start: nat, i: nat, raws: seq<RawItem<L>>, base: nat, ordered: bool)
    returns (grown: seq<RawItem<L>>, taken: bool)
    requires Coherent(s) && Collecting(s, lines, start, i, raws, base, ordered)
    requires i < |lines| && !s.blank(lines[i]) && (i == start ==> IsHead(s, lines[i], base, ordered))
    ensures taken ==> Collecting(s, lines, start, i + 1, grown, base, ordered)
    ensures !taken ==> grown == raws && i > start && ListStops(s, lines, i, base, ordered)
  {
    var line := lines[i];
    var item := s.item(line);
    if item.Some? && item.value.indent == base && item.value.ordered == ordered {
      CollectHead(s, lines, start, i, raws, base, ordered);
      return raws + [RawItem(line, [])], true;
    }
    if item.Some? && item.value.indent == base && item.value.ordered != ordered { return raws, false; }
    // The parser starts an empty item here when there is none yet; by then there always is one.
    if (item.Some? && item.value.indent > base) || (item.None? && s.indent(line) > base && |raws| > 0) {
      CollectChild(s, lines, start, i, raws, base, ordered);
      return WithChild(raws, line), true;
    }
    return raws, false;
  }

  /** One pass of the first loop of the list parser: blank lines or one line that goes on with the list. */
  method CollectLine<L(!new)>(s: Syntax<L>, lines: seq<L>, start: nat, i: nat, raws: seq<RawItem<L>>, base: nat, ordered: bool)
    returns (grown: seq<RawItem<L>>, next: nat, on: bool)
    requires Coherent(s) && Collecting(s, lines, start, i, raws, base, ordered) && i < |lines|
    requires i == start ==> IsHead(s, lines[i], base, ordered) && !s.blank(lines[i])
    ensures on ==> i < next <= |lines| && Collecting(s, lines, start, next, grown, base, ordered)
    ensures !on ==> grown == raws && next == i > start && ListStops(s, lines, i, base, ordered)
  {
    hide Coherent, RawsOk, Flatten, NonBlank, NextText, IsMember, IsHead;
    grown, next := raws, i;
    if s.blank(lines[i]) {
      var j;
      j, on := CrossGap(s, lines, i, base, ordered);
      if on {
        CollectGap(s, lines, start, i, j, raws, base, ordered);
        next := j;
      }
    } else {
      grown, on := TakeLine(s, lines, start, i, raws, base, ordered);
      if on { next := i + 1; }
    }
  }

  /** The first loop of the list parser: which lines belong to which item. */
  method CollectItems<L(!new)>(s: Syntax<L>, lines: seq<L>, start: nat) returns (raws: seq<RawItem<L>>, next: nat)
    requires Coherent(s) && start < |lines| && s.item(lines[start]).Some?
    ensures IsList(s, lines, start, next, raws)
  {
    var first := s.item(lines[start]).value;
    var base, ordered := first.indent, first.ordered;
    raws, next := [], start;
    StartsCollecting(s, lines, start);
    hide Coherent, Collecting, IsList, ListStops, IsHead;
    while next < |lines|
      invariant start <= next <= |lines| && Collecting(s, lines, start, next, raws, base, ordered)
    {
      var on;
      raws, next, on := CollectLine(s, lines, start, next, raws, base, ordered);
      if !on { break; }
    }
    CollectedList(s, lines, start, next, raws);
  }

  lemma StartsCollecting<L(!new)>(s: Syntax<L>, lines: seq<L>, start: nat)
    requires Coherent(s) && start < |lines| && s.item(lines[start]).Some?
    ensures var first := s.item(lines[start]).value;
            && Collecting(s, lines, start, start, [], first.indent, first.ordered)
            && IsHead(s, lines[start], first.indent, first.ordered) && !s.blank(lines[start])
  {
    assert lines[start..start] == [];
  }

  lemma CollectedList<L>(s: Syntax<L>, lines: seq<L>, start: nat, to: nat, raws: seq<RawItem<L>>)
    requires start < to <= |lines| && s.item(lines[start]).Some?
    requires
      var first := s.item(lines[start]).value;
      && Collecting(s, lines, start, to, raws, first.indent, first.ordered)
      && ListStops(s, lines, to, first.indent, first.ordered)
      && (to < |lines| && s.blank(lines[to - 1]) ==> !IsMember(s, lines[to], first.indent, first.ordered))
    ensures IsList(s, lines, start, to, raws)
  {
  }

  /** Every item has a head, and fewer children than the document has lines. */
  lemma ItemsAreSmall<L>(s: Syntax<L>, lines: seq<L>, from: nat, to: nat, raws: seq<RawItem<L>>)
    requires IsList(s, lines, from, to, raws)
    ensures forall k :: 0 <= k < |raws| ==> s.item(raws[k].head).Some? && |raws[k].children| < |lines|
  {
    var first := s.item(lines[from]).value;
    NonBlankShort(s, lines[from..to]);
    forall k | 0 <= k < |raws| ensures s.item(raws[k].head).Some? && |raws[k].children| < |lines| {
      FlattenLong(raws, k);
      assert RawOk(s, raws[k], first.indent, first.ordered);
    }
  }

  // ---------------------------------------------------------------- the mutual recursion

  /** Consumes a whole list, and has the children of each item parsed. */
  method ParseListBlock<L(!new)>(s: Syntax<L>, lines: seq<L>, start: nat) returns (block: Block<L>, next: nat)
    requires Coherent(s) && start < |lines| && s.item(lines[start]).Some?
    ensures start < next <= |lines| && block.List? && IsListBlock(s, lines, start, next, block)
    decreases |lines|, 1
  {
    var raws;
    raws, next := CollectItems(s, lines, start);
    ItemsAreSmall(s, lines, start, next, raws);
    var items := RenderItems(s, |lines|, raws);
    var first := s.item(lines[start]).value;
    block := List(first.ordered, first.num, items);
  }

  /** The second loop of the list parser. */
  method RenderItems<L(!new)>(s: Syntax<L>, ghost bound: nat, raws: seq<RawItem<L>>) returns (items: seq<Item<L>>)
    requires Coherent(s)
    requires forall k :: 0 <= k < |raws| ==> s.item(raws[k].head).Some? && |raws[k].children| < bound
    ensures AreItems(s, bound, raws, items)
    decreases bound, 0
  {
    items := [];
    for k := 0 to |raws|
      invariant |items| == k && forall m :: 0 <= m < k ==> IsItem(s, bound, raws[m], items[m])
    {
      var item := s.item(raws[k].head).value;
      var blocks := [];
      if |raws[k].children| > 0 {
        blocks := RenderBlocks(s, s.dedent(raws[k].children));
      }
      items := items + [Item(item.content, item.task, blocks)];
    }
  }

  /** One turn of the parser's loop: the block that starts at line i, and where the next turn starts. */
  method NextPiece<L(!new)>(s: Syntax<L>, lines: seq<L>, i: nat) returns (block: Option<Block<L>>, next: nat)
    requires Coherent(s) && i < |lines|
    ensures i < next <= |lines| + 1
    ensures IsPiece(s, lines, Piece(i, if next <= |lines| then next else |lines|, block))
    decreases |lines|, 2
  {
    var line := lines[i];
    var math := ReadDisplayMathBlock(s, lines, i);
    if math.Some? {
      return Some(Math(math.value.0)), math.value.1;
    }
    if s.fenceOpen(line).Some? {
      var lang, code;
      lang, code, next := ReadFence(s, lines, i);
      return Some(Code(lang, code)), next;
    }
    if s.rule(line) { return Some(Rule), i + 1; }
    var heading := s.heading(line);
    if heading.Some? { return Some(Heading(heading.value.0, heading.value.1)), i + 1; }
    if s.quote(line).Some? {
      var texts;
      texts, next := ReadQuote(s, lines, i);
      return Some(Quote(texts)), next;
    }
    if TableStart(s, lines, i) {
      var table;
      table, next := ReadTable(s, lines, i);
      return Some(table), next;
    }
    if s.item(line).Some? {
      var list;
      list, next := ParseListBlock(s, lines, i);
      return Some(list), next;
    }
    if s.blank(line) { return None, i + 1; }
    var para;
    para, next := ReadParagraph(s, lines, i);
    block := Some(Paragraph(para));
  }

  lemma TilesAppend<L>(pieces: seq<Piece<L>>, i: nat, p: Piece<L>)
    requires Tiles(pieces, i) && p.from == i < p.to
    ensures Tiles(pieces + [p], p.to)
    ensures Shown(pieces + [p]) == Shown(pieces) + (if p.block.Some? then [p.block.value] else [])
  {
    assert (pieces + [p])[..|pieces|] == pieces;
  }

  lemma PiecesAppend<L(!new)>(s: Syntax<L>, lines: seq<L>, pieces: seq<Piece<L>>, p: Piece<L>)
    requires ArePieces(s, lines, pieces) && IsPiece(s, lines, p)
    ensures ArePieces(s, lines, pieces + [p])
  {
  }

  method RenderBlocks<L(!new)>(s: Syntax<L>, lines: seq<L>) returns (blocks: seq<Block<L>>)
    requires Coherent(s)
    ensures IsDocument(s, lines, blocks)
    decreases |lines|, 3
  {
    blocks := [];
    ghost var pieces: seq<Piece<L>> := [];
    var i := 0;
    while i < |lines|
      invariant 0 <= i <= |lines| + 1
      invariant Tiles(pieces, if i <= |lines| then i else |lines|)
      invariant Shown(pieces) == blocks && ArePieces(s, lines, pieces)
    {
      var block, next := NextPiece(s, lines, i);
      ghost var p := Piece(i, if next <= |lines| then next else |lines|, block);
      TilesAppend(pieces, i, p);
      PiecesAppend(s, lines, pieces, p);
      pieces := pieces + [p];
      if block.Some? { blocks := blocks + [block.value]; }
      i := next;
    }
  }
}
