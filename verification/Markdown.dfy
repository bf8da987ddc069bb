/**
 The block parser: a loop over the lines, and a list parser that hands the children of each
 item back to it. Its output is specified by a grammar on intervals of lines, and the grammar
 is shown to admit one output only.
 */
module Markdown {
  import opened Prelude

  datatype Align = Left | Center | Right | Unaligned

  /** A line that opens a list item, taken apart. */
  datatype ListLine<L> = ListLine(indent: nat, ordered: bool, num: Option<nat>, task: Option<bool>, content: L)

  /** What the parser can ask about a line; the patterns it matches lines against. */
  datatype Syntax<!L> = Syntax(
    blank: L -> bool,
    indent: L -> nat,
    item: L -> Option<ListLine<L>>,
    dedent: seq<L> -> seq<L>,
    mathLike: L -> bool,                       // opens display math, for a paragraph that it ends
    mathOpen: L -> Option<(bool, L)>,          // kind of delimiter, and the text after it
    mathClose: (bool, L) -> Option<L>,         // the text before a closing delimiter
    fenceOpen: L -> Option<L>,                 // the language of a code block
    fence: L -> bool,                          // closes a code block, or ends a paragraph
    rule: L -> bool,
    heading: L -> Option<(nat, L)>,
    headingLike: L -> bool,                    // ends a paragraph
    quote: L -> Option<L>,                     // the text after the quote mark
    pipe: L -> bool,
    delimiter: L -> Option<seq<Align>>,        // column alignments of a delimiter row
    cells: L -> seq<L>,
    nothing: L)

  /** All that is assumed of the patterns. */
  ghost predicate Coherent<L(!new)>(s: Syntax<L>) {
    && (forall line :: s.item(line).Some? ==> !s.blank(line) && s.item(line).value.indent == s.indent(line))
    && (forall lines :: |s.dedent(lines)| == |lines|)
  }

  datatype Block<L> =
    | Math(lines: seq<L>)
    | Code(lang: L, code: seq<L>)
    | Rule
    | Heading(level: nat, text: L)
    | Quote(texts: seq<L>)
    | Table(aligns: seq<Align>, header: seq<L>, rows: seq<seq<L>>)
    | List(ordered: bool, first: Option<nat>, items: seq<Item<L>>)
    | Paragraph(lines: seq<L>)

  datatype Item<L> = Item(head: L, task: Option<bool>, blocks: seq<Block<L>>)

  /** An item before its children are parsed: its own line, and the lines under it. */
  datatype RawItem<L> = RawItem(head: L, children: seq<L>)

  datatype Kind = MathKind | FenceKind | RuleKind | HeadingKind | QuoteKind | TableKind | ListKind | BlankKind | ParagraphKind

  predicate TableStart<L>(s: Syntax<L>, lines: seq<L>, i: nat)
    requires i < |lines|
  {
    i + 1 < |lines| && s.pipe(lines[i]) && s.delimiter(lines[i + 1]).Some?
  }

  /** Which branch the parser takes at line i: the first pattern that matches. */
  function KindAt<L>(s: Syntax<L>, lines: seq<L>, i: nat): Kind
    requires i < |lines|
  {
    var line := lines[i];
    if s.mathOpen(line).Some? then MathKind
    else if s.fenceOpen(line).Some? then FenceKind
    else if s.rule(line) then RuleKind
    else if s.heading(line).Some? then HeadingKind
    else if s.quote(line).Some? then QuoteKind
    else if TableStart(s, lines, i) then TableKind
    else if s.item(line).Some? then ListKind
    else if s.blank(line) then BlankKind
    else ParagraphKind
  }

  // ---------------------------------------------------------------- what a list covers

  /** An item of the list whose first line has this indentation and kind of marker. */
  ghost predicate IsHead<L>(s: Syntax<L>, line: L, base: nat, ordered: bool) {
    var item := s.item(line);
    item.Some? && item.value.indent == base && item.value.ordered == ordered
  }

  ghost predicate IsChild<L>(s: Syntax<L>, line: L, base: nat) {
    !s.blank(line) && s.indent(line) > base
  }

  ghost predicate IsMember<L>(s: Syntax<L>, line: L, base: nat, ordered: bool) {
    IsHead(s, line, base, ordered) || IsChild(s, line, base)
  }

  ghost function NonBlank<L>(s: Syntax<L>, lines: seq<L>): seq<L> {
    if lines == [] then []
    else NonBlank(s, lines[..|lines| - 1]) + (if s.blank(lines[|lines| - 1]) then [] else [lines[|lines| - 1]])
  }

  /** The lines of the items: each head, then its children. */
  ghost function Flatten<L>(raws: seq<RawItem<L>>): seq<L> {
    if raws == [] then []
    else Flatten(raws[..|raws| - 1]) + [raws[|raws| - 1].head] + raws[|raws| - 1].children
  }

  ghost predicate RawOk<L>(s: Syntax<L>, raw: RawItem<L>, base: nat, ordered: bool) {
    IsHead(s, raw.head, base, ordered)
    && forall k :: 0 <= k < |raw.children| ==> IsChild(s, raw.children[k], base)
  }

  ghost predicate RawsOk<L>(s: Syntax<L>, raws: seq<RawItem<L>>, base: nat, ordered: bool) {
    forall k :: 0 <= k < |raws| ==> RawOk(s, raws[k], base, ordered)
  }

  /** The first line from i on that is not blank. */
  ghost function NextText<L>(s: Syntax<L>, lines: seq<L>, i: nat): (j: nat)
    requires i <= |lines|
    ensures i <= j <= |lines| && forall k :: i <= k < j ==> s.blank(lines[k])
    ensures j < |lines| ==> !s.blank(lines[j])
    decreases |lines| - i
  {
    if i == |lines| || !s.blank(lines[i]) then i else NextText(s, lines, i + 1)
  }

  /** The next line that is not blank, if there is one, is no member. */
  ghost predicate ListStops<L>(s: Syntax<L>, lines: seq<L>, to: nat, base: nat, ordered: bool)
    requires to <= |lines|
  {
    var j := NextText(s, lines, to);
    j < |lines| ==> !IsMember(s, lines[j], base, ordered)
  }

  /**
   The list that starts at `from` runs as far as members follow, over blank lines but not past
   the last member; every line in it that is not blank is one item's head or one item's
   child, in order.
   */
  ghost predicate IsList<L>(s: Syntax<L>, lines: seq<L>, from: nat, to: nat, raws: seq<RawItem<L>>) {
    from < to <= |lines| && s.item(lines[from]).Some?
    && var first := s.item(lines[from]).value;
    && raws != [] && RawsOk(s, raws, first.indent, first.ordered)
    && Flatten(raws) == NonBlank(s, lines[from..to])
    && !s.blank(lines[to - 1])
    && ListStops(s, lines, to, first.indent, first.ordered)
  }

  // ---------------------------------------------------------------- what the other blocks cover

  /** `c` is the first line after `i` at which a display with this delimiter closes. */
  ghost predicate MathCloses<L>(s: Syntax<L>, lines: seq<L>, i: nat, dollar: bool, c: nat) {
    i < c <= |lines|
    && (forall k :: i < k < c ==> s.mathClose(dollar, lines[k]).None?)
    && (c < |lines| ==> s.mathClose(dollar, lines[c]).Some?)
  }

  ghost predicate IsMath<L>(s: Syntax<L>, lines: seq<L>, i: nat, to: nat, parts: seq<L>) {
    i < |lines| && s.mathOpen(lines[i]).Some?
    && var (dollar, body) := s.mathOpen(lines[i]).value;
    match s.mathClose(dollar, body)
    case Some(inner) => to == i + 1 && parts == [inner]
    case None =>
      exists c: nat :: MathCloses(s, lines, i, dollar, c)
        && if c < |lines| then to == c + 1 && parts == [body] + lines[i + 1..c] + [s.mathClose(dollar, lines[c]).value]
           else to == c && parts == [body] + lines[i + 1..]
  }

  ghost predicate FenceCloses<L>(s: Syntax<L>, lines: seq<L>, i: nat, c: nat) {
    i < c <= |lines| && (forall k :: i < k < c ==> !s.fence(lines[k])) && (c < |lines| ==> s.fence(lines[c]))
  }

  ghost predicate IsFence<L>(s: Syntax<L>, lines: seq<L>, i: nat, to: nat, lang: L, code: seq<L>) {
    i < |lines| && s.fenceOpen(lines[i]) == Some(lang)
    && exists c: nat :: FenceCloses(s, lines, i, c) && code == lines[i + 1..c]
         && to == if c < |lines| then c + 1 else c
  }

  ghost predicate IsQuote<L>(s: Syntax<L>, lines: seq<L>, i: nat, to: nat, texts: seq<L>) {
    i < to <= |lines| && |texts| == to - i
    && (forall k :: i <= k < to ==> s.quote(lines[k]) == Some(texts[k - i]))
    && (to < |lines| ==> s.quote(lines[to]).None?)
  }

  predicate IsRow<L>(s: Syntax<L>, line: L) {
    s.pipe(line) && !s.blank(line)
  }

  /** A row as rendered: one cell for each header cell. */
  function Fit<L>(row: seq<L>, n: nat, nothing: L): (r: seq<L>)
    ensures |r| == n
  {
    seq(n, k => if 0 <= k < |row| then row[k] else nothing)
  }

  /** A long row loses what has no header, and a short one is filled up. */
  lemma RowFitted<L>(row: seq<L>, n: nat, nothing: L)
    ensures var r := Fit(row, n, nothing);
            if |row| >= n then r == row[..n] else r[..|row|] == row && forall k :: |row| <= k < n ==> r[k] == nothing
  {}

  ghost predicate IsTable<L>(s: Syntax<L>, lines: seq<L>, i: nat, to: nat, b: Block<L>) {
    i + 2 <= to <= |lines| && b.Table?
    && s.delimiter(lines[i + 1]) == Some(b.aligns) && b.header == s.cells(lines[i])
    && |b.rows| == to - i - 2
    && (forall k :: i + 2 <= k < to ==> IsRow(s, lines[k]) && b.rows[k - i - 2] == Fit(s.cells(lines[k]), |b.header|, s.nothing))
    && (to < |lines| ==> !IsRow(s, lines[to]))
  }

  predicate EndsParagraph<L>(s: Syntax<L>, lines: seq<L>, i: nat)
    requires i < |lines|
  {
    var line := lines[i];
    || s.blank(line) || s.fence(line) || s.mathLike(line) || s.headingLike(line)
    || s.item(line).Some? || s.quote(line).Some? || TableStart(s, lines, i)
  }

  ghost predicate IsParagraph<L>(s: Syntax<L>, lines: seq<L>, i: nat, to: nat, para: seq<L>) {
    i < to <= |lines| && para == lines[i..to]
    && (forall k :: i < k < to ==> !EndsParagraph(s, lines, k))
    && (to < |lines| ==> EndsParagraph(s, lines, to))
  }

  // ---------------------------------------------------------------- the grammar

  /** What lines from .. to became: a block, or nothing for a blank line. */
  datatype Piece<L> = Piece(from: nat, to: nat, block: Option<Block<L>>)

  /** The pieces cover the lines as consecutive intervals. */
  ghost predicate Tiles<L>(pieces: seq<Piece<L>>, n: nat) {
    && (forall k :: 0 <= k < |pieces| ==> pieces[k].from < pieces[k].to <= n)
    && (forall k :: 0 < k < |pieces| ==> pieces[k].from == pieces[k - 1].to)
    && (if pieces == [] then n == 0 else pieces[0].from == 0 && pieces[|pieces| - 1].to == n)
  }

  ghost function Shown<L>(pieces: seq<Piece<L>>): seq<Block<L>> {
    if pieces == [] then []
    else Shown(pieces[..|pieces| - 1])
         + (if pieces[|pieces| - 1].block.Some? then [pieces[|pieces| - 1].block.value] else [])
  }

  /** A block that stands by itself. */
  ghost predicate IsSimple<L>(s: Syntax<L>, lines: seq<L>, p: Piece<L>, kind: Kind) {
    p.from < p.to <= |lines|
    && match kind
       case MathKind => p.block.Some? && p.block.value.Math? && IsMath(s, lines, p.from, p.to, p.block.value.lines)
       case FenceKind =>
         p.block.Some? && p.block.value.Code? && IsFence(s, lines, p.from, p.to, p.block.value.lang, p.block.value.code)
       case RuleKind => p.to == p.from + 1 && p.block == Some(Rule)
       case HeadingKind => p.to == p.from + 1 && IsHeading(s, lines[p.from], p.block)
       case QuoteKind => p.block.Some? && p.block.value.Quote? && IsQuote(s, lines, p.from, p.to, p.block.value.texts)
       case TableKind => p.block.Some? && IsTable(s, lines, p.from, p.to, p.block.value)
       case BlankKind => p.to == p.from + 1 && p.block.None?
       case ParagraphKind =>
         p.block.Some? && p.block.value.Paragraph? && IsParagraph(s, lines, p.from, p.to, p.block.value.lines)
       case ListKind => false
  }

  ghost predicate IsHeading<L>(s: Syntax<L>, line: L, block: Option<Block<L>>) {
    block.Some? && block.value.Heading? && s.heading(line) == Some((block.value.level, block.value.text))
  }

  ghost predicate IsPiece<L(!new)>(s: Syntax<L>, lines: seq<L>, p: Piece<L>)
    decreases |lines|, 2
  {
    p.from < p.to <= |lines|
    && if KindAt(s, lines, p.from).ListKind?
       then p.block.Some? && p.block.value.List? && IsListBlock(s, lines, p.from, p.to, p.block.value)
       else IsSimple(s, lines, p, KindAt(s, lines, p.from))
  }

  ghost predicate IsListBlock<L(!new)>(s: Syntax<L>, lines: seq<L>, from: nat, to: nat, b: Block<L>)
    requires from < to <= |lines| && b.List?
    decreases |lines|, 1
  {
    exists raws :: IsList(s, lines, from, to, raws) && Announces(s, b, lines[from]) && AreItems(s, |lines|, raws, b.items)
  }

  ghost predicate Announces<L>(s: Syntax<L>, b: Block<L>, line: L) {
    var first := s.item(line);
    b.List? && first.Some? && b.ordered == first.value.ordered && b.first == first.value.num
  }

  ghost predicate AreItems<L(!new)>(s: Syntax<L>, bound: nat, raws: seq<RawItem<L>>, items: seq<Item<L>>)
    decreases bound, 0, 1
  {
    |items| == |raws| && forall k :: 0 <= k < |raws| ==> IsItem(s, bound, raws[k], items[k])
  }

  /** The children of an item are dedented and parsed in their turn. */
  ghost predicate IsItem<L(!new)>(s: Syntax<L>, bound: nat, raw: RawItem<L>, item: Item<L>)
    decreases bound, 0, 0
  {
    var head := s.item(raw.head);
    && head.Some? && item.head == head.value.content && item.task == head.value.task
    && if raw.children == [] then item.blocks == []
       else |raw.children| < bound && |s.dedent(raw.children)| < bound
            && IsDocument(s, s.dedent(raw.children), item.blocks)
  }

  ghost predicate IsDocument<L(!new)>(s: Syntax<L>, lines: seq<L>, blocks: seq<Block<L>>)
    decreases |lines|, 4
  {
    exists pieces :: Tiles(pieces, |lines|) && Shown(pieces) == blocks && ArePieces(s, lines, pieces)
  }

  ghost predicate ArePieces<L(!new)>(s: Syntax<L>, lines: seq<L>, pieces: seq<Piece<L>>)
    decreases |lines|, 3
  {
    forall k :: 0 <= k < |pieces| ==> IsPiece(s, lines, pieces[k])
  }
}
