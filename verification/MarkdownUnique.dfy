/** The grammar admits one output: whatever meets it is what the parser returns. */
module MarkdownUnique {
  import opened Prelude
  import opened Markdown

  // ---------------------------------------------------------------- simple blocks

  lemma MathUnique<L>(s: Syntax<L>, lines: seq<L>, i: nat, to: nat, parts: seq<L>, to': nat, parts': seq<L>)
    requires IsMath(s, lines, i, to, parts) && IsMath(s, lines, i, to', parts')
    ensures to == to' && parts == parts'
  {
    var (dollar, body) := s.mathOpen(lines[i]).value;
    if s.mathClose(dollar, body).None? {
      var c: nat :| MathCloses(s, lines, i, dollar, c)
        && if c < |lines| then to == c + 1 && parts == [body] + lines[i + 1..c] + [s.mathClose(dollar, lines[c]).value]
           else to == c && parts == [body] + lines[i + 1..];
      var d: nat :| MathCloses(s, lines, i, dollar, d)
        && if d < |lines| then to' == d + 1 && parts' == [body] + lines[i + 1..d] + [s.mathClose(dollar, lines[d]).value]
           else to' == d && parts' == [body] + lines[i + 1..];
      assert c == d;
    }
  }

  lemma FenceUnique<L>(s: Syntax<L>, lines: seq<L>, i: nat, to: nat, code: seq<L>, to': nat, code': seq<L>, lang: L, lang': L)
    requires IsFence(s, lines, i, to, lang, code) && IsFence(s, lines, i, to', lang', code')
    ensures to == to' && code == code' && lang == lang'
  {
    var c: nat :| FenceCloses(s, lines, i, c) && code == lines[i + 1..c] && to == if c < |lines| then c + 1 else c;
    var d: nat :| FenceCloses(s, lines, i, d) && code' == lines[i + 1..d] && to' == if d < |lines| then d + 1 else d;
    assert c == d;
  }

  lemma QuoteUnique<L>(s: Syntax<L>, lines: seq<L>, i: nat, to: nat, texts: seq<L>, to': nat, texts': seq<L>)
    requires IsQuote(s, lines, i, to, texts) && IsQuote(s, lines, i, to', texts')
    ensures to == to' && texts == texts'
  {
    assert to == to';
    forall k | 0 <= k < |texts| ensures texts[k] == texts'[k] {
      assert s.quote(lines[i + k]) == Some(texts[i + k - i]) && s.quote(lines[i + k]) == Some(texts'[i + k - i]);
    }
  }

  lemma TableUnique<L>(s: Syntax<L>, lines: seq<L>, i: nat, to: nat, b: Block<L>, to': nat, b': Block<L>)
    requires IsTable(s, lines, i, to, b) && IsTable(s, lines, i, to', b')
    ensures to == to' && b == b'
  {
    assert to == to';
    forall k | 0 <= k < |b.rows| ensures b.rows[k] == b'.rows[k] {
      assert IsRow(s, lines[i + 2 + k]) && i + 2 + k - i - 2 == k;
    }
    assert b.rows == b'.rows;
  }

  lemma SimpleUnique<L>(s: Syntax<L>, lines: seq<L>, p: Piece<L>, q: Piece<L>, kind: Kind)
    requires IsSimple(s, lines, p, kind) && IsSimple(s, lines, q, kind) && p.from == q.from
    ensures p == q
  {
    match kind
    case MathKind =>
      MathUnique(s, lines, p.from, p.to, p.block.value.lines, q.to, q.block.value.lines);
    case FenceKind =>
      FenceUnique(s, lines, p.from, p.to, p.block.value.code, q.to, q.block.value.code,
                  p.block.value.lang, q.block.value.lang);
    case QuoteKind =>
      QuoteUnique(s, lines, p.from, p.to, p.block.value.texts, q.to, q.block.value.texts);
    case TableKind =>
      TableUnique(s, lines, p.from, p.to, p.block.value, q.to, q.block.value);
    case ParagraphKind =>
      assert p.to == q.to;
    case _ =>
  }

  // ---------------------------------------------------------------- lists

  lemma {:induction false} NonBlankMember<L>(s: Syntax<L>, lines: seq<L>, k: nat)
    requires k < |lines| && !s.blank(lines[k])
    ensures lines[k] in NonBlank(s, lines)
  {
    if k < |lines| - 1 { NonBlankMember(s, lines[..|lines| - 1], k); }
  }

  lemma {:induction false} FlattenMember<L>(s: Syntax<L>, raws: seq<RawItem<L>>, base: nat, ordered: bool, line: L)
    requires RawsOk(s, raws, base, ordered) && line in Flatten(raws)
    ensures IsMember(s, line, base, ordered)
  {
    var n := |raws| - 1;
    assert RawOk(s, raws[n], base, ordered);
    if line in Flatten(raws[..n]) { FlattenMember(s, raws[..n], base, ordered, line); }
  }

  /** Inside a list, only blank lines are no members. */
  lemma InsideIsMember<L>(s: Syntax<L>, lines: seq<L>, from: nat, to: nat, raws: seq<RawItem<L>>, k: nat)
    requires IsList(s, lines, from, to, raws) && from <= k < to && !s.blank(lines[k])
    ensures IsMember(s, lines[k], s.item(lines[from]).value.indent, s.item(lines[from]).value.ordered)
  {
    NonBlankMember(s, lines[from..to], k - from);
    FlattenMember(s, raws, s.item(lines[from]).value.indent, s.item(lines[from]).value.ordered, lines[k]);
  }

  /** How far a list runs, without its items. */
  ghost predicate Extends<L>(s: Syntax<L>, lines: seq<L>, from: nat, to: nat, base: nat, ordered: bool) {
    && from < to <= |lines| && !s.blank(lines[to - 1]) && ListStops(s, lines, to, base, ordered)
    && forall k :: from <= k < to && !s.blank(lines[k]) ==> IsMember(s, lines[k], base, ordered)
  }

  lemma ListExtends<L>(s: Syntax<L>, lines: seq<L>, from: nat, to: nat, raws: seq<RawItem<L>>)
    requires IsList(s, lines, from, to, raws)
    ensures Extends(s, lines, from, to, s.item(lines[from]).value.indent, s.item(lines[from]).value.ordered)
  {
    var first := s.item(lines[from]).value;
    forall k | from <= k < to && !s.blank(lines[k]) ensures IsMember(s, lines[k], first.indent, first.ordered) {
      InsideIsMember(s, lines, from, to, raws, k);
    }
  }

  lemma ExtendsNoFurther<L>(s: Syntax<L>, lines: seq<L>, from: nat, to: nat, to': nat, base: nat, ordered: bool)
    requires Extends(s, lines, from, to, base, ordered) && Extends(s, lines, from, to', base, ordered)
    ensures to' <= to
  {
    var j := NextText(s, lines, to);
  }

  lemma ListEndsBefore<L>(s: Syntax<L>, lines: seq<L>, from: nat, to: nat, raws: seq<RawItem<L>>, to': nat, raws': seq<RawItem<L>>)
    requires IsList(s, lines, from, to, raws) && IsList(s, lines, from, to', raws')
    ensures to' <= to
  {
    var first := s.item(lines[from]).value;
    ListExtends(s, lines, from, to, raws);
    ListExtends(s, lines, from, to', raws');
    ExtendsNoFurther(s, lines, from, to, to', first.indent, first.ordered);
  }

  /** A list of lines falls into heads and children in one way. */
  lemma {:induction false} RawsUnique<L(!new)>(s: Syntax<L>, raws: seq<RawItem<L>>, raws': seq<RawItem<L>>, base: nat, ordered: bool)
    requires Coherent(s) && RawsOk(s, raws, base, ordered) && RawsOk(s, raws', base, ordered)
    requires Flatten(raws) == Flatten(raws')
    ensures raws == raws'
    decreases |raws|
  {
    if raws != [] && raws' != [] {
      var n, m := |raws| - 1, |raws'| - 1;
      LastItems(s, raws, raws', base, ordered);
      RawsUnique(s, raws[..n], raws'[..m], base, ordered);
      SameEnds(raws, raws');
    }
  }

  lemma LastItems<L(!new)>(s: Syntax<L>, raws: seq<RawItem<L>>, raws': seq<RawItem<L>>, base: nat, ordered: bool)
    requires Coherent(s) && RawsOk(s, raws, base, ordered) && RawsOk(s, raws', base, ordered)
    requires raws != [] && raws' != [] && Flatten(raws) == Flatten(raws')
    ensures raws[|raws| - 1] == raws'[|raws'| - 1]
    ensures Flatten(raws[..|raws| - 1]) == Flatten(raws'[..|raws'| - 1])
  {
    var n, m := |raws| - 1, |raws'| - 1;
    assert RawOk(s, raws[n], base, ordered) && RawOk(s, raws'[m], base, ordered);
    LastItemUnique(s, Flatten(raws[..n]), raws[n], Flatten(raws'[..m]), raws'[m], base, ordered);
  }

  lemma SameEnds<T>(a: seq<T>, b: seq<T>)
    requires a != [] && b != [] && a[..|a| - 1] == b[..|b| - 1] && a[|a| - 1] == b[|b| - 1]
    ensures a == b
  {
    assert a == a[..|a| - 1] + [a[|a| - 1]] && b == b[..|b| - 1] + [b[|b| - 1]];
  }

  lemma LastItemUnique<L(!new)>(s: Syntax<L>, f: seq<L>, r: RawItem<L>, f': seq<L>, r': RawItem<L>, base: nat, ordered: bool)
    requires Coherent(s) && RawOk(s, r, base, ordered) && RawOk(s, r', base, ordered)
    requires f + [r.head] + r.children == f' + [r'.head] + r'.children
    ensures f == f' && r == r'
  {
    LastNotShorter(s, f, r, f', r', base, ordered);
    LastNotShorter(s, f', r', f, r, base, ordered);
    var all := f + [r.head] + r.children;
    assert f == all[..|f|] && f' == all[..|f|];
    assert r.children == all[|f| + 1..] && r'.children == all[|f| + 1..];
    assert r.head == all[|f|] && r'.head == all[|f|];
  }

  lemma LastNotShorter<L(!new)>(s: Syntax<L>, f: seq<L>, r: RawItem<L>, f': seq<L>, r': RawItem<L>, base: nat, ordered: bool)
    requires Coherent(s) && RawOk(s, r, base, ordered) && RawOk(s, r', base, ordered)
    requires f + [r.head] + r.children == f' + [r'.head] + r'.children
    ensures |f| >= |f'|
  {
    var all := f + [r.head] + r.children;
    assert all == f' + [r'.head] + r'.children;
    assert all[|f'|] == r'.head;
  }

  // ---------------------------------------------------------------- documents

  lemma ListUnique<L(!new)>(s: Syntax<L>, lines: seq<L>, from: nat, to: nat, b: Block<L>, to': nat, b': Block<L>)
    requires Coherent(s) && from < to <= |lines| && from < to' <= |lines| && b.List? && b'.List?
    requires IsListBlock(s, lines, from, to, b) && IsListBlock(s, lines, from, to', b')
    ensures to == to' && b == b'
    decreases |lines|, 1
  {
    var raws :| IsList(s, lines, from, to, raws) && Announces(s, b, lines[from]) && AreItems(s, |lines|, raws, b.items);
    var raws' :| IsList(s, lines, from, to', raws') && Announces(s, b', lines[from]) && AreItems(s, |lines|, raws', b'.items);
    ListEndsBefore(s, lines, from, to, raws, to', raws');
    ListEndsBefore(s, lines, from, to', raws', to, raws);
    var first := s.item(lines[from]).value;
    RawsUnique(s, raws, raws', first.indent, first.ordered);
    forall k | 0 <= k < |raws| ensures b.items[k] == b'.items[k] {
      ItemUnique(s, |lines|, raws[k], b.items[k], b'.items[k]);
    }
    assert b.items == b'.items;
  }

  lemma ItemUnique<L(!new)>(s: Syntax<L>, bound: nat, raw: RawItem<L>, item: Item<L>, item': Item<L>)
    requires Coherent(s) && IsItem(s, bound, raw, item) && IsItem(s, bound, raw, item')
    ensures item == item'
    decreases bound, 0
  {
    if raw.children != [] { DocumentUnique(s, s.dedent(raw.children), item.blocks, item'.blocks); }
  }

  lemma PieceUnique<L(!new)>(s: Syntax<L>, lines: seq<L>, p: Piece<L>, q: Piece<L>)
    requires Coherent(s) && IsPiece(s, lines, p) && IsPiece(s, lines, q) && p.from == q.from
    ensures p == q
    decreases |lines|, 2
  {
    var kind := KindAt(s, lines, p.from);
    if kind.ListKind? {
      ListUnique(s, lines, p.from, p.to, p.block.value, q.to, q.block.value);
    } else {
      SimpleUnique(s, lines, p, q, kind);
    }
  }

  lemma {:induction false} TilesAgree<L(!new)>(s: Syntax<L>, lines: seq<L>, ps: seq<Piece<L>>, qs: seq<Piece<L>>, k: nat)
    requires Coherent(s) && ArePieces(s, lines, ps) && ArePieces(s, lines, qs)
    requires Tiles(ps, |lines|) && Tiles(qs, |lines|) && k < |ps|
    ensures k < |qs| && ps[k] == qs[k]
    decreases |lines|, 3, k
  {
    if k > 0 { TilesAgree(s, lines, ps, qs, k - 1); }
    TileFollows(ps, qs, |lines|, k);
    PieceUnique(s, lines, ps[k], qs[k]);
  }

  lemma TileFollows<L>(ps: seq<Piece<L>>, qs: seq<Piece<L>>, n: nat, k: nat)
    requires Tiles(ps, n) && Tiles(qs, n) && k < |ps|
    requires k > 0 ==> k - 1 < |qs| && ps[k - 1].to == qs[k - 1].to
    ensures k < |qs| && ps[k].from == qs[k].from
  {
    if k > 0 { assert ps[k - 1].to == ps[k].from < ps[k].to <= n; }
  }

  lemma TilesPrefix<L(!new)>(s: Syntax<L>, lines: seq<L>, ps: seq<Piece<L>>, qs: seq<Piece<L>>)
    requires Coherent(s) && ArePieces(s, lines, ps) && ArePieces(s, lines, qs)
    requires Tiles(ps, |lines|) && Tiles(qs, |lines|)
    ensures |ps| <= |qs| && ps == qs[..|ps|]
    decreases |lines|, 4, 0
  {
    forall k | 0 <= k < |ps| ensures k < |qs| && ps[k] == qs[k] {
      TilesAgree(s, lines, ps, qs, k);
    }
    if ps != [] { TilesAgree(s, lines, ps, qs, |ps| - 1); }
  }

  /** A document has one parse. */
  lemma DocumentUnique<L(!new)>(s: Syntax<L>, lines: seq<L>, blocks: seq<Block<L>>, blocks': seq<Block<L>>)
    requires Coherent(s) && IsDocument(s, lines, blocks) && IsDocument(s, lines, blocks')
    ensures blocks == blocks'
    decreases |lines|, 5
  {
    var ps :| Tiles(ps, |lines|) && Shown(ps) == blocks && ArePieces(s, lines, ps);
    var qs :| Tiles(qs, |lines|) && Shown(qs) == blocks' && ArePieces(s, lines, qs);
    TilesPrefix(s, lines, ps, qs);
    TilesPrefix(s, lines, qs, ps);
    assert qs == qs[..|ps|];
  }
}
