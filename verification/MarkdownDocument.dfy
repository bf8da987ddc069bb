/** The parser on real lines: the source text is split, and children are dedented. */
module MarkdownDocument {
  import opened Prelude
  import opened Markdown
  import opened MarkdownLines
  import opened Text
  import opened MarkdownSource
  import opened MarkdownUnique
  import MarkdownParser

  /** Any line patterns, with the concrete notions of blank line, indentation and list item. */
  function LineSyntax(patterns: Syntax<string>): Syntax<string> {
    patterns.(blank := Blank, indent := Indent, item := ParseListItem, dedent := DedentOf)
  }

  lemma LineSyntaxCoherent(patterns: Syntax<string>)
    ensures Coherent(LineSyntax(patterns))
  {
    var s := LineSyntax(patterns);
    forall line | s.item(line).Some? ensures !s.blank(line) && s.item(line).value.indent == s.indent(line) {
      ItemIndent(line);
    }
  }

  // ---------------------------------------------------------------- the document of a text

  /** Any text is parsed, in finitely many steps, to the one document that the grammar gives its lines. */
  method RenderMarkdown(patterns: Syntax<string>, src: string) returns (blocks: seq<Block<string>>)
    ensures exists lines :: HasLines(src, lines) && IsDocument(LineSyntax(patterns), lines, blocks)
    ensures forall lines, other :: HasLines(src, lines) && IsDocument(LineSyntax(patterns), lines, other) ==> other == blocks
  {
    LineSyntaxCoherent(patterns);
    var lines := Split(Normalized(src));
    blocks := MarkdownParser.RenderBlocks(LineSyntax(patterns), lines);
    LinesOfSource(src, lines);
    forall l, other | HasLines(src, l) && IsDocument(LineSyntax(patterns), l, other) ensures other == blocks {
      LinesOfSource(src, l);
      DocumentUnique(LineSyntax(patterns), lines, blocks, other);
    }
  }

  // ---------------------------------------------------------------- dedenting keeps the structure

  lemma {:induction false} ExpandHasNoTab(s: string)
    ensures '\t' !in Expand(s)
  {
    if s != "" { ExpandHasNoTab(s[1..]); }
  }

  lemma {:induction false} ExpandOneLine(s: string)
    ensures OneLine(Expand(s)) <==> OneLine(s)
  {
    if s != "" {
      ExpandOneLine(s[1..]);
      var head := if s[0] == '\t' then "    " else [s[0]];
      assert OneLine(s) <==> !EndsLine(s[0]) && OneLine(s[1..]) by {
        assert forall i :: 0 < i < |s| ==> s[i] == s[1..][i - 1];
        assert forall i :: 0 <= i < |s| - 1 ==> s[1..][i] == s[i + 1];
      }
      OneLineAppend(head, Expand(s[1..]));
    }
  }

  lemma OneLineAppend(s: string, t: string)
    ensures OneLine(s + t) <==> OneLine(s) && OneLine(t)
  {
    assert forall i :: 0 <= i < |s| ==> (s + t)[i] == s[i];
    assert forall i :: 0 <= i < |t| ==> (s + t)[|s| + i] == t[i];
  }

  /** Leading white space and the rest expand separately. */
  lemma ExpandLeading(s: string)
    ensures var n := Leading(s);
            && Leading(Expand(s)) == |Expand(s[..n])|
            && Expand(s) == Expand(s[..n]) + Expand(s[n..])
            && Expand(s)[Leading(Expand(s))..] == Expand(s[n..])
            && (Leading(Expand(s)) == 0 <==> n == 0)
  {
    var n := Leading(s);
    assert s == s[..n] + s[n..];
    ExpandAppend(s[..n], s[n..]);
    IndentTwoWays(s);
  }

  lemma {:induction false} ExpandPrefix(s: string, n: nat)
    requires n <= |s| && forall i :: 0 <= i < n ==> s[i] != '\t'
    ensures Expand(s) == s[..n] + Expand(s[n..])
  {
    if n == 0 {
      assert s[0..] == s;
    } else {
      ExpandPrefix(s[1..], n - 1);
      assert s[..n] == [s[0]] + s[1..][..n - 1];
      assert s[1..][n - 1..] == s[n..];
    }
  }

  /** Up to the first tab, and at it, expansion keeps every position. */
  lemma ExpandAt(s: string, n: nat)
    requires n < |s| && forall i :: 0 <= i < n ==> s[i] != '\t'
    ensures Expand(s)[n] == (if s[n] == '\t' then ' ' else s[n])
  {
    ExpandPrefix(s, n);
    assert Expand(s[n..])[0] == (if s[n] == '\t' then ' ' else s[n]);
  }

  lemma ExpandDigits(s: string)
    ensures Digits(Expand(s)) == Digits(s)
  {
    var d := Digits(s);
    ExpandPrefix(s, d);
    if d < |s| { ExpandAt(s, d); } else { assert s[d..] == ""; }
  }

  lemma MarkerHasNoTab(s: string)
    ensures forall i :: 0 <= i < Marker(s) ==> s[i] != '\t'
  {
  }

  lemma ExpandKeepsNumberMarker(s: string, d: nat)
    requires d <= |s| && forall i :: 0 <= i < d ==> s[i] != '\t'
    ensures NumberMarker(Expand(s), d) == NumberMarker(s, d)
  {
    if d < |s| {
      ExpandAt(s, d);
    } else {
      ExpandPrefix(s, d);
      assert s[d..] == "";
    }
  }

  lemma ExpandKeepsMarker(s: string)
    requires s != "" ==> !IsSpace(s[0])
    ensures Marker(Expand(s)) == Marker(s)
  {
    if s != "" {
      ExpandAt(s, 0);
      ExpandDigits(s);
      ExpandKeepsNumberMarker(s, Digits(s));
    }
  }

  /** The shape that every task box has. */
  predicate BoxShaped(s: string) {
    |s| >= 3 && s[0] == '[' && s[1] != '\t' && s[2] == ']'
  }

  lemma NoBox(s: string)
    requires !BoxShaped(s)
    ensures TaskBox(s) == 0 && s[TaskBox(s)..] == s
  {
  }

  lemma ExpandShape(s: string)
    requires s != "" ==> !IsSpace(s[0])
    ensures BoxShaped(Expand(s)) <==> BoxShaped(s)
  {
    if |s| == 0 { return; }
    ExpandAt(s, 0);
    if |s| == 1 {
      ExpandPrefix(s, 1);
    } else if s[1] == '\t' {
      ExpandPrefix(s, 1);
      assert Expand(s)[2] == Expand(s[1..])[1];
    } else if |s| == 2 {
      ExpandPrefix(s, 2);
    } else {
      ExpandAt(s, 1);
      ExpandAt(s, 2);
      ExpandPrefix(s, 2);
      assert |Expand(s)| == 2 + |Expand(s[2..])|;
    }
  }

  lemma ExpandKeepsTask(s: string)
    requires s != "" ==> !IsSpace(s[0])
    ensures TaskBox(Expand(s)) > 0 <==> TaskBox(s) > 0
    ensures TaskBox(s) > 0 ==> Expand(s)[1] == s[1]
    ensures Expand(s)[TaskBox(Expand(s))..] == Expand(s[TaskBox(s)..])
  {
    ExpandShape(s);
    if BoxShaped(s) {
      ExpandBoxed(s);
    } else {
      NoBox(s);
      NoBox(Expand(s));
    }
  }

  lemma ExpandBoxed(s: string)
    requires BoxShaped(s)
    ensures TaskBox(Expand(s)) > 0 <==> TaskBox(s) > 0
    ensures |Expand(s)| >= 3 && Expand(s)[1] == s[1]
    ensures Expand(s)[TaskBox(Expand(s))..] == Expand(s[TaskBox(s)..])
  {
    ExpandPrefix(s, 3);
    ExpandLeading(s[3..]);
    BoxOf(s, Expand(s), s[3..], Expand(s[3..]));
  }

  lemma BoxOf(s: string, t: string, rest: string, rest': string)
    requires |s| >= 3 && s == s[..3] + rest && t == s[..3] + rest'
    requires Leading(rest) == 0 <==> Leading(rest') == 0
    requires rest'[Leading(rest')..] == Expand(rest[Leading(rest)..])
    requires t == Expand(s)
    ensures TaskBox(t) > 0 <==> TaskBox(s) > 0
    ensures t[1] == s[1] && t[TaskBox(t)..] == Expand(s[TaskBox(s)..])
  {
    assert s[3..] == rest && t[3..] == rest';
    BoxRest(s);
    BoxRest(t);
  }

  lemma BoxRest(s: string)
    requires |s| >= 3
    ensures TaskBox(s) > 0 ==> s[TaskBox(s)..] == s[3..][Leading(s[3..])..]
    ensures TaskBox(s) == 0 ==> s[TaskBox(s)..] == s
  {
  }

  lemma ExpandKeepsText(num: Option<nat>, content: string, indent: nat, indent': nat)
    requires content != "" ==> !IsSpace(content[0])
    ensures ItemText(num, Expand(content), indent').Some? <==> ItemText(num, content, indent).Some?
    ensures ItemText(num, content, indent).Some? ==>
              var item := ItemText(num, content, indent).value;
              ItemText(num, Expand(content), indent').value == item.(indent := indent', content := Expand(item.content))
  {
    ExpandOneLine(content);
    ExpandKeepsTask(content);
  }

  lemma ExpandKeepsBody(num: Option<nat>, after: string, indent: nat, indent': nat)
    ensures ItemBody(num, Expand(after), indent').Some? <==> ItemBody(num, after, indent).Some?
    ensures ItemBody(num, after, indent).Some? ==>
              var item := ItemBody(num, after, indent).value;
              ItemBody(num, Expand(after), indent').value == item.(indent := indent', content := Expand(item.content))
  {
    ExpandLeading(after);
    ExpandKeepsText(num, after[Leading(after)..], indent, indent');
  }

  lemma ExpandKeepsNumber(rest: string)
    ensures Number(Expand(rest)) == Number(rest)
  {
    ExpandDigits(rest);
    ExpandPrefix(rest, Digits(rest));
    assert Expand(rest)[..Digits(rest)] == rest[..Digits(rest)];
  }

  /** Expanding the text of an item changes nothing but the tabs in its content. */
  lemma ExpandKeepsItem(rest: string, indent: nat, indent': nat)
    requires rest != "" ==> !IsSpace(rest[0])
    ensures ItemAt(Expand(rest), indent').Some? <==> ItemAt(rest, indent).Some?
    ensures ItemAt(rest, indent).Some? ==>
              var item := ItemAt(rest, indent).value;
              ItemAt(Expand(rest), indent').value == item.(indent := indent', content := Expand(item.content))
  {
    ExpandKeepsMarker(rest);
    var m := Marker(rest);
    if m > 0 {
      MarkerHasNoTab(rest);
      ExpandPrefix(rest, m);
      assert Expand(rest)[m..] == Expand(rest[m..]);
      ExpandKeepsNumber(rest);
      ExpandKeepsBody(Number(rest), rest[m..], indent, indent');
    }
  }

  /** A line that starts with spaces only is read by its text and their number. */
  lemma ReadsFrom(left: string, text: string)
    requires forall i :: 0 <= i < |left| ==> IsSpace(left[i]) && left[i] != '\t'
    requires text != "" ==> !IsSpace(text[0])
    ensures ParseListItem(left + text) == ItemAt(text, |left|)
  {
    LeadingOfSpaces(left, text);
    SpacesExpand(left);
    assert (left + text)[..|left|] == left && (left + text)[|left|..] == text;
  }

  lemma SpacesExpand(s: string)
    requires forall i :: 0 <= i < |s| ==> s[i] != '\t'
    ensures Expand(s) == s
  {
    ExpandPrefix(s, |s|);
    assert s[|s|..] == "" && s[..|s|] == s;
  }

  lemma DropParts(wide: string, text: string, m: nat)
    requires m <= |wide|
    ensures Drop(wide + text, m) == wide[m..] + text
  {
  }

  lemma MovedReads(wide: string, text: string, m: nat)
    requires m <= |wide| && forall i :: 0 <= i < |wide| ==> IsSpace(wide[i]) && wide[i] != '\t'
    requires text != "" ==> !IsSpace(text[0])
    ensures ParseListItem(Drop(wide + text, m)) == ItemAt(text, |wide| - m)
  {
    DropParts(wide, text, m);
    ReadsFrom(wide[m..], text);
  }

  /** An expanded line: its indentation, which is white space without tabs, and its text. */
  lemma LineParts(line: string) returns (wide: string, rest: string)
    ensures Expand(line) == wide + Expand(rest) && |wide| == Indent(line)
    ensures forall i :: 0 <= i < |wide| ==> IsSpace(wide[i]) && wide[i] != '\t'
    ensures rest != "" ==> !IsSpace(rest[0])
    ensures ParseListItem(line) == ItemAt(rest, |wide|)
  {
    var n := Leading(line);
    wide, rest := Expand(line[..n]), line[n..];
    ExpandLeading(line);
    ExpandSpaces(line[..n]);
    ExpandHasNoTab(line[..n]);
  }

  lemma TextStarts(s: string)
    requires s != "" ==> !IsSpace(s[0])
    ensures Expand(s) != "" ==> !IsSpace(Expand(s)[0])
  {
    if s != "" { ExpandAt(s, 0); }
  }

  /** The same item, m columns to the left, with the tabs of its content expanded. */
  predicate IsMoved(item: Option<ListLine<string>>, moved: Option<ListLine<string>>, m: nat) {
    && (moved.Some? <==> item.Some?)
    && (item.Some? ==> m <= item.value.indent && moved.value == ShiftedItem(item.value, m))
  }

  function ShiftedItem(item: ListLine<string>, m: nat): ListLine<string>
    requires m <= item.indent
  {
    item.(indent := item.indent - m, content := Expand(item.content))
  }

  lemma ItemMoves(rest: string, indent: nat, m: nat)
    requires m <= indent && (rest != "" ==> !IsSpace(rest[0]))
    ensures IsMoved(ItemAt(rest, indent), ItemAt(Expand(rest), indent - m), m)
  {
    ExpandKeepsItem(rest, indent, indent - m);
  }

  lemma PartsMove(wide: string, rest: string, m: nat)
    requires m <= |wide| && forall i :: 0 <= i < |wide| ==> IsSpace(wide[i]) && wide[i] != '\t'
    requires rest != "" ==> !IsSpace(rest[0])
    ensures IsMoved(ItemAt(rest, |wide|), ParseListItem(Drop(wide + Expand(rest), m)), m)
  {
    TextStarts(rest);
    MovedReads(wide, Expand(rest), m);
    ItemMoves(rest, |wide|, m);
  }

  /**
   Dedenting keeps what a line is: an item stays an item, with the same marker, number and
   task box, at a column smaller by the shift.
   */
  lemma DedentKeepsItem(line: string, m: nat)
    requires m <= Indent(line)
    ensures IsMoved(ParseListItem(line), ParseListItem(Drop(Expand(line), m)), m)
  {
    var wide, rest := LineParts(line);
    PartsMove(wide, rest, m);
  }

  lemma IndentFrom(left: string, text: string)
    requires forall i :: 0 <= i < |left| ==> IsSpace(left[i]) && left[i] != '\t'
    requires forall i :: 0 <= i < |text| ==> text[i] != '\t'
    requires text != "" ==> !IsSpace(text[0])
    ensures Indent(left + text) == |left|
  {
    SpacesExpand(left + text);
    LeadingOfSpaces(left, text);
  }

  lemma MovedIndent(wide: string, text: string, m: nat)
    requires m <= |wide| && forall i :: 0 <= i < |wide| ==> IsSpace(wide[i]) && wide[i] != '\t'
    requires forall i :: 0 <= i < |text| ==> text[i] != '\t'
    requires text != "" ==> !IsSpace(text[0])
    ensures Indent(Drop(wide + text, m)) == |wide| - m
  {
    DropParts(wide, text, m);
    IndentFrom(wide[m..], text);
  }

  lemma DedentMoves(line: string, m: nat)
    requires m <= Indent(line)
    ensures Indent(Drop(Expand(line), m)) == Indent(line) - m
  {
    var wide, rest := LineParts(line);
    TextStarts(rest);
    ExpandHasNoTab(rest);
    MovedIndent(wide, Expand(rest), m);
  }

  lemma DedentMovesLine(lines: seq<string>, k: nat)
    requires k < |lines| && !Blank(lines[k])
    ensures var m := LeastIndentOf(lines);
            m.Some? && m.value <= Indent(lines[k]) && Indent(DedentOf(lines)[k]) == Indent(lines[k]) - m.value
  {
    var m := LeastIndentOf(lines).value;
    if m > 0 { DedentMoves(lines[k], m); }
  }

  /** Dedenting shifts every line by the same number of columns, and some line all the way. */
  lemma DedentToMargin(lines: seq<string>) returns (k: nat)
    requires exists i :: 0 <= i < |lines| && !Blank(lines[i])
    ensures k < |lines| && !Blank(lines[k]) && Indent(DedentOf(lines)[k]) == 0
  {
    var m := LeastIndentOf(lines);
    k :| 0 <= k < |lines| && !Blank(lines[k]) && m.value == Indent(lines[k]);
    DedentMovesLine(lines, k);
  }
}
