/**
 Lines of a Markdown document: white space, indentation, list markers, and dedenting.
 A line is a text without line feeds.
 */
module MarkdownLines {
  import opened Prelude
  import opened Markdown
  import opened Text

  const TAB_WIDTH := 4

  /** The characters that the dot of a regular expression does not match. */
  predicate EndsLine(c: char) {
    c == '\n' || c == '\r' || c == '\U{2028}' || c == '\U{2029}'
  }

  predicate OneLine(s: string) {
    forall i :: 0 <= i < |s| ==> !EndsLine(s[i])
  }

  predicate Blank(s: string) {
    Leading(s) == |s|
  }

  function Expand(s: string): (r: string)
    ensures |s| <= |r|
  {
    if s == "" then "" else (if s[0] == '\t' then "    " else [s[0]]) + Expand(s[1..])
  }

  /** The column of the first character that is not white space. */
  function Indent(s: string): nat {
    Leading(Expand(s))
  }

  function DigitsEnd(s: string, i: nat): (n: nat)
    requires i <= |s|
    ensures i <= n <= |s| && forall k :: i <= k < n ==> IsDigit(s[k])
    ensures n < |s| ==> !IsDigit(s[n])
    decreases |s| - i
  {
    if i == |s| || !IsDigit(s[i]) then i else DigitsEnd(s, i + 1)
  }

  /** The length of the leading run of digits. */
  function Digits(s: string): (n: nat)
    ensures n <= |s| && forall i :: 0 <= i < n ==> IsDigit(s[i])
    ensures n < |s| ==> !IsDigit(s[n])
  {
    DigitsEnd(s, 0)
  }

  function ParseInt(s: string): nat
    requires forall i :: 0 <= i < |s| ==> IsDigit(s[i])
  {
    if s == "" then 0
    else
      assert IsDigit(s[|s| - 1]);
      ParseInt(s[..|s| - 1]) * 10 + (s[|s| - 1] as int - '0' as int)
  }

  /** The length of a list marker at the start of `s`; 0 when there is none. */
  function Marker(s: string): (n: nat)
    ensures n <= |s|
  {
    if s == "" then 0
    else if s[0] == '-' || s[0] == '*' || s[0] == '+' then 1
    else NumberMarker(s, Digits(s))
  }

  function NumberMarker(s: string, d: nat): (n: nat)
    ensures n <= |s|
  {
    if 0 < d < |s| && (s[d] == '.' || s[d] == ')') then d + 1 else 0
  }

  /** Indentation, marker, white space, and the rest; a task box may start the rest. */
  function ParseListItem(line: string): (r: Option<ListLine<string>>)
    ensures r.Some? ==> !Blank(line)
  {
    var lead := Leading(line);
    ItemAt(line[lead..], |Expand(line[..lead])|)
  }

  function ItemAt(rest: string, indent: nat): (r: Option<ListLine<string>>)
    ensures r.Some? ==> rest != ""
  {
    var m := Marker(rest);
    if m == 0 then None else ItemBody(Number(rest), rest[m..], indent)
  }

  /** The number of an ordered item. */
  function Number(rest: string): Option<nat> {
    if Digits(rest) > 0 then Some(ParseInt(rest[..Digits(rest)])) else None
  }

  /** What follows the marker: white space, then the content. */
  function ItemBody(num: Option<nat>, after: string, indent: nat): Option<ListLine<string>> {
    var gap := Leading(after);
    if gap == 0 then None else ItemText(num, after[gap..], indent)
  }

  function ItemText(num: Option<nat>, content: string, indent: nat): Option<ListLine<string>> {
    if !OneLine(content) then None
    else
      var box := TaskBox(content);
      var task := if box > 0 then Some(content[1] == 'x' || content[1] == 'X') else None;
      Some(ListLine(indent, num.Some?, num, task, content[box..]))
  }

  /** The length of a task box with the white space after it; 0 when there is none. */
  function TaskBox(s: string): (n: nat)
    ensures n <= |s| && (n > 0 ==> n > 3)
  {
    if |s| > 3 && s[0] == '[' && (s[1] == ' ' || s[1] == 'x' || s[1] == 'X') && s[2] == ']' then
      var gap := Leading(s[3..]);
      if gap == 0 then 0 else 3 + gap
    else 0
  }

  // ---------------------------------------------------------------- indentation

  lemma {:induction false} ExpandAppend(s: string, t: string)
    ensures Expand(s + t) == Expand(s) + Expand(t)
  {
    if s == "" {
      assert s + t == t;
    } else {
      assert (s + t)[1..] == s[1..] + t;
      ExpandAppend(s[1..], t);
    }
  }

  lemma LeadingOfSpaces(s: string, t: string)
    requires forall i :: 0 <= i < |s| ==> IsSpace(s[i])
    ensures Leading(s + t) == |s| + Leading(t)
  {
    var n, m := Leading(s + t), Leading(t);
    assert forall i :: 0 <= i < |s| ==> (s + t)[i] == s[i];
    assert forall i :: 0 <= i < |t| ==> (s + t)[|s| + i] == t[i];
  }

  lemma {:induction false} ExpandSpaces(s: string)
    requires forall i :: 0 <= i < |s| ==> IsSpace(s[i])
    ensures forall i :: 0 <= i < |Expand(s)| ==> IsSpace(Expand(s)[i])
  {
    if s != "" { ExpandSpaces(s[1..]); }
  }

  /** The two ways the parser measures indentation agree. */
  lemma IndentTwoWays(line: string)
    ensures Indent(line) == |Expand(line[..Leading(line)])|
    ensures Blank(line) <==> Blank(Expand(line))
  {
    var n := Leading(line);
    assert line == line[..n] + line[n..];
    ExpandAppend(line[..n], line[n..]);
    ExpandSpaces(line[..n]);
    LeadingOfSpaces(Expand(line[..n]), Expand(line[n..]));
    if n < |line| {
      assert Expand(line[n..])[0] == line[n];
    }
  }

  lemma ItemIndent(line: string)
    requires ParseListItem(line).Some?
    ensures ParseListItem(line).value.indent == Indent(line)
  {
    IndentTwoWays(line);
  }

  // ---------------------------------------------------------------- dedenting

  /** The least column at which a line that is not blank starts; None without such a line. */
  ghost predicate IsLeastIndent(lines: seq<string>, m: Option<nat>) {
    && (m.None? <==> forall k :: 0 <= k < |lines| ==> Blank(lines[k]))
    && (m.Some? ==>
          && (forall k :: 0 <= k < |lines| && !Blank(lines[k]) ==> m.value <= Indent(lines[k]))
          && (exists k :: 0 <= k < |lines| && !Blank(lines[k]) && m.value == Indent(lines[k])))
  }

  function Drop(s: string, n: nat): string {
    if n <= |s| then s[n..] else ""
  }

  function LeastIndentOf(lines: seq<string>): (m: Option<nat>)
    ensures IsLeastIndent(lines, m)
  {
    if lines == [] then None
    else
      var n := |lines| - 1;
      var m := LeastIndentOf(lines[..n]);
      assert lines == lines[..n] + [lines[n]];
      if Blank(lines[n]) then
        IsLeastIndentBlank(lines[..n], lines[n], m);
        m
      else
        IsLeastIndentNext(lines[..n], lines[n], m);
        if m.None? || Indent(lines[n]) < m.value then Some(Indent(lines[n])) else m
  }

  lemma IsLeastIndentBlank(lines: seq<string>, line: string, m: Option<nat>)
    requires IsLeastIndent(lines, m) && Blank(line)
    ensures IsLeastIndent(lines + [line], m)
  {
    hide Blank, Indent;
    var all := lines + [line];
    assert forall k :: 0 <= k < |lines| ==> all[k] == lines[k];
    if m.Some? {
      var k :| 0 <= k < |lines| && !Blank(lines[k]) && m.value == Indent(lines[k]);
      assert all[k] == lines[k];
    }
  }

  lemma IsLeastIndentNext(lines: seq<string>, line: string, m: Option<nat>)
    requires IsLeastIndent(lines, m) && !Blank(line)
    ensures IsLeastIndent(lines + [line], if m.None? || Indent(line) < m.value then Some(Indent(line)) else m)
  {
    hide Blank, Indent;
    var all := lines + [line];
    assert forall k :: 0 <= k < |lines| ==> all[k] == lines[k];
    assert all[|lines|] == line;
    if m.Some? && m.value <= Indent(line) {
      var k :| 0 <= k < |lines| && !Blank(lines[k]) && m.value == Indent(lines[k]);
      assert all[k] == lines[k];
    }
  }

  function Shifted(lines: seq<string>, m: Option<nat>): (r: seq<string>)
    ensures |r| == |lines|
  {
    if m.None? || m.value == 0 then lines
    else seq(|lines|, k requires 0 <= k < |lines| => Drop(Expand(lines[k]), m.value))
  }

  /** The lines moved left until one of them starts at column 0. */
  function DedentOf(lines: seq<string>): (r: seq<string>)
    ensures |r| == |lines|
  {
    Shifted(lines, LeastIndentOf(lines))
  }

  /** The loop that looks for the least column, and the shift. */
  method Dedent(lines: seq<string>) returns (r: seq<string>)
    ensures r == DedentOf(lines)
  {
    var least: Option<nat> := None;
    for k := 0 to |lines|
      invariant least == LeastIndentOf(lines[..k])
    {
      assert lines[..k + 1][..k] == lines[..k];
      if Blank(lines[k]) { continue; }
      var n := Indent(lines[k]);
      if least.None? || n < least.value { least := Some(n); }
    }
    assert lines[..|lines|] == lines;
    if least.None? || least.value == 0 { return lines; }
    r := seq(|lines|, k requires 0 <= k < |lines| => Drop(Expand(lines[k]), least.value));
  }
}
