/**
 The lines of a source text. A line ends at a line feed, at a carriage return, or at the pair of
 both; the parser gets the pieces between those ends.
 */
module MarkdownSource {
  import opened Prelude

  /** Carriage returns, with a line feed after them or not, become line feeds. */
  function Normalized(src: string): (r: string)
    ensures '\r' !in r
  {
    if src == "" then ""
    else if src[0] != '\r' then [src[0]] + Normalized(src[1..])
    else if |src| > 1 && src[1] == '\n' then "\n" + Normalized(src[2..])
    else "\n" + Normalized(src[1..])
  }

  function Split(text: string): (lines: seq<string>)
    ensures |lines| > 0
    ensures forall k :: 0 <= k < |lines| ==> '\n' !in lines[k]
  {
    if text == "" then [""]
    else
      var rest := Split(text[1..]);
      if text[0] == '\n' then [""] + rest else [[text[0]] + rest[0]] + rest[1..]
  }

  // ---------------------------------------------------------------- lines and their ends

  datatype LineEnd = CrLf | Cr | Lf

  function Mark(e: LineEnd): string {
    match e
    case CrLf => "\r\n"
    case Cr => "\r"
    case Lf => "\n"
  }

  /** The lines with an end after each but the last. */
  function Woven(lines: seq<string>, ends: seq<LineEnd>): string
    requires |lines| == |ends| + 1
  {
    if ends == [] then lines[0] else lines[0] + Mark(ends[0]) + Woven(lines[1..], ends[1..])
  }

  predicate Plain(line: string) {
    '\r' !in line && '\n' !in line
  }

  /** These are the lines of src, and these the ends between them; a return is never parted from its line feed. */
  ghost predicate Divides(src: string, lines: seq<string>, ends: seq<LineEnd>) {
    && |lines| == |ends| + 1 && Woven(lines, ends) == src
    && (forall k | 0 <= k < |lines| :: Plain(lines[k]))
    && (forall k | 0 <= k < |ends| :: Whole(lines, ends, k))
  }

  predicate Whole(lines: seq<string>, ends: seq<LineEnd>, k: nat)
    requires |lines| == |ends| + 1 && k < |ends|
  {
    ends[k] == Cr ==> !(lines[k + 1] == "" && k + 1 < |ends| && ends[k + 1] == Lf)
  }

  ghost predicate HasLines(src: string, lines: seq<string>) {
    exists ends :: Divides(src, lines, ends)
  }

  function EndsOf(src: string): seq<LineEnd> {
    if src == "" then []
    else if src[0] == '\n' then [Lf] + EndsOf(src[1..])
    else if src[0] != '\r' then EndsOf(src[1..])
    else if |src| > 1 && src[1] == '\n' then [CrLf] + EndsOf(src[2..])
    else [Cr] + EndsOf(src[1..])
  }

  /** A text starts with a line feed exactly if its first line is empty and ends in one. */
  lemma StartsWithFeed(lines: seq<string>, ends: seq<LineEnd>)
    requires |lines| == |ends| + 1 && Plain(lines[0])
    ensures var src := Woven(lines, ends);
            src != "" && src[0] == '\n' <==> lines[0] == "" && ends != [] && ends[0] == Lf
  {
    if lines[0] != "" { assert lines[0][0] in lines[0]; }
  }

  /** Putting an end and an empty line before the lines. */
  lemma EndBefore(src: string, lines: seq<string>, ends: seq<LineEnd>, e: LineEnd)
    requires Divides(src, lines, ends)
    requires e == Cr ==> !(src != "" && src[0] == '\n')
    ensures Divides(Mark(e) + src, [""] + lines, [e] + ends)
  {
    var l, f := [""] + lines, [e] + ends;
    assert l[1..] == lines && f[1..] == ends;
    assert "" + Mark(e) + src == Mark(e) + src;
    StartsWithFeed(lines, ends);
    forall k: nat | k < |f| ensures Whole(l, f, k) {
      if k > 0 { assert Whole(lines, ends, k - 1); }
    }
  }

  /** Putting a character at the start of the first line. */
  lemma CharBefore(src: string, lines: seq<string>, ends: seq<LineEnd>, c: char)
    requires Divides(src, lines, ends) && c != '\r' && c != '\n'
    ensures Divides([c] + src, [[c] + lines[0]] + lines[1..], ends)
  {
    var l := [[c] + lines[0]] + lines[1..];
    assert l[1..] == lines[1..];
    if ends != [] {
      var rest := Woven(lines[1..], ends[1..]);
      assert [c] + lines[0] + Mark(ends[0]) + rest == [c] + (lines[0] + Mark(ends[0]) + rest);
    }
    forall k: nat | k < |ends| ensures Whole(l, ends, k) { assert Whole(lines, ends, k); }
  }

  /** What is split is what lies between the line ends of the source. */
  lemma {:induction false} SplitDivides(src: string)
    ensures Divides(src, Split(Normalized(src)), EndsOf(src))
  {
    if src != "" {
      var n := if src[0] == '\r' && |src| > 1 && src[1] == '\n' then 2 else 1;
      var rest := src[n..];
      SplitDivides(rest);
      var lines, text := Split(Normalized(rest)), Normalized(src);
      assert src == src[..n] + rest;
      assert text[1..] == Normalized(rest);
      if src[0] == '\r' || src[0] == '\n' {
        var e := if n == 2 then CrLf else if src[0] == '\r' then Cr else Lf;
        assert src[..n] == Mark(e);
        EndBefore(rest, lines, EndsOf(rest), e);
      } else {
        CharBefore(rest, lines, EndsOf(rest), src[0]);
      }
    }
  }

  function FirstEnd(src: string): LineEnd
    requires src != ""
  {
    if src[0] == '\n' then Lf else if |src| > 1 && src[1] == '\n' then CrLf else Cr
  }

  /** Taking the first end away. */
  lemma EndAway(src: string, lines: seq<string>, ends: seq<LineEnd>)
    requires Divides(src, lines, ends) && ends != [] && lines[0] == ""
    ensures src != "" && (src[0] == '\r' || src[0] == '\n') && ends[0] == FirstEnd(src)
    ensures Divides(src[|Mark(ends[0])|..], lines[1..], ends[1..])
  {
    var l, f := lines[1..], ends[1..];
    StartsWithFeed(l, f);
    assert Whole(lines, ends, 0);
    assert src == Mark(ends[0]) + Woven(l, f);
    forall k: nat | k < |f| ensures Whole(l, f, k) { assert Whole(lines, ends, k + 1); }
  }

  /** Taking the first character away. */
  lemma CharAway(src: string, lines: seq<string>, ends: seq<LineEnd>)
    requires Divides(src, lines, ends) && lines[0] != ""
    ensures src != "" && src[0] == lines[0][0] && src[0] != '\r' && src[0] != '\n'
    ensures Divides(src[1..], [lines[0][1..]] + lines[1..], ends)
  {
    var l := [lines[0][1..]] + lines[1..];
    assert lines[0] == [lines[0][0]] + lines[0][1..];
    assert lines[0][0] in lines[0];
    assert l[1..] == lines[1..];
    if ends != [] {
      var rest := Woven(lines[1..], ends[1..]);
      assert src == [lines[0][0]] + (lines[0][1..] + Mark(ends[0]) + rest);
    }
    forall k: nat | k < |ends| ensures Whole(l, ends, k) { assert Whole(lines, ends, k); }
  }

  /** A text has its lines in one way only. */
  lemma {:induction false} LinesUnique(src: string, l1: seq<string>, e1: seq<LineEnd>, l2: seq<string>, e2: seq<LineEnd>)
    requires Divides(src, l1, e1) && Divides(src, l2, e2)
    ensures l1 == l2 && e1 == e2
    decreases |src|
  {
    hide Whole;
    if l1[0] != "" { CharAway(src, l1, e1); }
    if l2[0] != "" { CharAway(src, l2, e2); }
    if l1[0] == "" && e1 != [] { EndAway(src, l1, e1); }
    if l2[0] == "" && e2 != [] { EndAway(src, l2, e2); }
    if l1[0] != "" {
      var t1, t2 := [l1[0][1..]] + l1[1..], [l2[0][1..]] + l2[1..];
      LinesUnique(src[1..], t1, e1, t2, e2);
      assert l1[0] == [src[0]] + t1[0] && l2[0] == [src[0]] + t2[0];
      assert l1 == [l1[0]] + t1[1..] && l2 == [l2[0]] + t2[1..];
    } else if e1 != [] {
      LinesUnique(src[|Mark(e1[0])|..], l1[1..], e1[1..], l2[1..], e2[1..]);
      assert l1 == [""] + l1[1..] && l2 == [""] + l2[1..];
      assert e1 == [e1[0]] + e1[1..] && e2 == [e2[0]] + e2[1..];
    }
  }

  /** The lines of a text are those that the parser gets, and no others. */
  lemma LinesOfSource(src: string, lines: seq<string>)
    ensures HasLines(src, lines) <==> lines == Split(Normalized(src))
  {
    SplitDivides(src);
    if HasLines(src, lines) {
      var ends :| Divides(src, lines, ends);
      LinesUnique(src, lines, ends, Split(Normalized(src)), EndsOf(src));
    }
  }
}
