/** Splitting a table row into cells, against the writer that escapes pipes. */
module MarkdownTable {
  import opened Text

  /** The row without the pipe that may start it and the one that may end it. */
  function Inner(row: string): string {
    var s := if row != "" && row[0] == '|' then row[1..] else row;
    if s != "" && s[|s| - 1] == '|' then s[..|s| - 1] else s
  }

  function Before(s: string, cells: seq<string>): (r: seq<string>)
    requires |cells| > 0
    ensures |r| == |cells|
  {
    [s + cells[0]] + cells[1..]
  }

  /** The cells of a row: a pipe separates them unless a backslash stands before it. */
  function Cells(s: string): (r: seq<string>)
    ensures |r| > 0
  {
    if s == "" then [""]
    else if s[0] == '\\' && |s| > 1 && s[1] == '|' then Before("|", Cells(s[2..]))
    else if s[0] == '|' then [""] + Cells(s[1..])
    else Before([s[0]], Cells(s[1..]))
  }

  function Trimmed(cells: seq<string>): (r: seq<string>)
    ensures |r| == |cells|
  {
    seq(|cells|, k requires 0 <= k < |cells| => Trim(cells[k]))
  }

  // ---------------------------------------------------------------- one step of the scan

  lemma CellsEscaped(rest: string)
    ensures Cells("\\|" + rest) == Before("|", Cells(rest))
  {
    assert ("\\|" + rest)[2..] == rest;
  }

  lemma CellsSeparator(rest: string)
    ensures Cells("|" + rest) == [""] + Cells(rest)
  {
    assert ("|" + rest)[1..] == rest;
  }

  lemma CellsPlain(c: char, rest: string)
    requires c != '|' && (c == '\\' && rest != "" ==> rest[0] != '|')
    ensures Cells([c] + rest) == Before([c], Cells(rest))
  {
    assert ([c] + rest)[1..] == rest;
  }

  lemma BeforeTwice(a: string, b: string, cells: seq<string>)
    requires |cells| > 0
    ensures Before(a, Before(b, cells)) == Before(a + b, cells)
  {
    assert a + (b + cells[0]) == a + b + cells[0];
  }

  lemma BeforeSeparator(cur: string, cells: seq<string>)
    requires |cells| > 0
    ensures Before(cur, [""] + cells) == [cur] + cells
    ensures Before("", cells) == cells
  {
    assert ([""] + cells)[1..] == cells && cur + "" == cur;
    assert "" + cells[0] == cells[0] && [cells[0]] + cells[1..] == cells;
  }

  /** The cells read so far, the current one, and what is still to come make up the row's cells. */
  ghost predicate Scanned(all: seq<string>, done: seq<string>, cur: string, rest: string) {
    all == done + Before(cur, Cells(rest))
  }

  lemma ScanEscaped(all: seq<string>, done: seq<string>, cur: string, rest: string)
    requires Scanned(all, done, cur, "\\|" + rest)
    ensures Scanned(all, done, cur + "|", rest)
  {
    CellsEscaped(rest);
    BeforeTwice(cur, "|", Cells(rest));
  }

  lemma ScanSeparator(all: seq<string>, done: seq<string>, cur: string, rest: string)
    requires Scanned(all, done, cur, "|" + rest)
    ensures Scanned(all, done + [cur], "", rest)
  {
    CellsSeparator(rest);
    BeforeSeparator(cur, Cells(rest));
    assert done + ([cur] + Cells(rest)) == done + [cur] + Cells(rest);
  }

  lemma ScanPlain(all: seq<string>, done: seq<string>, cur: string, c: char, rest: string)
    requires Scanned(all, done, cur, [c] + rest)
    requires c != '|' && (c == '\\' && rest != "" ==> rest[0] != '|')
    ensures Scanned(all, done, cur + [c], rest)
  {
    CellsPlain(c, rest);
    BeforeTwice(cur, [c], Cells(rest));
  }

  /** What the scan sees at index j: the characters it takes, and what it adds to the current cell. */
  function StepAt(s: string, j: nat): (r: (nat, string))
    requires j < |s|
    ensures 0 < r.0 <= |s| - j
  {
    if s[j] == '\\' && j + 1 < |s| && s[j + 1] == '|' then (2, "|")
    else (1, [s[j]])
  }

  lemma ScanStep(all: seq<string>, done: seq<string>, cur: string, s: string, j: nat)
    requires j < |s| && s[j] != '|' && Scanned(all, done, cur, s[j..])
    ensures Scanned(all, done, cur + StepAt(s, j).1, s[j + StepAt(s, j).0..])
  {
    if StepAt(s, j).0 == 2 {
      assert s[j..] == "\\|" + s[j + 2..];
      ScanEscaped(all, done, cur, s[j + 2..]);
    } else {
      assert s[j..] == [s[j]] + s[j + 1..];
      ScanPlain(all, done, cur, s[j], s[j + 1..]);
    }
  }

  /** Scans the row once; an escaped pipe takes two steps of the index. */
  method SplitTableRow(line: string) returns (cells: seq<string>)
    ensures cells == Trimmed(Cells(Inner(Trim(line))))
  {
    var trimmed := Inner(Trim(line));
    ghost var done;
    cells, done := ScanCells(trimmed);
    assert done == Cells(trimmed);
  }

  method ScanCells(row: string) returns (cells: seq<string>, ghost done: seq<string>)
    ensures done == Cells(row) && cells == Trimmed(done)
  {
    ghost var all := Cells(row);
    done, cells := [], [];
    var cur := "";
    var j := 0;
    assert row[0..] == row;
    BeforeSeparator("", all);
    hide Cells, Before, Trim, Trimmed, StepAt;
    while j < |row|
      invariant 0 <= j <= |row|
      invariant Scanned(all, done, cur, row[j..])
      invariant cells == Trimmed(done)
    {
      if row[j] == '|' {
        assert row[j..] == "|" + row[j + 1..];
        ScanSeparator(all, done, cur, row[j + 1..]);
        TrimmedAppend(done, cur);
        cells := cells + [Trim(cur)];
        done := done + [cur];
        cur := "";
        j := j + 1;
      } else {
        ScanStep(all, done, cur, row, j);
        var (width, piece) := StepAt(row, j);
        cur := cur + piece;
        j := j + width;
      }
    }
    ScanEnds(all, done, cur, row[j..]);
    TrimmedAppend(done, cur);
    cells := cells + [Trim(cur)];
    done := done + [cur];
  }

  lemma TrimmedAppend(cells: seq<string>, cell: string)
    ensures Trimmed(cells + [cell]) == Trimmed(cells) + [Trim(cell)]
  {}

  lemma ScanEnds(all: seq<string>, done: seq<string>, cur: string, rest: string)
    requires Scanned(all, done, cur, rest) && rest == ""
    ensures all == done + [cur]
  {
    assert cur + "" == cur;
  }

  // ---------------------------------------------------------------- the writer

  function Escape(s: string): string {
    if s == "" then ""
    else (if s[0] == '|' then "\\|" else [s[0]]) + Escape(s[1..])
  }

  function Joined(cells: seq<string>): string
    requires |cells| > 0
  {
    if |cells| == 1 then Escape(cells[0]) else Escape(cells[0]) + "|" + Joined(cells[1..])
  }

  /** A backslash at the end of a cell would escape the separator after it. */
  predicate EndsInBackslash(s: string) {
    s != "" && s[|s| - 1] == '\\'
  }

  lemma {:induction false} CellsOfEscaped(c: string)
    ensures Cells(Escape(c)) == [c]
  {
    if c != "" {
      var s := c[1..];
      assert c == [c[0]] + s;
      CellsOfEscaped(s);
      EscapeCons(c[0], s);
      EscapeStarts(s);
      EscapeStep(c[0], Escape(s), "");
      assert Escape(s) + "" == Escape(s) && Escape([c[0]]) + Escape(s) + "" == Escape(c);
      BeforeCell([c[0]], s, []);
    }
  }

  lemma EscapeStarts(c: string)
    ensures c != "" ==> Escape(c) != "" && Escape(c)[0] != '|'
  {
  }

  /** Reading the first character of an escaped text. */
  lemma EscapeStep(c: char, e: string, t: string)
    requires e == "" || e[0] != '|'
    requires c == '\\' && e == "" && t != "" ==> t[0] != '|'
    ensures Cells(Escape([c]) + e + t) == Before([c], Cells(e + t))
  {
    if c == '|' {
      assert Escape([c]) + e + t == "\\|" + (e + t);
      CellsEscaped(e + t);
    } else {
      assert Escape([c]) + e + t == [c] + (e + t);
      CellsPlain(c, e + t);
    }
  }

  lemma EscapeCons(c: char, s: string)
    ensures Escape([c] + s) == Escape([c]) + Escape(s)
  {
    assert ([c] + s)[1..] == s;
  }

  lemma {:induction false} CellsOfSeparated(c: string, t: string)
    requires !EndsInBackslash(c)
    ensures Cells(Escape(c) + ("|" + t)) == [c] + Cells(t)
  {
    if c == "" {
      CellsSeparator(t);
      assert Escape(c) + ("|" + t) == "|" + t;
    } else {
      var s := c[1..];
      assert c == [c[0]] + s;
      CellsOfSeparated(s, t);
      EscapeCons(c[0], s);
      EscapeStarts(s);
      EscapeStep(c[0], Escape(s), "|" + t);
      BeforeCell([c[0]], s, Cells(t));
    }
  }

  lemma BeforeCell(a: string, s: string, cells: seq<string>)
    ensures Before(a, [s] + cells) == [a + s] + cells
  {
    assert ([s] + cells)[1..] == cells;
  }

  lemma {:induction false} CellsOfSwallowed(c: string, t: string)
    requires EndsInBackslash(c)
    ensures |Cells(Escape(c) + ("|" + t))| == |Cells(t)|
  {
    var s := c[1..];
    assert c == [c[0]] + s;
    if s == "" {
      assert Escape(c) + ("|" + t) == "\\|" + t;
      CellsEscaped(t);
    } else {
      CellsOfSwallowed(s, t);
      EscapeCons(c[0], s);
      EscapeStarts(s);
      EscapeStep(c[0], Escape(s), "|" + t);
    }
  }

  lemma JoinedStep(cells: seq<string>)
    requires |cells| > 1
    ensures Joined(cells) == Escape(cells[0]) + ("|" + Joined(cells[1..]))
  {
  }

  lemma {:induction false} NoMoreCells(cells: seq<string>)
    requires |cells| > 0
    ensures |Cells(Joined(cells))| <= |cells|
  {
    if |cells| == 1 {
      CellsOfEscaped(cells[0]);
    } else {
      NoMoreCells(cells[1..]);
      JoinedStep(cells);
      if EndsInBackslash(cells[0]) {
        CellsOfSwallowed(cells[0], Joined(cells[1..]));
      } else {
        CellsOfSeparated(cells[0], Joined(cells[1..]));
      }
    }
  }

  /** Escaped cells come back as they were, exactly when none but the last ends in a backslash. */
  lemma {:induction false} CellsRoundTrip(cells: seq<string>)
    requires |cells| > 0
    ensures Cells(Joined(cells)) == cells <==> forall k :: 0 <= k < |cells| - 1 ==> !EndsInBackslash(cells[k])
  {
    if |cells| == 1 {
      CellsOfEscaped(cells[0]);
    } else {
      JoinedStep(cells);
      var rest := cells[1..];
      assert cells == [cells[0]] + rest;
      if EndsInBackslash(cells[0]) {
        CellsOfSwallowed(cells[0], Joined(rest));
        NoMoreCells(rest);
      } else {
        CellsOfSeparated(cells[0], Joined(rest));
        CellsRoundTrip(rest);
        ConsSame(cells[0], Cells(Joined(rest)), rest);
        assert forall k :: 0 < k < |cells| ==> cells[k] == rest[k - 1];
        assert forall k :: 0 <= k < |rest| ==> rest[k] == cells[k + 1];
      }
    }
  }

  lemma ConsSame(x: string, a: seq<string>, b: seq<string>)
    ensures [x] + a == [x] + b <==> a == b
  {
    assert ([x] + a)[1..] == a && ([x] + b)[1..] == b;
  }

  /** A cell that ends in a backslash swallows the separator after it, so cells are missing. */
  lemma {:induction false} FewerCells(cells: seq<string>, k: nat)
    requires k < |cells| - 1 && EndsInBackslash(cells[k])
    ensures |Cells(Joined(cells))| < |cells|
    decreases k
  {
    JoinedStep(cells);
    if EndsInBackslash(cells[0]) {
      CellsOfSwallowed(cells[0], Joined(cells[1..]));
      NoMoreCells(cells[1..]);
    } else {
      CellsOfSeparated(cells[0], Joined(cells[1..]));
      FewerCells(cells[1..], k - 1);
    }
  }

  /** The whole row, with its outer pipes, under the same condition. */
  lemma RowRoundTrip(cells: seq<string>)
    requires |cells| > 0
    ensures Trimmed(Cells(Inner(Trim("|" + Joined(cells) + "|")))) == Trimmed(cells) <==>
              forall k :: 0 <= k < |cells| - 1 ==> !EndsInBackslash(cells[k])
  {
    FramedRow(Joined(cells));
    if k :| 0 <= k < |cells| - 1 && EndsInBackslash(cells[k]) {
      FewerCells(cells, k);
      assert |Trimmed(Cells(Joined(cells)))| < |Trimmed(cells)|;
    } else {
      CellsRoundTrip(cells);
    }
  }

  lemma FramedRow(s: string)
    ensures Inner(Trim("|" + s + "|")) == s
  {
    var row := "|" + s + "|";
    assert Leading(row) == 0 && row[0..] == row;
    assert Trim(row) == row;
    assert row[1..] == s + "|" && (s + "|")[..|s|] == s;
  }
}
