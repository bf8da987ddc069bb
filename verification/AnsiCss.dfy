/** What a style's CSS declares, read back from the text of the attribute. */
module AnsiCss {
  import opened Prelude
  import opened AnsiStyle

  // ---------------------------------------------------------------- reading declarations

  datatype Declaration = Declaration(name: string, value: string)

  /** The pieces between separators. */
  function Pieces(s: string, sep: char): (r: seq<string>)
    ensures |r| > 0
  {
    if s == "" then [""]
    else
      var rest := Pieces(s[1..], sep);
      if s[0] == sep then [""] + rest else [[s[0]] + rest[0]] + rest[1..]
  }

  /** A name up to the first colon, and the value after it. */
  function Read(s: string): Declaration {
    if s == "" then Declaration("", "")
    else if s[0] == ':' then Declaration("", s[1..])
    else Declaration([s[0]] + Read(s[1..]).name, Read(s[1..]).value)
  }

  function ReadAll(parts: seq<string>): seq<Declaration> {
    if parts == [] then [] else [Read(parts[0])] + ReadAll(parts[1..])
  }

  /** The declarations of a style attribute. */
  function Declarations(css: string): seq<Declaration> {
    if css == "" then [] else ReadAll(Pieces(css, ';'))
  }

  predicate Distinct(d: seq<Declaration>) {
    forall i, j | 0 <= i < j < |d| :: d[i].name != d[j].name
  }

  // ---------------------------------------------------------------- joined parts are read back

  predicate Lacks(s: string, c: char) {
    c !in s
  }

  lemma {:induction false} PiecesAppend(a: string, b: string, sep: char)
    ensures Pieces(a + [sep] + b, sep) == Pieces(a, sep) + Pieces(b, sep)
  {
    var s := a + [sep] + b;
    PiecesCons(s, sep);
    if a == "" {
      assert s[1..] == b;
    } else {
      PiecesAppend(a[1..], b, sep);
      assert s[0] == a[0] && s[1..] == a[1..] + [sep] + b;
      PiecesCons(a, sep);
      hide Pieces;
      Shift(a[0], Pieces(a[1..], sep), Pieces(b, sep));
    }
  }

  lemma Shift(c: char, a: seq<string>, b: seq<string>)
    requires |a| > 0
    ensures [""] + (a + b) == ([""] + a) + b
    ensures [[c] + (a + b)[0]] + (a + b)[1..] == ([[c] + a[0]] + a[1..]) + b
  {
  }

  lemma PiecesCons(s: string, sep: char)
    requires s != ""
    ensures var rest := Pieces(s[1..], sep);
            Pieces(s, sep) == if s[0] == sep then [""] + rest else [[s[0]] + rest[0]] + rest[1..]
  {
  }

  lemma {:induction false} OnePiece(s: string, sep: char)
    requires Lacks(s, sep)
    ensures Pieces(s, sep) == [s]
  {
    if s != "" {
      assert s[0] in s;
      assert forall c :: c in s[1..] ==> c in s;
      OnePiece(s[1..], sep);
      PiecesCons(s, sep);
      assert [s[0]] + s[1..] == s;
    }
  }

  lemma {:induction false} PiecesOfJoin(parts: seq<string>, sep: char)
    requires parts != [] && forall k | 0 <= k < |parts| :: Lacks(parts[k], sep)
    ensures Pieces(Join(parts, [sep]), sep) == parts
  {
    var n := |parts| - 1;
    OnePiece(parts[n], sep);
    if n > 0 {
      PiecesOfJoin(parts[..n], sep);
      PiecesAppend(Join(parts[..n], [sep]), parts[n], sep);
    }
  }

  lemma {:induction false} ReadDeclaration(name: string, value: string)
    requires Lacks(name, ':')
    ensures Read(name + ":" + value) == Declaration(name, value)
  {
    var s := name + ":" + value;
    if name != "" {
      assert name[0] in name;
      assert forall c :: c in name[1..] ==> c in name;
      ReadDeclaration(name[1..], value);
      assert s[1..] == name[1..] + ":" + value;
    }
  }

  lemma {:induction false} ReadAllAppend(a: seq<string>, b: seq<string>)
    ensures ReadAll(a + b) == ReadAll(a) + ReadAll(b)
  {
    if a == [] {
      assert a + b == b;
    } else {
      ReadAllAppend(a[1..], b);
      assert (a + b)[1..] == a[1..] + b;
    }
  }

  // ---------------------------------------------------------------- a list of properties

  /** Properties with their values, of which some are on. */
  datatype Row = Row(name: string, value: string, on: bool)

  function PartOf(row: Row): seq<string> {
    When(row.on, row.name + ":" + row.value)
  }

  function Parts(rows: seq<Row>): seq<string> {
    if rows == [] then []
    else
      var last := rows[|rows| - 1];
      Parts(rows[..|rows| - 1]) + PartOf(last)
  }

  predicate Sound(rows: seq<Row>) {
    && (forall i | 0 <= i < |rows| :: SoundRow(rows[i]))
    && (forall i, j | 0 <= i < j < |rows| :: rows[i].name != rows[j].name)
  }

  predicate SoundRow(row: Row) {
    && Lacks(row.name, ';') && Lacks(row.name, ':') && (row.on ==> Lacks(row.value, ';'))
  }

  /** The rows that are on, and nothing else. */
  ghost predicate Lists(d: seq<Declaration>, rows: seq<Row>) {
    && Distinct(d)
    && (forall x :: x in d <==> exists i :: 0 <= i < |rows| && rows[i].on && x == Declaration(rows[i].name, rows[i].value))
  }

  ghost predicate GoodParts(parts: seq<string>) {
    forall k | 0 <= k < |parts| :: parts[k] != "" && Lacks(parts[k], ';')
  }

  lemma {:induction false} PartsList(rows: seq<Row>)
    requires Sound(rows)
    ensures GoodParts(Parts(rows)) && Lists(ReadAll(Parts(rows)), rows)
  {
    if rows != [] {
      var n := |rows| - 1;
      PartsList(rows[..n]);
      assert SoundRow(rows[n]);
      AddRow(Parts(rows[..n]), rows[..n], rows[n]);
      assert rows[..n] + [rows[n]] == rows;
    }
  }

  lemma AddRow(parts: seq<string>, rows: seq<Row>, row: Row)
    requires GoodParts(parts) && Lists(ReadAll(parts), rows)
    requires SoundRow(row) && forall i | 0 <= i < |rows| :: rows[i].name != row.name
    ensures var all := parts + When(row.on, row.name + ":" + row.value);
            GoodParts(all) && Lists(ReadAll(all), rows + [row])
  {
    var d, x := ReadAll(parts), Declaration(row.name, row.value);
    if row.on {
      var part := row.name + ":" + row.value;
      ReadDeclaration(row.name, row.value);
      ReadAllAppend(parts, [part]);
      assert ReadAll([part]) == [x];
      forall i | 0 <= i < |d| ensures d[i].name != row.name { assert d[i] in d; }
      OneMore(d, rows, row);
    } else {
      assert parts + [] == parts;
      SameRows(d, rows, row);
    }
  }

  lemma OneMore(d: seq<Declaration>, rows: seq<Row>, row: Row)
    requires Lists(d, rows) && row.on && forall i | 0 <= i < |d| :: d[i].name != row.name
    ensures Lists(d + [Declaration(row.name, row.value)], rows + [row])
  {
    var x, r := Declaration(row.name, row.value), rows + [row];
    forall y
      ensures y in d + [x] <==> exists i :: 0 <= i < |r| && r[i].on && y == Declaration(r[i].name, r[i].value)
    {
      if y == x { assert r[|rows|] == row; }
      if y in d {
        var i :| 0 <= i < |rows| && rows[i].on && y == Declaration(rows[i].name, rows[i].value);
        assert r[i] == rows[i];
      }
    }
  }

  lemma SameRows(d: seq<Declaration>, rows: seq<Row>, row: Row)
    requires Lists(d, rows) && !row.on
    ensures Lists(d, rows + [row])
  {
    var r := rows + [row];
    forall y
      ensures y in d <==> exists i :: 0 <= i < |r| && r[i].on && y == Declaration(r[i].name, r[i].value)
    {
      if y in d {
        var i :| 0 <= i < |rows| && rows[i].on && y == Declaration(rows[i].name, rows[i].value);
        assert r[i] == rows[i];
      }
    }
  }

  lemma JoinedParts(rows: seq<Row>)
    requires Sound(rows)
    ensures Lists(Declarations(Join(Parts(rows), ";")), rows)
  {
    PartsList(rows);
    var parts := Parts(rows);
    if parts != [] {
      PiecesOfJoin(parts, ';');
      assert Join(parts, ";") != "";
    }
  }

  // ---------------------------------------------------------------- what a style declares

  /** A theme that writes every colour as one CSS value. */
  ghost predicate PlainTheme(t: Theme) {
    forall color :: t(color) != "" && Lacks(t(color), ';')
  }

  /** Colours are the style's own; inverse video exchanges them, with the page's colours for what is unset. */
  lemma CssColors(t: Theme, s: Style, css: string)
    requires PlainTheme(t)
    ensures var d := Declarations(Css(t, s));
            var color, background := Declaration("color", css) in d, Declaration("background", css) in d;
            if s.font.inverse then
              && (color <==> css == if s.bg.Some? then t(s.bg.value) else "var(--code-bg)")
              && (background <==> css == if s.fg.Some? then t(s.fg.value) else "var(--code-ink)")
            else
              && (color <==> s.fg.Some? && css == t(s.fg.value))
              && (background <==> s.bg.Some? && css == t(s.bg.value))
  {
    var d, rows := Declarations(Css(t, s)), Rows(t, s);
    CssLists(t, s);
    RowDeclared(d, rows, 0, css);
    RowDeclared(d, rows, 1, css);
  }

  /** The other declarations appear exactly when their flag is set. */
  lemma CssFlags(t: Theme, s: Style, css: string)
    requires PlainTheme(t)
    ensures var d := Declarations(Css(t, s));
            && (Declaration("font-weight", css) in d <==> s.font.bold && css == "700")
            && (Declaration("opacity", css) in d <==> s.font.dim && css == ".65")
            && (Declaration("font-style", css) in d <==> s.font.italic && css == "italic")
  {
    var d, rows := Declarations(Css(t, s)), Rows(t, s);
    CssLists(t, s);
    RowDeclared(d, rows, 2, css);
    RowDeclared(d, rows, 3, css);
    RowDeclared(d, rows, 4, css);
  }

  /** The decoration that is declared, if any, names exactly the lines whose flags are set. */
  lemma CssDecoration(t: Theme, s: Style, css: string)
    requires PlainTheme(t)
    ensures var d := Declarations(Css(t, s));
            Declaration("text-decoration", css) in d <==>
              && (s.font.underline || s.font.strike)
              && Pieces(css, ' ') == When(s.font.underline, "underline") + When(s.font.strike, "line-through")
  {
    var rows := Rows(t, s);
    CssLists(t, s);
    RowDeclared(Declarations(Css(t, s)), rows, 5, css);
    assert rows[5] == DecorationRow(s);
    hide Rows, Css, Join, Pieces;
    if Decorations(s) != [] {
      DecorationWords(s);
      SplitJoin(css, Decorations(s));
    }
  }

  lemma DecorationWords(s: Style)
    ensures forall k | 0 <= k < |Decorations(s)| :: Lacks(Decorations(s)[k], ' ')
    ensures Decorations(s) != [] <==> s.font.underline || s.font.strike
  {
    assert Lacks("underline", ' ') && Lacks("line-through", ' ');
  }

  lemma SplitJoin(css: string, lines: seq<string>)
    requires lines != [] && forall k | 0 <= k < |lines| :: Lacks(lines[k], ' ')
    ensures css == Join(lines, " ") <==> Pieces(css, ' ') == lines
  {
    PiecesOfJoin(lines, ' ');
    JoinOfPieces(css, ' ');
  }

  /** No property is declared twice, and there are no others. */
  lemma CssNothingElse(t: Theme, s: Style)
    requires PlainTheme(t)
    ensures var d := Declarations(Css(t, s));
            Distinct(d) && forall x | x in d :: IsProperty(x.name)
  {
    CssLists(t, s);
    RowNames(t, s);
    hide Rows, Css;
  }

  predicate IsProperty(name: string) {
    name in {"color", "background", "font-weight", "opacity", "font-style", "text-decoration"}
  }

  lemma RowNames(t: Theme, s: Style)
    ensures forall i | 0 <= i < 6 :: IsProperty(Rows(t, s)[i].name)
  {
    var colors, fonts, last := ColorRows(t, s), FontRows(s), DecorationRow(s);
    assert IsProperty("color") && IsProperty("background") && IsProperty("font-weight");
    assert IsProperty("opacity") && IsProperty("font-style") && IsProperty("text-decoration");
    hide IsProperty;
    assert IsProperty(colors[0].name) && IsProperty(colors[1].name);
    assert IsProperty(fonts[0].name) && IsProperty(fonts[1].name) && IsProperty(fonts[2].name);
    hide ColorRows, FontRows, DecorationRow;
  }

  lemma {:induction false} JoinOfPieces(s: string, sep: char)
    ensures Join(Pieces(s, sep), [sep]) == s
  {
    if s != "" {
      JoinOfPieces(s[1..], sep);
      var rest := Pieces(s[1..], sep);
      if s[0] == sep {
        JoinFront("", rest, [sep]);
      } else {
        JoinLonger([s[0]], rest, [sep]);
      }
    }
  }

  lemma {:induction false} JoinFront(part: string, parts: seq<string>, sep: string)
    requires |parts| > 0
    ensures Join([part] + parts, sep) == part + sep + Join(parts, sep)
  {
    var n, all := |parts| - 1, [part] + parts;
    assert all[..n + 1] == [part] + parts[..n];
    if n > 0 { JoinFront(part, parts[..n], sep); }
  }

  lemma {:induction false} JoinLonger(start: string, parts: seq<string>, sep: string)
    requires |parts| > 0
    ensures Join([start + parts[0]] + parts[1..], sep) == start + Join(parts, sep)
  {
    var n, all := |parts| - 1, [start + parts[0]] + parts[1..];
    if n > 0 {
      assert all[..n] == [start + parts[0]] + parts[..n][1..];
      JoinLonger(start, parts[..n], sep);
      assert (start + Join(parts[..n], sep)) + sep + parts[n] == start + (Join(parts[..n], sep) + sep + parts[n]);
    }
  }

  // ---------------------------------------------------------------- the properties of a style

  function ColorRows(t: Theme, s: Style): (rows: seq<Row>)
    ensures |rows| == 2
  {
    var fg := if s.font.inverse then Or(ColorCss(t, s.bg), "var(--code-bg)") else ColorCss(t, s.fg);
    var bg := if s.font.inverse then Or(ColorCss(t, s.fg), "var(--code-ink)") else ColorCss(t, s.bg);
    [Row("color", fg, fg != ""), Row("background", bg, bg != "")]
  }

  function FontRows(s: Style): (rows: seq<Row>)
    ensures |rows| == 3
  {
    [Row("font-weight", "700", s.font.bold), Row("opacity", ".65", s.font.dim), Row("font-style", "italic", s.font.italic)]
  }

  function DecorationRow(s: Style): Row {
    Row("text-decoration", Join(Decorations(s), " "), Decorations(s) != [])
  }

  function Rows(t: Theme, s: Style): (rows: seq<Row>)
    ensures |rows| == 6
  {
    ColorRows(t, s) + FontRows(s) + [DecorationRow(s)]
  }

  lemma RowDeclared(d: seq<Declaration>, rows: seq<Row>, i: nat, css: string)
    requires Lists(d, rows) && Sound(rows) && i < |rows|
    ensures Declaration(rows[i].name, css) in d <==> rows[i].on && css == rows[i].value
  {
  }

  lemma ColorsSound(t: Theme, s: Style)
    requires PlainTheme(t)
    ensures Sound(ColorRows(t, s))
  {
    var rows := ColorRows(t, s);
    assert Lacks("var(--code-bg)", ';') && Lacks("var(--code-ink)", ';');
    assert SoundRow(rows[0]);
    assert SoundRow(rows[1]);
    assert |rows[0].name| == 5 && |rows[1].name| == 10;
  }

  lemma FontSound(s: Style, i: nat)
    requires i < 3
    ensures SoundRow(FontRows(s)[i])
  {
    if i == 0 { assert Lacks("font-weight", ';') && Lacks("font-weight", ':'); }
    else if i == 1 { assert Lacks("opacity", ';') && Lacks("opacity", ':'); }
    else { assert Lacks("font-style", ';') && Lacks("font-style", ':'); }
  }

  lemma FontsSound(s: Style)
    ensures Sound(FontRows(s))
  {
    var rows := FontRows(s);
    assert |rows[0].name| == 11 && |rows[1].name| == 7 && |rows[2].name| == 10;
    hide FontRows, SoundRow;
    forall i | 0 <= i < 3 ensures SoundRow(rows[i]) { FontSound(s, i); }
  }

  lemma DecorationSound(s: Style)
    ensures SoundRow(DecorationRow(s))
  {
    assert Lacks("text-decoration", ';') && Lacks("text-decoration", ':');
    if s.font.underline && s.font.strike {
      assert Decorations(s)[..1] == ["underline"];
      assert Join(Decorations(s), " ") == "underline" + " " + "line-through";
    }
  }

  lemma NamesDiffer(t: Theme, s: Style)
    ensures forall i, j | 0 <= i < 2 && 0 <= j < 3 :: ColorRows(t, s)[i].name != FontRows(s)[j].name
    ensures forall i | 0 <= i < 2 :: ColorRows(t, s)[i].name != DecorationRow(s).name
    ensures forall j | 0 <= j < 3 :: FontRows(s)[j].name != DecorationRow(s).name
  {
    hide ColorRows, FontRows, DecorationRow;
    NameLengths(t, s);
  }

  lemma NameLengths(t: Theme, s: Style)
    ensures var colors, fonts := ColorRows(t, s), FontRows(s);
            && |colors[0].name| == 5 && |colors[1].name| == 10 && colors[1].name[0] == 'b'
            && |fonts[0].name| == 11 && |fonts[1].name| == 7 && |fonts[2].name| == 10 && fonts[2].name[0] == 'f'
            && |DecorationRow(s).name| == 15
  {
  }

  lemma SoundAppend(a: seq<Row>, b: seq<Row>)
    requires Sound(a) && Sound(b)
    requires forall i, j | 0 <= i < |a| && 0 <= j < |b| :: a[i].name != b[j].name
    ensures Sound(a + b)
  {
  }

  lemma RowsSound(t: Theme, s: Style)
    requires PlainTheme(t)
    ensures Sound(Rows(t, s))
  {
    var colors, fonts, last := ColorRows(t, s), FontRows(s), DecorationRow(s);
    ColorsSound(t, s);
    FontsSound(s);
    DecorationSound(s);
    NamesDiffer(t, s);
    hide ColorRows, FontRows, DecorationRow;
    SoundAppend(colors, fonts);
    SoundAppend(colors + fonts, [last]);
  }

  lemma {:induction false} PartsAppend(a: seq<Row>, b: seq<Row>)
    ensures Parts(a + b) == Parts(a) + Parts(b)
  {
    if b == [] {
      assert a + b == a;
    } else {
      var n := |b| - 1;
      PartsAppend(a, b[..n]);
      assert (a + b)[..|a| + n] == a + b[..n];
      Reassociate(Parts(a), Parts(b[..n]), PartOf(b[n]));
    }
  }

  lemma OnePart(a: Row)
    ensures Parts([a]) == PartOf(a)
  {
  }

  lemma TwoParts(a: Row, b: Row)
    ensures Parts([a, b]) == PartOf(a) + PartOf(b)
  {
    OnePart(a);
    assert [a, b][..1] == [a];
  }

  lemma ThreeParts(a: Row, b: Row, c: Row)
    ensures Parts([a, b, c]) == PartOf(a) + PartOf(b) + PartOf(c)
  {
    TwoParts(a, b);
    assert [a, b, c][..2] == [a, b];
  }

  lemma PartOfLiteral(name: string, start: string, value: string, on: bool)
    requires start == name + ":"
    ensures PartOf(Row(name, value, on)) == When(on, start + value)
  {
  }

  lemma ColorsOf(t: Theme, s: Style)
    ensures Parts(ColorRows(t, s)) == ColorParts(t, s)
  {
    var rows := ColorRows(t, s);
    TwoParts(rows[0], rows[1]);
    PartOfLiteral("color", "color:", rows[0].value, rows[0].on);
    PartOfLiteral("background", "background:", rows[1].value, rows[1].on);
    hide PartOf, Parts, When;
  }

  lemma FontsOf(s: Style)
    ensures Parts(FontRows(s)) == FontParts(s)
  {
    var rows := FontRows(s);
    ThreeParts(rows[0], rows[1], rows[2]);
    assert "font-weight" + ":" + "700" == "font-weight:700";
    assert "opacity" + ":" + ".65" == "opacity:.65";
    assert "font-style" + ":" + "italic" == "font-style:italic";
    hide Parts, When;
  }

  lemma PartsOfRows(t: Theme, s: Style)
    ensures Parts(Rows(t, s)) == Parts(ColorRows(t, s)) + Parts(FontRows(s)) + PartOf(DecorationRow(s))
  {
    var colors, fonts, last := ColorRows(t, s), FontRows(s), DecorationRow(s);
    PartsAppend(colors + fonts, [last]);
    PartsAppend(colors, fonts);
    OnePart(last);
    hide PartOf, Parts, ColorRows, FontRows, DecorationRow;
  }

  lemma RowsParts(t: Theme, s: Style)
    ensures Join(Parts(Rows(t, s)), ";") == Css(t, s)
  {
    var last := DecorationRow(s);
    PartsOfRows(t, s);
    ColorsOf(t, s);
    FontsOf(s);
    PartOfLiteral("text-decoration", "text-decoration:", last.value, last.on);
    hide PartOf, Parts, Join, When, Rows, ColorRows, FontRows, ColorParts, FontParts, Decorations;
  }

  lemma CssLists(t: Theme, s: Style)
    requires PlainTheme(t)
    ensures Lists(Declarations(Css(t, s)), Rows(t, s)) && Sound(Rows(t, s))
  {
    RowsSound(t, s);
    RowsParts(t, s);
    JoinedParts(Rows(t, s));
  }
}
