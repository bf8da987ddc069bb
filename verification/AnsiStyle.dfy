/** The state that select-graphic-rendition codes set (section 8.3.117 of ECMA-48), and its CSS. */
module AnsiStyle {
  import opened Prelude

  /** A colour of the theme's palette, or one given by its components. */
  datatype Color = Palette(n: nat) | Rgb(r: nat, g: nat, b: nat)

  /** How the page's theme writes a colour in CSS. */
  type Theme = Color -> string

  datatype Font = Font(bold: bool, dim: bool, italic: bool, underline: bool, inverse: bool, strike: bool)

  datatype Style = Style(fg: Option<Color>, bg: Option<Color>, font: Font)

  const FRESH := Style(None, None, Font(false, false, false, false, false, false))

  // ---------------------------------------------------------------- parameters

  predicate IsParam(c: char) {
    '0' <= c <= '9' || c == ';' || c == ':'
  }

  /** The numbers between separators; an empty field is zero. */
  function Codes(params: string): (codes: seq<nat>)
    requires forall i :: 0 <= i < |params| ==> IsParam(params[i])
    ensures |codes| > 0
  {
    if params == "" then [0]
    else
      var n := |params| - 1;
      var c := params[n];
      assert IsParam(c);
      var codes := Codes(params[..n]);
      if c == ';' || c == ':' then codes + [0]
      else Grown(codes, c as int - '0' as int)
  }

  /** One more digit for the last number. */
  function Grown(codes: seq<nat>, d: nat): (r: seq<nat>)
    requires codes != []
    ensures |r| == |codes|
  {
    codes[|codes| - 1 := codes[|codes| - 1] * 10 + d]
  }

  function At(codes: seq<nat>, i: nat): nat {
    if i < |codes| then codes[i] else 0
  }

  function Step256(i: nat): nat
    requires i < 6
  {
    [0, 95, 135, 175, 215, 255][i]
  }

  function Ansi256(n: nat): Color {
    if n < 16 then Palette(n)
    else if n >= 232 then
      var v := 8 + (n - 232) * 10;
      Rgb(v, v, v)
    else
      var i := n - 16;
      Rgb(Step256(i / 36 % 6), Step256(i / 6 % 6), Step256(i % 6))
  }

  // ---------------------------------------------------------------- what the codes do

  /** A code below 30 sets flags or takes them back. */
  function SetFlag(f: Font, c: nat): Font {
    match c
    case 1 => f.(bold := true)
    case 2 => f.(dim := true)
    case 3 => f.(italic := true)
    case 4 => f.(underline := true)
    case 7 => f.(inverse := true)
    case 9 => f.(strike := true)
    case 22 => f.(bold := false, dim := false)
    case 23 => f.(italic := false)
    case 24 => f.(underline := false)
    case 27 => f.(inverse := false)
    case 29 => f.(strike := false)
    case _ => f
  }

  /** A code from 30 on sets a colour of the palette or takes it back. */
  function SetColor(s: Style, c: nat): Style {
    if 30 <= c <= 37 then s.(fg := Some(Palette(c - 30)))
    else if 40 <= c <= 47 then s.(bg := Some(Palette(c - 40)))
    else if 90 <= c <= 97 then s.(fg := Some(Palette(8 + c - 90)))
    else if 100 <= c <= 107 then s.(bg := Some(Palette(8 + c - 100)))
    else if c == 39 then s.(fg := None)
    else if c == 49 then s.(bg := None)
    else s
  }

  /** A code that stands alone. */
  function Single(s: Style, c: nat): Style {
    if c == 0 then FRESH else if c < 30 then s.(font := SetFlag(s.font, c)) else SetColor(s, c)
  }

  function Paint(s: Style, c: nat, color: Color): Style {
    if c == 38 then s.(fg := Some(color)) else s.(bg := Some(color))
  }

  /** How many codes the one at the front takes with it. */
  function Width(codes: seq<nat>): (n: nat)
    requires codes != []
    ensures 0 < n <= |codes|
  {
    var n := if codes[0] != 38 && codes[0] != 48 then 1
             else if |codes| > 1 && codes[1] == 5 then 3
             else if |codes| > 1 && codes[1] == 2 then 5
             else 1;
    if n <= |codes| then n else |codes|
  }

  function First(s: Style, codes: seq<nat>): Style
    requires codes != []
  {
    var c := codes[0];
    if c != 38 && c != 48 then Single(s, c)
    else if |codes| > 1 && codes[1] == 5 then Paint(s, c, Ansi256(At(codes, 2)))
    else if |codes| > 1 && codes[1] == 2 then Paint(s, c, Rgb(At(codes, 2), At(codes, 3), At(codes, 4)))
    else s
  }

  function Applied(s: Style, codes: seq<nat>): Style
    decreases |codes|
  {
    if codes == [] then s else Applied(First(s, codes), codes[Width(codes)..])
  }

  // ---------------------------------------------------------------- CSS

  /** A colour in CSS; empty when there is none. */
  function ColorCss(t: Theme, color: Option<Color>): string {
    if color.Some? then t(color.value) else ""
  }

  function Or(css: string, fallback: string): string {
    if css != "" then css else fallback
  }

  function Join(parts: seq<string>, sep: string): string {
    if parts == [] then ""
    else if |parts| == 1 then parts[0]
    else Join(parts[..|parts| - 1], sep) + sep + parts[|parts| - 1]
  }

  function When(b: bool, s: string): seq<string> {
    if b then [s] else []
  }

  function Shade(name: string, css: string): seq<string> {
    When(css != "", name + css)
  }

  /** The colours; inverse video swaps them, with the theme's own for what is unset. */
  function ColorParts(t: Theme, s: Style): seq<string> {
    var fg := if s.font.inverse then Or(ColorCss(t, s.bg), "var(--code-bg)") else ColorCss(t, s.fg);
    var bg := if s.font.inverse then Or(ColorCss(t, s.fg), "var(--code-ink)") else ColorCss(t, s.bg);
    Shade("color:", fg) + Shade("background:", bg)
  }

  function FontParts(s: Style): seq<string> {
    When(s.font.bold, "font-weight:700") + When(s.font.dim, "opacity:.65") + When(s.font.italic, "font-style:italic")
  }

  function Decorations(s: Style): seq<string> {
    When(s.font.underline, "underline") + When(s.font.strike, "line-through")
  }

  function Css(t: Theme, s: Style): string {
    Join(ColorParts(t, s) + FontParts(s) + When(Decorations(s) != [], "text-decoration:" + Join(Decorations(s), " ")), ";")
  }

  /** Nothing in the text can end a tag or start one. */
  predicate Clean(s: string) {
    forall i :: 0 <= i < |s| ==> s[i] != '<' && s[i] != '>'
  }

  ghost predicate CleanTheme(t: Theme) {
    forall color :: Clean(t(color))
  }

  predicate CleanParts(parts: seq<string>) {
    forall k :: 0 <= k < |parts| ==> Clean(parts[k])
  }

  lemma {:induction false} JoinClean(parts: seq<string>, sep: string)
    requires CleanParts(parts) && Clean(sep)
    ensures Clean(Join(parts, sep))
  {
    if |parts| > 1 { JoinClean(parts[..|parts| - 1], sep); }
  }

  lemma CleanAppend(a: seq<string>, b: seq<string>)
    requires CleanParts(a) && CleanParts(b)
    ensures CleanParts(a + b)
  {
  }

  lemma WhenClean(b: bool, s: string)
    requires Clean(s)
    ensures CleanParts(When(b, s))
  {
  }

  lemma ShadesClean(fg: string, bg: string)
    requires Clean(fg) && Clean(bg)
    ensures CleanParts(Shade("color:", fg) + Shade("background:", bg))
  {
    WhenClean(fg != "", "color:" + fg);
    WhenClean(bg != "", "background:" + bg);
    CleanAppend(Shade("color:", fg), Shade("background:", bg));
  }

  lemma FontsClean(s: Style)
    ensures CleanParts(FontParts(s))
  {
    WhenClean(s.font.bold, "font-weight:700");
    WhenClean(s.font.dim, "opacity:.65");
    WhenClean(s.font.italic, "font-style:italic");
    CleanAppend(When(s.font.bold, "font-weight:700"), When(s.font.dim, "opacity:.65"));
    CleanAppend(When(s.font.bold, "font-weight:700") + When(s.font.dim, "opacity:.65"), When(s.font.italic, "font-style:italic"));
  }

  lemma DecorationsClean(s: Style)
    ensures CleanParts(When(Decorations(s) != [], "text-decoration:" + Join(Decorations(s), " ")))
  {
    WhenClean(s.font.underline, "underline");
    WhenClean(s.font.strike, "line-through");
    CleanAppend(When(s.font.underline, "underline"), When(s.font.strike, "line-through"));
    JoinClean(Decorations(s), " ");
    WhenClean(Decorations(s) != [], "text-decoration:" + Join(Decorations(s), " "));
  }

  lemma CssClean(t: Theme, s: Style)
    requires CleanTheme(t)
    ensures Clean(Css(t, s))
  {
    ShadesClean(if s.font.inverse then Or(ColorCss(t, s.bg), "var(--code-bg)") else ColorCss(t, s.fg),
                if s.font.inverse then Or(ColorCss(t, s.fg), "var(--code-ink)") else ColorCss(t, s.bg));
    FontsClean(s);
    DecorationsClean(s);
    CleanAppend(ColorParts(t, s), FontParts(s));
    var last := When(Decorations(s) != [], "text-decoration:" + Join(Decorations(s), " "));
    CleanAppend(ColorParts(t, s) + FontParts(s), last);
    JoinClean(ColorParts(t, s) + FontParts(s) + last, ";");
  }

  // ---------------------------------------------------------------- the state object

  class AnsiState {
    var fg: Option<Color>
    var bg: Option<Color>
    var bold: bool
    var dim: bool
    var italic: bool
    var underline: bool
    var inverse: bool
    var strike: bool

    function Value(): Style
      reads this
    {
      Style(fg, bg, Font(bold, dim, italic, underline, inverse, strike))
    }

    constructor ()
      ensures Value() == FRESH
    {
      fg, bg := None, None;
      bold, dim, italic, underline, inverse, strike := false, false, false, false, false, false;
    }

    method Set(s: Style)
      modifies this
      ensures Value() == s
    {
      fg, bg := s.fg, s.bg;
      bold, dim, italic := s.font.bold, s.font.dim, s.font.italic;
      underline, inverse, strike := s.font.underline, s.font.inverse, s.font.strike;
    }

    /** One code that stands alone. */
    method ApplySingle(c: nat)
      modifies this
      ensures Value() == Single(old(Value()), c)
    {
      if c == 0 { Set(FRESH); }
      else if c == 1 { bold := true; }
      else if c == 2 { dim := true; }
      else if c == 3 { italic := true; }
      else if c == 4 { underline := true; }
      else if c == 7 { inverse := true; }
      else if c == 9 { strike := true; }
      else if c == 22 { bold := false; dim := false; }
      else if c == 23 { italic := false; }
      else if c == 24 { underline := false; }
      else if c == 27 { inverse := false; }
      else if c == 29 { strike := false; }
      else if 30 <= c <= 37 { fg := Some(Palette(c - 30)); }
      else if 40 <= c <= 47 { bg := Some(Palette(c - 40)); }
      else if 90 <= c <= 97 { fg := Some(Palette(8 + c - 90)); }
      else if 100 <= c <= 107 { bg := Some(Palette(8 + c - 100)); }
      else if c == 39 { fg := None; }
      else if c == 49 { bg := None; }
    }

    /** The loop over the codes; extended colours move the index past their arguments. */
    method ApplyAnsiSgr(codes: seq<nat>)
      modifies this
      ensures Value() == Applied(old(Value()), codes)
    {
      var i := 0;
      ghost var rest := codes;
      while i < |codes|
        invariant 0 <= i && rest == (if i <= |codes| then codes[i..] else [])
        invariant Applied(Value(), rest) == Applied(old(Value()), codes)
      {
        var c := codes[i];
        ghost var was := Value();
        ghost var before := rest;
        rest := rest[Width(rest)..];
        if c == 38 || c == 48 {
          if i + 1 < |codes| && codes[i + 1] == 5 {
            var color := Ansi256(At(codes, i + 2));
            if c == 38 { fg := Some(color); } else { bg := Some(color); }
            i := i + 2;
          } else if i + 1 < |codes| && codes[i + 1] == 2 {
            var color := Rgb(At(codes, i + 2), At(codes, i + 3), At(codes, i + 4));
            if c == 38 { fg := Some(color); } else { bg := Some(color); }
            i := i + 4;
          }
        } else {
          ApplySingle(c);
        }
        assert Value() == First(was, before);
        i := i + 1;
      }
    }
  }
}
