/** What a sequence of select-graphic-rendition codes leaves, one attribute at a time. */
module AnsiCodes {
  import opened Prelude
  import opened AnsiStyle
  import opened Text

  // ---------------------------------------------------------------- commands

  /** A code on its own, or an extended colour for the text or for what is behind it. */
  datatype Command =
    | Code(c: nat)
    | Indexed(behind: bool, n: nat)
    | Direct(behind: bool, r: nat, g: nat, b: nat)

  function Field(codes: seq<nat>, i: nat): nat {
    if i < |codes| then codes[i] else 0
  }

  /** 38 and 48 take a colour when 5 or 2 follows; what the end cuts off reads as zero. */
  function Front(codes: seq<nat>): Command
    requires codes != []
  {
    if codes[0] in {38, 48} && Field(codes, 1) == 5 then Indexed(codes[0] == 48, Field(codes, 2))
    else if codes[0] in {38, 48} && Field(codes, 1) == 2 then
      Direct(codes[0] == 48, Field(codes, 2), Field(codes, 3), Field(codes, 4))
    else Code(codes[0])
  }

  function Commands(codes: seq<nat>): (cmds: seq<Command>)
    decreases |codes|
  {
    if codes == [] then [] else [Front(codes)] + Commands(Drop(codes, |Written(Front(codes))|))
  }

  function Drop(codes: seq<nat>, n: nat): (rest: seq<nat>)
    ensures n > 0 && codes != [] ==> |rest| < |codes|
  {
    if n <= |codes| then codes[n..] else []
  }

  /** How a terminal program writes a command. */
  function Written(cmd: Command): (codes: seq<nat>)
    ensures codes != []
  {
    match cmd
    case Code(c) => [c]
    case Indexed(behind, n) => [if behind then 48 else 38, 5, n]
    case Direct(behind, r, g, b) => [if behind then 48 else 38, 2, r, g, b]
  }

  function AllWritten(cmds: seq<Command>): seq<nat> {
    if cmds == [] then [] else Written(cmds[0]) + AllWritten(cmds[1..])
  }

  /** A bare 38 or 48 would take the codes after it for its colour. */
  predicate Standalone(cmd: Command) {
    cmd.Code? ==> cmd.c != 38 && cmd.c != 48
  }

  /** Commands are read as they were written. */
  lemma {:induction false} CommandsRoundTrip(cmds: seq<Command>)
    requires forall i | 0 <= i < |cmds| :: Standalone(cmds[i])
    ensures Commands(AllWritten(cmds)) == cmds
  {
    if cmds != [] {
      var w, rest := Written(cmds[0]), AllWritten(cmds[1..]);
      CommandsRoundTrip(cmds[1..]);
      assert Standalone(cmds[0]);
      FrontOfWritten(cmds[0], rest);
      assert (w + rest)[|w|..] == rest;
      assert cmds == [cmds[0]] + cmds[1..];
    }
  }

  lemma FrontOfWritten(cmd: Command, rest: seq<nat>)
    requires Standalone(cmd)
    ensures Front(Written(cmd) + rest) == cmd
  {
    var codes := Written(cmd) + rest;
    assert forall i | 0 <= i < |Written(cmd)| :: Field(codes, i) == Written(cmd)[i];
  }

  // ---------------------------------------------------------------- what a command says of an attribute

  datatype Flag = Bold | Dim | Italic | Underline | Inverse | Strike

  function Has(f: Font, flag: Flag): bool {
    match flag
    case Bold => f.bold
    case Dim => f.dim
    case Italic => f.italic
    case Underline => f.underline
    case Inverse => f.inverse
    case Strike => f.strike
  }

  function OnCode(flag: Flag): nat {
    match flag
    case Bold => 1
    case Dim => 2
    case Italic => 3
    case Underline => 4
    case Inverse => 7
    case Strike => 9
  }

  function OffCode(flag: Flag): nat {
    match flag
    case Bold => 22
    case Dim => 22
    case Italic => 23
    case Underline => 24
    case Inverse => 27
    case Strike => 29
  }

  function FlagOf(flag: Flag): Command -> Option<bool> {
    (cmd: Command) =>
      if cmd == Code(OnCode(flag)) then Some(true)
      else if cmd == Code(OffCode(flag)) || cmd == Code(0) then Some(false)
      else None
  }

  /** Eight colours from one code on, eight bright ones from another; a code and a reset that unset. */
  function ColorOf(behind: bool): Command -> Option<Option<Color>> {
    (cmd: Command) =>
      match cmd
      case Indexed(b, n) => if b == behind then Some(Some(Ansi256(n))) else None
      case Direct(b, red, green, blue) => if b == behind then Some(Some(Rgb(red, green, blue))) else None
      case Code(c) =>
        var base := if behind then 40 else 30;
        if base <= c < base + 8 then Some(Some(Palette(c - base)))
        else if base + 60 <= c < base + 68 then Some(Some(Palette(c - base - 60 + 8)))
        else if c == base + 9 || c == 0 then Some(None)
        else None
  }

  /** The last command that says something decides; without one the value stays. */
  ghost predicate Decided<T(!new)>(before: T, after: T, cmds: seq<Command>, says: Command -> Option<T>) {
    || (after == before && forall i | 0 <= i < |cmds| :: says(cmds[i]).None?)
    || exists k :: 0 <= k < |cmds| && says(cmds[k]) == Some(after) && Silent(cmds, k + 1, says)
  }

  ghost predicate Silent<T(!new)>(cmds: seq<Command>, from: nat, says: Command -> Option<T>) {
    forall i | from <= i < |cmds| :: says(cmds[i]).None?
  }

  lemma DecidedFirst<T(!new)>(before: T, between: T, after: T, cmd: Command, cmds: seq<Command>, says: Command -> Option<T>)
    requires between == if says(cmd).Some? then says(cmd).value else before
    requires Decided(between, after, cmds, says)
    ensures Decided(before, after, [cmd] + cmds, says)
  {
    var all := [cmd] + cmds;
    if after == between && forall i | 0 <= i < |cmds| :: says(cmds[i]).None? {
      assert forall i | 1 <= i < |all| :: all[i] == cmds[i - 1];
      if says(cmd).Some? { assert all[0] == cmd && Silent(all, 1, says); }
    } else {
      var k :| 0 <= k < |cmds| && says(cmds[k]) == Some(after) && Silent(cmds, k + 1, says);
      assert all[k + 1] == cmds[k] && forall i | k + 2 <= i < |all| :: all[i] == cmds[i - 1];
      assert Silent(all, k + 2, says);
    }
  }

  lemma FlagSays(f: Font, c: nat, flag: Flag)
    requires 0 < c < 30
    ensures Has(SetFlag(f, c), flag) == (c == OnCode(flag) || (Has(f, flag) && c != OffCode(flag)))
  {
  }

  lemma ColorKeepsFlags(s: Style, c: nat, flag: Flag)
    ensures Has(SetColor(s, c).font, flag) == Has(s.font, flag)
  {
  }

  /** What the first command says of a flag. */
  lemma FirstFlag(s: Style, codes: seq<nat>, flag: Flag)
    requires codes != []
    ensures var said := FlagOf(flag)(Front(codes));
            Has(First(s, codes).font, flag) == if said.Some? then said.value else Has(s.font, flag)
  {
    var c := codes[0];
    if 0 < c < 30 {
      FlagSays(s.font, c, flag);
      hide Has, SetFlag;
    } else if c >= 30 {
      ColorKeepsFlags(s, c, flag);
      hide SetColor;
    }
  }

  function ColorAt(s: Style, behind: bool): Option<Color> {
    if behind then s.bg else s.fg
  }

  lemma ColorSays(s: Style, c: nat, behind: bool)
    requires c >= 30 && c != 38 && c != 48
    ensures var said := ColorOf(behind)(Code(c));
            ColorAt(SetColor(s, c), behind) == if said.Some? then said.value else ColorAt(s, behind)
  {
    if behind { BackColorSays(s, c); } else { TextColorSays(s, c); }
    hide SetColor, ColorOf;
  }

  lemma TextColorSays(s: Style, c: nat)
    requires c >= 30 && c != 38 && c != 48
    ensures SetColor(s, c).fg == if ColorOf(false)(Code(c)).Some? then ColorOf(false)(Code(c)).value else s.fg
  {
  }

  lemma BackColorSays(s: Style, c: nat)
    requires c >= 30 && c != 38 && c != 48
    ensures SetColor(s, c).bg == if ColorOf(true)(Code(c)).Some? then ColorOf(true)(Code(c)).value else s.bg
  {
  }

  /** What the first command says of a colour. */
  lemma FirstColor(s: Style, codes: seq<nat>, behind: bool)
    requires codes != []
    ensures var said := ColorOf(behind)(Front(codes));
            ColorAt(First(s, codes), behind) == if said.Some? then said.value else ColorAt(s, behind)
  {
    var c := codes[0];
    if 0 < c < 30 {
      hide SetFlag;
    } else if c >= 30 && c != 38 && c != 48 {
      ColorSays(s, c, behind);
      hide SetColor, ColorOf;
    }
  }

  /** The codes after the first command. */
  lemma FirstWidth(codes: seq<nat>)
    requires codes != []
    ensures Drop(codes, |Written(Front(codes))|) == codes[Width(codes)..]
  {
  }

  lemma {:induction false} FlagDecided(s: Style, codes: seq<nat>, flag: Flag)
    ensures Decided(Has(s.font, flag), Has(Applied(s, codes).font, flag), Commands(codes), FlagOf(flag))
    decreases |codes|
  {
    if codes != [] {
      var t, rest := First(s, codes), codes[Width(codes)..];
      FlagDecided(t, rest, flag);
      FirstFlag(s, codes, flag);
      FirstWidth(codes);
      var u := Applied(s, codes);
      assert Commands(codes) == [Front(codes)] + Commands(rest) && Applied(t, rest) == u;
      hide *;
      DecidedFirst(Has(s.font, flag), Has(t.font, flag), Has(u.font, flag), Front(codes), Commands(rest), FlagOf(flag));
    }
  }

  lemma {:induction false} ColorDecided(s: Style, codes: seq<nat>, behind: bool)
    ensures Decided(ColorAt(s, behind), ColorAt(Applied(s, codes), behind), Commands(codes), ColorOf(behind))
    decreases |codes|
  {
    if codes != [] {
      var t, rest := First(s, codes), codes[Width(codes)..];
      ColorDecided(t, rest, behind);
      FirstColor(s, codes, behind);
      FirstWidth(codes);
      var u := Applied(s, codes);
      assert Commands(codes) == [Front(codes)] + Commands(rest) && Applied(t, rest) == u;
      hide *;
      DecidedFirst(ColorAt(s, behind), ColorAt(t, behind), ColorAt(u, behind), Front(codes), Commands(rest), ColorOf(behind));
    }
  }

  /** After any codes each colour and each flag is what the last command about it says. */
  lemma EachDecided(s: Style, codes: seq<nat>)
    ensures var t, cmds := Applied(s, codes), Commands(codes);
            && Decided(s.fg, t.fg, cmds, ColorOf(false))
            && Decided(s.bg, t.bg, cmds, ColorOf(true))
            && forall flag :: Decided(Has(s.font, flag), Has(t.font, flag), cmds, FlagOf(flag))
  {
    ColorDecided(s, codes, false);
    ColorDecided(s, codes, true);
    hide Decided, Applied, Commands, Has, FlagOf, ColorOf;
    forall flag ensures Decided(Has(s.font, flag), Has(Applied(s, codes).font, flag), Commands(codes), FlagOf(flag)) {
      FlagDecided(s, codes, flag);
    }
  }

  /** Nothing from before a reset is left. */
  lemma ResetForgets(s: Style, s': Style, codes: seq<nat>, k: nat)
    requires k < |Commands(codes)| && Commands(codes)[k] == Code(0)
    ensures Applied(s, codes) == Applied(s', codes)
    ensures k == |Commands(codes)| - 1 ==> Applied(s, codes) == FRESH
  {
    EachDecided(s, codes);
    EachDecided(s', codes);
    hide Decided, Commands, Applied;
    var t, t', cmds := Applied(s, codes), Applied(s', codes), Commands(codes);
    OneDecision(s.fg, s'.fg, t.fg, t'.fg, cmds, k, ColorOf(false));
    OneDecision(s.bg, s'.bg, t.bg, t'.bg, cmds, k, ColorOf(true));
    hide ColorOf;
    forall flag ensures Has(t.font, flag) == Has(t'.font, flag) && (k == |cmds| - 1 ==> !Has(t.font, flag)) {
      OneDecision(Has(s.font, flag), Has(s'.font, flag), Has(t.font, flag), Has(t'.font, flag), cmds, k, FlagOf(flag));
    }
    SameFont(t.font, t'.font);
    if k == |cmds| - 1 { SameFont(t.font, FRESH.font); }
  }

  lemma SameFont(f: Font, g: Font)
    requires forall flag :: Has(f, flag) == Has(g, flag)
    ensures f == g
  {
    assert Has(f, Bold) == Has(g, Bold) && Has(f, Dim) == Has(g, Dim) && Has(f, Italic) == Has(g, Italic);
    assert Has(f, Underline) == Has(g, Underline) && Has(f, Inverse) == Has(g, Inverse) && Has(f, Strike) == Has(g, Strike);
  }

  /** When some command speaks, what was there before does not matter. */
  lemma OneDecision<T(!new)>(a: T, b: T, x: T, y: T, cmds: seq<Command>, k: nat, says: Command -> Option<T>)
    requires k < |cmds| && says(cmds[k]).Some?
    requires Decided(a, x, cmds, says) && Decided(b, y, cmds, says)
    ensures x == y && (k == |cmds| - 1 ==> says(cmds[k]) == Some(x))
  {
    var i :| 0 <= i < |cmds| && says(cmds[i]) == Some(x) && Silent(cmds, i + 1, says);
    var j :| 0 <= j < |cmds| && says(cmds[j]) == Some(y) && Silent(cmds, j + 1, says);
  }

  // ---------------------------------------------------------------- the colour table

  /** How strong a component of the colour cube is at each of its six levels. */
  function Level(k: nat): nat {
    if k == 0 then 0 else 55 + 40 * k
  }

  /** Sixteen palette colours, a cube of 6 by 6 by 6, and a grey ramp. */
  lemma ColorTable(r: nat, g: nat, b: nat, k: nat)
    requires r < 6 && g < 6 && b < 6
    ensures k < 16 ==> Ansi256(k) == Palette(k)
    ensures Ansi256(16 + 36 * r + 6 * g + b) == Rgb(Level(r), Level(g), Level(b))
    ensures Ansi256(232 + k) == Rgb(8 + 10 * k, 8 + 10 * k, 8 + 10 * k)
  {
    var i := 36 * r + 6 * g + b;
    assert i / 36 == r && i / 6 == 6 * r + g && i % 6 == b;
    assert (6 * r + g) % 6 == g;
  }

  // ---------------------------------------------------------------- parameters

  predicate IsSeparator(c: char) {
    c == ';' || c == ':'
  }

  predicate AreParams(s: string) {
    forall i | 0 <= i < |s| :: IsParam(s[i])
  }

  /** Numbers, with a separator between each two. */
  function Listed(ns: seq<nat>, seps: string): string
    requires |ns| == |seps| + 1
  {
    if seps == "" then Decimal(ns[0])
    else Listed(ns[..|seps|], seps[..|seps| - 1]) + [seps[|seps| - 1]] + Decimal(ns[|seps|])
  }

  lemma CodesLast(params: string, c: char)
    requires AreParams(params) && IsParam(c)
    ensures AreParams(params + [c])
    ensures Codes(params + [c]) == if IsSeparator(c) then Codes(params) + [0]
                                   else Grown(Codes(params), c as int - '0' as int)
  {
    assert (params + [c])[..|params|] == params;
    hide Grown;
  }

  lemma GrownTo(codes: seq<nat>, n: nat)
    requires codes != []
    ensures Grown(codes[|codes| - 1 := n / 10], n % 10) == codes[|codes| - 1 := n]
  {
  }

  lemma LastIsZero(params: string)
    requires AreParams(params) && (params == "" || IsSeparator(params[|params| - 1]))
    ensures Codes(params)[|Codes(params)| - 1] == 0
  {
    hide Grown;
  }

  /** Digits after a separator make a number of their own. */
  lemma {:induction false} CodesNumber(params: string, n: nat)
    requires AreParams(params) && (params == "" || IsSeparator(params[|params| - 1]))
    ensures AreParams(params + Decimal(n))
    ensures Codes(params + Decimal(n)) == Codes(params)[|Codes(params)| - 1 := n]
    decreases n
  {
    hide Codes, Grown;
    GrownTo(Codes(params), n);
    if n < 10 {
      LastIsZero(params);
      CodesLast(params, Digit(n));
      assert Codes(params)[|Codes(params)| - 1 := 0] == Codes(params);
    } else {
      CodesNumber(params, n / 10);
      CodesLast(params + Decimal(n / 10), Digit(n % 10));
      assert params + Decimal(n / 10) + [Digit(n % 10)] == params + Decimal(n);
    }
  }

  lemma CodesNext(start: string, c: char, n: nat)
    requires AreParams(start) && IsSeparator(c)
    ensures AreParams(start + [c] + Decimal(n)) && Codes(start + [c] + Decimal(n)) == Codes(start) + [n]
  {
    CodesLast(start, c);
    CodesNumber(start + [c], n);
    hide AreParams, Codes, Decimal;
  }

  /** The codes of a sequence are the numbers written in it, whichever separators stand between them. */
  lemma {:induction false} CodesRoundTrip(ns: seq<nat>, seps: string)
    requires |ns| == |seps| + 1 && forall i | 0 <= i < |seps| :: IsSeparator(seps[i])
    ensures AreParams(Listed(ns, seps)) && Codes(Listed(ns, seps)) == ns
  {
    if seps == "" {
      assert Codes("") == [0];
      CodesNumber("", ns[0]);
      hide Codes, Decimal;
      assert "" + Decimal(ns[0]) == Decimal(ns[0]) && [0][0 := ns[0]] == ns;
    } else {
      var n := |seps|;
      hide Codes, Decimal, AreParams;
      CodesRoundTrip(ns[..n], seps[..n - 1]);
      CodesNext(Listed(ns[..n], seps[..n - 1]), seps[n - 1], ns[n]);
      assert ns[..n] + [ns[n]] == ns;
    }
  }

  /** No parameters at all are a reset. */
  lemma NoParameters(s: Style)
    ensures Applied(s, Codes("")) == FRESH
  {
    assert Applied(FRESH, [0][1..]) == FRESH;
  }
}
