/**
 Escaping text for HTML and undoing it, both as chains of replacements over the whole text.
 The order of the chains matters; per character they are a table and its inverse.
 */
module HtmlEscape {
  /** String.replaceAll: every occurrence from the left, none overlapping another. */
  function ReplaceAll(s: string, pat: string, rep: string): string
    requires pat != ""
  {
    if |s| < |pat| then s
    else if pat <= s then rep + ReplaceAll(s[|pat|..], pat, rep)
    else [s[0]] + ReplaceAll(s[1..], pat, rep)
  }

  function EscapeHtml(value: string): string {
    var s1 := ReplaceAll(value, "&", "&amp;");
    var s2 := ReplaceAll(s1, "<", "&lt;");
    var s3 := ReplaceAll(s2, ">", "&gt;");
    var s4 := ReplaceAll(s3, "\"", "&quot;");
    ReplaceAll(s4, "'", "&#039;")
  }

  function UnescapeHtmlEntities(value: string): string {
    var s1 := ReplaceAll(value, "&lt;", "<");
    var s2 := ReplaceAll(s1, "&gt;", ">");
    var s3 := ReplaceAll(s2, "&quot;", "\"");
    var s4 := ReplaceAll(s3, "&#039;", "'");
    ReplaceAll(s4, "&amp;", "&")
  }

  // ---------------------------------------------------------------- one character at a time

  function Mapped(s: string, f: char -> string): string {
    if s == "" then "" else f(s[0]) + Mapped(s[1..], f)
  }

  function Entity(c: char): (e: string)
    ensures e != ""
  {
    match c
    case '&' => "&amp;"
    case '<' => "&lt;"
    case '>' => "&gt;"
    case '"' => "&quot;"
    case '\'' => "&#039;"
    case _ => [c]
  }

  /** The entities of the first n characters of the chain's order, nothing else. */
  function EscapedUpTo(n: nat): char -> string {
    c => if Rank(c) < n then Entity(c) else [c]
  }

  /** The place of a character in the escaping chain. */
  function Rank(c: char): nat {
    match c
    case '&' => 0
    case '<' => 1
    case '>' => 2
    case '"' => 3
    case '\'' => 4
    case _ => 5
  }

  /** What the entities are after the first n replacements of the unescaping chain. */
  function UnescapedUpTo(n: nat): char -> string {
    c => if (0 < Rank(c) <= n) || (Rank(c) == 0 && n >= 5) then [c] else Entity(c)
  }

  /** A piece in which the pattern, which starts with an ampersand, cannot start. */
  predicate Clear(piece: string, pat: string) {
    piece != ""
    && (exists j :: 0 <= j < |piece| && j < |pat| && piece[j] != pat[j])
    && forall i :: 0 < i < |piece| ==> piece[i] != pat[0]
  }

  /** What one replacement does to a piece: nothing, or all of it is the pattern. */
  predicate Turns(piece: string, result: string, pat: string, rep: string)
    requires pat != ""
  {
    (Clear(piece, pat) && result == piece) || (piece == pat && result == rep)
  }

  lemma ReplaceStep(c: char, t: string, pat: string, rep: string)
    requires pat != "" && !(pat <= [c] + t)
    ensures ReplaceAll([c] + t, pat, rep) == [c] + ReplaceAll(t, pat, rep)
  {
    assert ([c] + t)[1..] == t;
  }

  lemma {:induction false} SkipPlain(s: string, t: string, pat: string, rep: string)
    requires pat != "" && forall i :: 0 <= i < |s| ==> s[i] != pat[0]
    ensures ReplaceAll(s + t, pat, rep) == s + ReplaceAll(t, pat, rep)
  {
    if s == "" {
      assert s + t == t;
    } else {
      SkipPlain(s[1..], t, pat, rep);
      assert s + t == [s[0]] + (s[1..] + t);
      ReplaceStep(s[0], s[1..] + t, pat, rep);
    }
  }

  lemma CannotStart(piece: string, t: string, pat: string)
    requires pat != "" && Clear(piece, pat)
    ensures !(pat <= piece + t)
  {
    var j :| 0 <= j < |piece| && j < |pat| && piece[j] != pat[j];
    assert (piece + t)[j] == piece[j];
  }

  lemma SkipPiece(piece: string, t: string, pat: string, rep: string)
    requires pat != "" && Clear(piece, pat)
    ensures ReplaceAll(piece + t, pat, rep) == piece + ReplaceAll(t, pat, rep)
  {
    CannotStart(piece, t, pat);
    var c, tail := piece[0], piece[1..];
    assert piece + t == [c] + (tail + t) && piece == [c] + tail;
    ReplaceStep(c, tail + t, pat, rep);
    SkipPlain(tail, t, pat, rep);
  }

  lemma ReplaceFirst(t: string, pat: string, rep: string)
    requires pat != ""
    ensures ReplaceAll(pat + t, pat, rep) == rep + ReplaceAll(t, pat, rep)
  {
    assert (pat + t)[|pat|..] == t;
  }

  /** One replacement turns one table into the next. */
  lemma {:induction false} Pass(s: string, pat: string, rep: string, f: char -> string, g: char -> string)
    requires pat != ""
    requires forall c :: Turns(f(c), g(c), pat, rep)
    ensures ReplaceAll(Mapped(s, f), pat, rep) == Mapped(s, g)
  {
    if s != "" {
      Pass(s[1..], pat, rep, f, g);
      assert Turns(f(s[0]), g(s[0]), pat, rep);
      if Clear(f(s[0]), pat) && g(s[0]) == f(s[0]) {
        SkipPiece(f(s[0]), Mapped(s[1..], f), pat, rep);
      } else {
        ReplaceFirst(Mapped(s[1..], f), pat, rep);
      }
    }
  }

  lemma {:induction false} MappedSame(s: string)
    ensures Mapped(s, EscapedUpTo(0)) == s && Mapped(s, UnescapedUpTo(5)) == s
  {
    if s != "" {
      MappedSame(s[1..]);
      assert s == [s[0]] + s[1..];
    }
  }

  lemma {:induction false} MappedEqual(s: string, f: char -> string, g: char -> string)
    requires forall c :: f(c) == g(c)
    ensures Mapped(s, f) == Mapped(s, g)
  {
    if s != "" { MappedEqual(s[1..], f, g); }
  }

  /** The characters that are escaped, in the order of the escaping chain. */
  const SPECIAL: string := "&<>\"'"

  lemma EscapeTurns(n: nat, c: char)
    requires n < 5
    ensures Turns(EscapedUpTo(n)(c), EscapedUpTo(n + 1)(c), [SPECIAL[n]], Entity(SPECIAL[n]))
  {
    if c == SPECIAL[n] || Rank(c) >= n {
    } else {
      var e := Entity(c);
      assert e[0] == '&' && SPECIAL[n] != '&';
    }
  }

  lemma EscapePass(s: string, n: nat, pat: string, rep: string)
    requires n < 5 && pat == [SPECIAL[n]] && rep == Entity(SPECIAL[n])
    ensures ReplaceAll(Mapped(s, EscapedUpTo(n)), pat, rep) == Mapped(s, EscapedUpTo(n + 1))
  {
    forall c ensures Turns(EscapedUpTo(n)(c), EscapedUpTo(n + 1)(c), pat, rep) {
      EscapeTurns(n, c);
    }
    Pass(s, pat, rep, EscapedUpTo(n), EscapedUpTo(n + 1));
  }

  lemma EscapeFirst(s: string)
    ensures ReplaceAll(s, "&", "&amp;") == Mapped(s, EscapedUpTo(1))
  {
    MappedSame(s);
    EscapePass(s, 0, "&", "&amp;");
  }

  lemma EscapeLast(s: string)
    ensures Mapped(s, EscapedUpTo(5)) == Mapped(s, Entity)
  {
    forall c ensures EscapedUpTo(5)(c) == Entity(c) {
      if Rank(c) == 5 { assert Entity(c) == [c]; }
    }
    MappedEqual(s, EscapedUpTo(5), Entity);
  }

  lemma EscapeTags(s: string)
    ensures ReplaceAll(ReplaceAll(Mapped(s, EscapedUpTo(1)), "<", "&lt;"), ">", "&gt;") == Mapped(s, EscapedUpTo(3))
  {
    EscapePass(s, 1, "<", "&lt;");
    EscapePass(s, 2, ">", "&gt;");
  }

  lemma EscapeQuotes(s: string)
    ensures ReplaceAll(ReplaceAll(Mapped(s, EscapedUpTo(3)), "\"", "&quot;"), "'", "&#039;") == Mapped(s, Entity)
  {
    EscapePass(s, 3, "\"", "&quot;");
    EscapePass(s, 4, "'", "&#039;");
    EscapeLast(s);
  }

  /** The chain of replacements maps each character to its entity. */
  lemma EscapeIsEntities(s: string)
    ensures EscapeHtml(s) == Mapped(s, Entity)
  {
    EscapeFirst(s);
    EscapeTags(s);
    EscapeQuotes(s);
  }

  lemma PlainClear(c: char, pat: string)
    requires pat != "" && c != pat[0]
    ensures Clear([c], pat)
  {
    assert [c][0] != pat[0];
  }

  /** Two entities differ in their second character. */
  lemma EntitiesClear(a: char, b: char)
    requires a != b && Rank(a) < 5 && Rank(b) < 5
    ensures Clear(Entity(a), Entity(b))
  {
    assert Entity(a)[1] != Entity(b)[1];
  }

  lemma UnescapeTurns(n: nat, special: char, c: char)
    requires n < 5 && special == SPECIAL[(n + 1) % 5]
    ensures Turns(UnescapedUpTo(n)(c), UnescapedUpTo(n + 1)(c), Entity(special), [special])
  {
    if c != special {
      if UnescapedUpTo(n)(c) == [c] {
        PlainClear(c, Entity(special));
      } else {
        EntitiesClear(c, special);
      }
    }
  }

  lemma UnescapePass(s: string, n: nat, pat: string, rep: string)
    requires n < 5 && rep == [SPECIAL[(n + 1) % 5]] && pat == Entity(rep[0])
    ensures ReplaceAll(Mapped(s, UnescapedUpTo(n)), pat, rep) == Mapped(s, UnescapedUpTo(n + 1))
  {
    forall c ensures Turns(UnescapedUpTo(n)(c), UnescapedUpTo(n + 1)(c), pat, rep) {
      UnescapeTurns(n, rep[0], c);
    }
    Pass(s, pat, rep, UnescapedUpTo(n), UnescapedUpTo(n + 1));
  }

  lemma UnescapeEntities(s: string)
    ensures UnescapeHtmlEntities(Mapped(s, Entity)) == s
  {
    MappedEqual(s, Entity, UnescapedUpTo(0));
    UnescapePass(s, 0, "&lt;", "<");
    UnescapePass(s, 1, "&gt;", ">");
    UnescapePass(s, 2, "&quot;", "\"");
    UnescapePass(s, 3, "&#039;", "'");
    UnescapePass(s, 4, "&amp;", "&");
    MappedSame(s);
  }

  /** Unescaping undoes escaping; that the ampersand comes last is what makes it so. */
  lemma UnescapeEscape(s: string)
    ensures UnescapeHtmlEntities(EscapeHtml(s)) == s
  {
    EscapeIsEntities(s);
    UnescapeEntities(s);
  }
}
