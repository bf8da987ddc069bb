/**
 The command line that launches an agent, and the shell that reads it: quoting by sections
 2.2.1 (backslash) and 2.2.2 (single quotes) of the POSIX Shell Command Language, words by
 section 2.3, assignments before the command name by section 2.9.1.
 */
module ShellCommand {
  import opened Prelude
  import opened Text

  // ---------------------------------------------------------------- writing

  function IsLetter(c: char): bool {
    'a' <= c <= 'z' || 'A' <= c <= 'Z'
  }

  predicate IsNameChar(c: char) {
    IsLetter(c) || IsDigit(c) || c == '_'
  }

  predicate IsExecutableChar(c: char) {
    IsNameChar(c) || c == '.' || c == '/' || c == '-'
  }

  predicate SafeExecutable(s: string) {
    s != "" && forall i :: 0 <= i < |s| ==> IsExecutableChar(s[i])
  }

  predicate SafeEnvName(s: string) {
    s != "" && !IsDigit(s[0]) && forall i :: 0 <= i < |s| ==> IsNameChar(s[i])
  }

  /** Every single quote leaves the quotes, comes back escaped, and enters them again. */
  function QuoteBody(value: string): string {
    if value == "" then ""
    else (if value[0] == '\'' then "'\\''" else [value[0]]) + QuoteBody(value[1..])
  }

  function ShellQuote(value: string): string {
    "'" + QuoteBody(value) + "'"
  }

  type Env = seq<(string, string)>

  predicate SafeEnv(env: Env) {
    forall i :: 0 <= i < |env| ==> SafeEnvName(env[i].0)
  }

  function Assignment(pair: (string, string)): string {
    pair.0 + "=" + ShellQuote(pair.1)
  }

  function Parts(env: Env, executable: string, args: seq<string>): seq<string> {
    seq(|env|, i requires 0 <= i < |env| => Assignment(env[i])) + [executable]
    + seq(|args|, i requires 0 <= i < |args| => ShellQuote(args[i]))
  }

  function Spaced(parts: seq<string>): string {
    if parts == [] then ""
    else if |parts| == 1 then parts[0]
    else parts[0] + " " + Spaced(parts[1..])
  }

  datatype LaunchError = UnsafeExecutable | UnsafeEnvName

  /** The executable is checked first, then the names of the environment. */
  function BuildAgentLaunchCommand(executable: string, args: seq<string>, env: Env): Result<string, LaunchError> {
    var exe := Trim(executable);
    if !SafeExecutable(exe) then Err(UnsafeExecutable)
    else if !SafeEnv(env) then Err(UnsafeEnvName)
    else Ok(Spaced(Parts(env, exe, args)))
  }

  // ---------------------------------------------------------------- reading

  /** A character of a word, and whether it was quoted. */
  datatype Ch = Ch(c: char, quoted: bool)

  type Word = seq<Ch>

  /** Characters that stand for themselves outside quotes. */
  predicate IsOrdinary(c: char) {
    IsExecutableChar(c) || c == '=' || c == ':' || c == ',' || c == '@' || c == '%' || c == '+'
  }

  function Begun(cur: Option<Word>): Word {
    if cur.Some? then cur.value else []
  }

  function Ended(cur: Option<Word>): seq<Word> {
    if cur.Some? then [cur.value] else []
  }

  function After(words: seq<Word>, more: Option<seq<Word>>): Option<seq<Word>> {
    if more.Some? then Some(words + more.value) else None
  }

  /** Outside quotes, with the word begun so far. None for what is not plain words. */
  function Lex(s: string, cur: Option<Word>): Option<seq<Word>>
    decreases |s|
  {
    if s == "" then Some(Ended(cur))
    else if s[0] == ' ' || s[0] == '\t' then After(Ended(cur), Lex(s[1..], None))
    else if s[0] == '\'' then LexQuoted(s[1..], Begun(cur))
    else if s[0] == '\\' then
      if |s| == 1 then None
      else if s[1] == '\n' then Lex(s[2..], cur)
      else Lex(s[2..], Some(Begun(cur) + [Ch(s[1], true)]))
    else if IsOrdinary(s[0]) then Lex(s[1..], Some(Begun(cur) + [Ch(s[0], false)]))
    else None
  }

  /** Inside single quotes: every character stands for itself up to the next single quote. */
  function LexQuoted(s: string, cur: Word): Option<seq<Word>>
    decreases |s|
  {
    if s == "" then None
    else if s[0] == '\'' then Lex(s[1..], Some(cur))
    else LexQuoted(s[1..], cur + [Ch(s[0], true)])
  }

  function Chars(w: Word): string {
    seq(|w|, i requires 0 <= i < |w| => w[i].c)
  }

  /** The position of the first unquoted equals sign. */
  function EqualsAt(w: Word): (n: nat)
    ensures n <= |w| && forall i :: 0 <= i < n ==> w[i] != Ch('=', false)
    ensures n < |w| ==> w[n] == Ch('=', false)
  {
    if w == [] || w[0] == Ch('=', false) then 0 else 1 + EqualsAt(w[1..])
  }

  /** An unquoted name and an unquoted equals sign at the front. */
  predicate IsAssignment(w: Word) {
    var n := EqualsAt(w);
    n < |w| && SafeEnvName(Chars(w[..n])) && forall i :: 0 <= i < n ==> !w[i].quoted
  }

  datatype Command = Command(env: Env, name: string, args: seq<string>)

  /** Assignments up to the first word that is none: that word is the command's name. */
  function Interpret(words: seq<Word>): Option<Command> {
    if words == [] then None
    else if IsAssignment(words[0]) then
      var n := EqualsAt(words[0]);
      var rest := Interpret(words[1..]);
      if rest.None? then None
      else Some(rest.value.(env := [(Chars(words[0][..n]), Chars(words[0][n + 1..]))] + rest.value.env))
    else Some(Command([], Chars(words[0]), seq(|words| - 1, i requires 0 <= i < |words| - 1 => Chars(words[i + 1]))))
  }

  // ---------------------------------------------------------------- quoting

  function Marked(s: string, quoted: bool): Word {
    seq(|s|, i requires 0 <= i < |s| => Ch(s[i], quoted))
  }

  lemma MarkedCons(c: char, s: string, quoted: bool, cur: Word)
    ensures cur + [Ch(c, quoted)] + Marked(s, quoted) == cur + Marked([c] + s, quoted)
  {
  }

  lemma CharsOfMarked(s: string, quoted: bool)
    ensures Chars(Marked(s, quoted)) == s
  {
  }

  /** Leaving the quotes, an escaped quote, and back inside. */
  lemma LexEscapedQuote(t: string, cur: Word)
    ensures LexQuoted("'\\''" + t, cur) == LexQuoted(t, cur + [Ch('\'', true)])
  {
    var s, s1, s2 := "'\\''" + t, "\\''" + t, "'" + t;
    assert s[1..] == s1 && s1[2..] == s2 && s2[1..] == t;
    assert s[0] == '\'' && s1[0] == '\\' && s1[1] == '\'' && s2[0] == '\'';
    assert LexQuoted(s, cur) == Lex(s1, Some(cur));
    assert Lex(s1, Some(cur)) == Lex(s2, Some(cur + [Ch('\'', true)]));
  }

  lemma LexQuotedChar(c: char, t: string, cur: Word)
    requires c != '\''
    ensures LexQuoted([c] + t, cur) == LexQuoted(t, cur + [Ch(c, true)])
  {
    assert ([c] + t)[1..] == t;
  }

  lemma {:induction false} LexQuoteBody(value: string, t: string, cur: Word)
    ensures LexQuoted(QuoteBody(value) + ("'" + t), cur) == Lex(t, Some(cur + Marked(value, true)))
  {
    if value == "" {
      assert QuoteBody(value) + ("'" + t) == "'" + t;
      assert ("'" + t)[1..] == t;
      assert cur + Marked(value, true) == cur;
    } else {
      var c, rest := value[0], value[1..];
      var tail := QuoteBody(rest) + ("'" + t);
      assert value == [c] + rest;
      LexQuoteBody(rest, t, cur + [Ch(c, true)]);
      MarkedCons(c, rest, true, cur);
      if c == '\'' {
        assert QuoteBody(value) + ("'" + t) == "'\\''" + tail;
        LexEscapedQuote(tail, cur);
      } else {
        assert QuoteBody(value) + ("'" + t) == [c] + tail;
        LexQuotedChar(c, tail, cur);
      }
    }
  }

  /** A quoted value is read back as itself, whatever it contains. */
  lemma LexQuote(value: string, t: string, cur: Option<Word>)
    ensures Lex(ShellQuote(value) + t, cur) == Lex(t, Some(Begun(cur) + Marked(value, true)))
  {
    var inner := QuoteBody(value) + ("'" + t);
    assert ShellQuote(value) + t == "'" + inner;
    assert ("'" + inner)[1..] == inner;
    LexQuoteBody(value, t, Begun(cur));
  }

  lemma {:induction false} LexOrdinary(s: string, t: string, cur: Option<Word>)
    requires s != "" && forall i :: 0 <= i < |s| ==> IsOrdinary(s[i])
    ensures Lex(s + t, cur) == Lex(t, Some(Begun(cur) + Marked(s, false)))
  {
    var c, rest := s[0], s[1..];
    assert (s + t)[1..] == rest + t;
    MarkedCons(c, rest, false, Begun(cur));
    assert s == [c] + rest;
    if rest == "" {
      assert rest + t == t;
      assert Begun(cur) + [Ch(c, false)] + Marked("", false) == Begun(cur) + [Ch(c, false)];
    } else {
      LexOrdinary(rest, t, Some(Begun(cur) + [Ch(c, false)]));
    }
  }

  // ---------------------------------------------------------------- the words of the command

  function EnvWord(pair: (string, string)): Word {
    Marked(pair.0 + "=", false) + Marked(pair.1, true)
  }

  function Words(env: Env, exe: string, args: seq<string>): seq<Word> {
    seq(|env|, i requires 0 <= i < |env| => EnvWord(env[i])) + [Marked(exe, false)]
    + seq(|args|, i requires 0 <= i < |args| => Marked(args[i], true))
  }

  ghost predicate LexesTo(part: string, w: Word) {
    forall t :: Lex(part + t, None) == Lex(t, Some(w))
  }

  lemma EnvLexes(pair: (string, string))
    requires SafeEnvName(pair.0)
    ensures LexesTo(Assignment(pair), EnvWord(pair))
  {
    forall t ensures Lex(Assignment(pair) + t, None) == Lex(t, Some(EnvWord(pair))) {
      var name, quoted := pair.0 + "=", ShellQuote(pair.1);
      assert Assignment(pair) + t == name + (quoted + t);
      LexOrdinary(name, quoted + t, None);
      LexQuote(pair.1, t, Some(Marked(name, false)));
      assert [] + Marked(name, false) == Marked(name, false);
    }
  }

  lemma ExecutableLexes(exe: string)
    requires SafeExecutable(exe)
    ensures LexesTo(exe, Marked(exe, false))
  {
    forall t ensures Lex(exe + t, None) == Lex(t, Some(Marked(exe, false))) {
      LexOrdinary(exe, t, None);
      assert [] + Marked(exe, false) == Marked(exe, false);
    }
  }

  lemma ArgLexes(arg: string)
    ensures LexesTo(ShellQuote(arg), Marked(arg, true))
  {
    forall t ensures Lex(ShellQuote(arg) + t, None) == Lex(t, Some(Marked(arg, true))) {
      LexQuote(arg, t, None);
      assert [] + Marked(arg, true) == Marked(arg, true);
    }
  }

  lemma {:induction false} SpacedLexes(parts: seq<string>, words: seq<Word>)
    requires |parts| == |words| > 0 && forall i :: 0 <= i < |parts| ==> LexesTo(parts[i], words[i])
    ensures Lex(Spaced(parts), None) == Some(words)
  {
    if |parts| == 1 {
      assert parts[0] + "" == parts[0];
      assert words == [words[0]];
    } else {
      SpacedLexes(parts[1..], words[1..]);
      var rest := Spaced(parts[1..]);
      assert Spaced(parts) == parts[0] + (" " + rest);
      assert (" " + rest)[1..] == rest;
      assert Lex(" " + rest, Some(words[0])) == After([words[0]], Lex(rest, None));
      assert words == [words[0]] + words[1..];
    }
  }

  lemma PartsLex(env: Env, exe: string, args: seq<string>)
    requires SafeEnv(env) && SafeExecutable(exe)
    ensures Lex(Spaced(Parts(env, exe, args)), None) == Some(Words(env, exe, args))
  {
    var parts, words := Parts(env, exe, args), Words(env, exe, args);
    forall i | 0 <= i < |parts| ensures LexesTo(parts[i], words[i]) {
      if i < |env| {
        EnvLexes(env[i]);
      } else if i == |env| {
        ExecutableLexes(exe);
      } else {
        ArgLexes(args[i - |env| - 1]);
      }
    }
    SpacedLexes(parts, words);
  }

  // ---------------------------------------------------------------- what the words mean

  lemma EnvWordEquals(pair: (string, string))
    requires SafeEnvName(pair.0)
    ensures EqualsAt(EnvWord(pair)) == |pair.0|
    ensures IsAssignment(EnvWord(pair))
    ensures Chars(EnvWord(pair)[..|pair.0|]) == pair.0
    ensures Chars(EnvWord(pair)[|pair.0| + 1..]) == pair.1
  {
    var w, n := EnvWord(pair), |pair.0|;
    assert forall i :: 0 <= i < n ==> w[i] == Ch(pair.0[i], false) && pair.0[i] != '=';
    assert w[n] == Ch('=', false);
    assert w[..n] == Marked(pair.0, false);
    assert w[n + 1..] == Marked(pair.1, true);
    CharsOfMarked(pair.0, false);
    CharsOfMarked(pair.1, true);
  }

  lemma ExecutableIsNoAssignment(exe: string)
    requires SafeExecutable(exe)
    ensures !IsAssignment(Marked(exe, false))
  {
    var n := EqualsAt(Marked(exe, false));
    assert forall i :: 0 <= i < |exe| ==> IsExecutableChar(exe[i]);
  }

  lemma {:induction false} WordsMean(env: Env, exe: string, args: seq<string>)
    requires SafeEnv(env) && SafeExecutable(exe)
    ensures Interpret(Words(env, exe, args)) == Some(Command(env, exe, args))
  {
    var words := Words(env, exe, args);
    if env == [] {
      assert words[0] == Marked(exe, false);
      ExecutableIsNoAssignment(exe);
      CharsOfMarked(exe, false);
      ArgsMean(words, exe, args);
    } else {
      EnvWordEquals(env[0]);
      assert words[0] == EnvWord(env[0]) && words[1..] == Words(env[1..], exe, args);
      WordsMean(env[1..], exe, args);
      assert env == [env[0]] + env[1..];
    }
  }

  lemma ArgsMean(words: seq<Word>, exe: string, args: seq<string>)
    requires words == Words([], exe, args)
    ensures seq(|words| - 1, i requires 0 <= i < |words| - 1 => Chars(words[i + 1])) == args
  {
    var read := seq(|words| - 1, i requires 0 <= i < |words| - 1 => Chars(words[i + 1]));
    forall i | 0 <= i < |args| ensures read[i] == args[i] {
      CharsOfMarked(args[i], true);
      assert words[i + 1] == Marked(args[i], true);
    }
  }

  /**
   The command is refused exactly for an unsafe executable or environment name; otherwise the
   shell reads back the environment, the executable, and the arguments, whatever they contain.
   */
  lemma LaunchRoundTrip(executable: string, args: seq<string>, env: Env)
    ensures var built := BuildAgentLaunchCommand(executable, args, env);
            && (built.Ok? <==> SafeExecutable(Trim(executable)) && SafeEnv(env))
            && (built.Ok? ==>
                  var words := Lex(built.value, None);
                  words.Some? && Interpret(words.value) == Some(Command(env, Trim(executable), args)))
  {
    var exe := Trim(executable);
    if SafeExecutable(exe) && SafeEnv(env) {
      PartsLex(env, exe, args);
      WordsMean(env, exe, args);
    }
  }
}
