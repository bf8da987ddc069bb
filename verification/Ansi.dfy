/**
 The renderer of terminal text. It escapes and wraps whole chunks between SGR sequences; it
 is shown to agree with a renderer that goes one character at a time.
 */
module Ansi {
  import opened Prelude
  import opened AnsiStyle
  import opened HtmlEscape

  const ESC: char := '\U{1B}'

  // ---------------------------------------------------------------- SGR sequences

  function ParamsEnd(s: string, i: nat): (n: nat)
    requires i <= |s|
    ensures i <= n <= |s| && forall k :: i <= k < n ==> IsParam(s[k])
    decreases |s| - i
  {
    if i == |s| || !IsParam(s[i]) then i else ParamsEnd(s, i + 1)
  }

  /** The end of the SGR sequence at i: escape, bracket, parameters, and a final m. */
  function SgrEnd(s: string, i: nat): (e: Option<nat>)
    requires i <= |s|
    ensures e.Some? ==> i + 3 <= e.value <= |s| && forall k :: i + 2 <= k < e.value - 1 ==> IsParam(s[k])
  {
    if i + 2 < |s| && s[i] == ESC && s[i + 1] == '[' then
      var n := ParamsEnd(s, i + 2);
      if n < |s| && s[n] == 'm' then Some(n + 1) else None
    else None
  }

  /** A sequence is the escape, a bracket, any parameters, and an m; nothing else is one. */
  lemma SgrExactly(s: string, i: nat, e: nat)
    requires i < e <= |s|
    ensures SgrEnd(s, i) == Some(e) <==>
              && e >= i + 3 && s[i] == ESC && s[i + 1] == '[' && s[e - 1] == 'm'
              && forall k :: i + 2 <= k < e - 1 ==> IsParam(s[k])
  {
    if e >= i + 3 && s[i] == ESC && s[i + 1] == '[' && s[e - 1] == 'm' && forall k :: i + 2 <= k < e - 1 ==> IsParam(s[k]) {
      ParamsUpTo(s, i + 2, e - 1);
    }
  }

  lemma {:induction false} ParamsUpTo(s: string, i: nat, n: nat)
    requires i <= n < |s| && !IsParam(s[n]) && forall k :: i <= k < n ==> IsParam(s[k])
    ensures ParamsEnd(s, i) == n
    decreases n - i
  {
    if i < n { ParamsUpTo(s, i + 1, n); }
  }

  function SgrCodes(s: string, i: nat): seq<nat>
    requires i <= |s| && SgrEnd(s, i).Some?
  {
    var params := s[i + 2..SgrEnd(s, i).value - 1];
    Codes(params)
  }

  // ---------------------------------------------------------------- one character at a time

  datatype Glyph = Glyph(c: char, css: string)

  /** From i on: each character outside SGR sequences, in the style all the sequences before it set. */
  function Reference(css: Style -> string, s: string, i: nat, style: Style): seq<Glyph>
    requires i <= |s|
    decreases |s| - i
  {
    if i == |s| then []
    else if SgrEnd(s, i).Some? then
      Reference(css, s, SgrEnd(s, i).value, Applied(style, SgrCodes(s, i)))
    else [Glyph(s[i], css(style))] + Reference(css, s, i + 1, style)
  }

  /** The text with its SGR sequences removed. */
  function Plain(s: string, i: nat): string
    requires i <= |s|
    decreases |s| - i
  {
    if i == |s| then ""
    else if SgrEnd(s, i).Some? then Plain(s, SgrEnd(s, i).value)
    else [s[i]] + Plain(s, i + 1)
  }

  function Styled(text: string, css: string): (r: seq<Glyph>)
    ensures |r| == |text| && forall k :: 0 <= k < |r| ==> r[k] == Glyph(text[k], css)
  {
    seq(|text|, k requires 0 <= k < |text| => Glyph(text[k], css))
  }

  predicate NoSgr(s: string, from: nat, to: nat)
    requires to <= |s|
  {
    forall k :: from <= k < to ==> SgrEnd(s, k).None?
  }

  lemma StyledCons(c: char, text: string, css: string)
    ensures Styled([c] + text, css) == [Glyph(c, css)] + Styled(text, css)
  {
  }

  lemma {:induction false} SkipChunk(css: Style -> string, s: string, i: nat, j: nat, style: Style)
    requires i <= j <= |s| && NoSgr(s, i, j)
    ensures Reference(css, s, i, style) == Styled(s[i..j], css(style)) + Reference(css, s, j, style)
    decreases j - i
  {
    if i < j {
      SkipChunk(css, s, i + 1, j, style);
      assert s[i..j] == [s[i]] + s[i + 1..j];
      StyledCons(s[i], s[i + 1..j], css(style));
      Regroup(Glyph(s[i], css(style)), Styled(s[i + 1..j], css(style)), Reference(css, s, j, style));
    }
  }

  lemma Regroup<T>(x: T, a: seq<T>, b: seq<T>)
    ensures [x] + (a + b) == ([x] + a) + b
  {
  }

  lemma {:induction false} SkipPlainChunk(s: string, i: nat, j: nat, rest: string)
    requires i <= j <= |s| && NoSgr(s, i, j) && rest == Plain(s, j)
    ensures Plain(s, i) == s[i..j] + rest
    decreases j - i
  {
    if i < j {
      SkipPlainChunk(s, i + 1, j, rest);
      assert s[i..j] == [s[i]] + s[i + 1..j];
      Regroup(s[i], s[i + 1..j], rest);
    }
  }

  /** The reference renderer shows the text without its sequences. */
  lemma {:induction false} ReferenceText(css: Style -> string, s: string, i: nat, style: Style)
    requires i <= |s|
    ensures |Reference(css, s, i, style)| == |Plain(s, i)|
    ensures forall k :: 0 <= k < |Plain(s, i)| ==> Reference(css, s, i, style)[k].c == Plain(s, i)[k]
    decreases |s| - i
  {
    if i < |s| {
      if SgrEnd(s, i).Some? {
        ReferenceText(css, s, SgrEnd(s, i).value, Applied(style, SgrCodes(s, i)));
      } else {
        ReferenceText(css, s, i + 1, style);
      }
    }
  }

  // ---------------------------------------------------------------- reading the HTML

  /** The position of the first c. */
  function Find(s: string, c: char): (n: nat)
    ensures n <= |s| && (forall k :: 0 <= k < n ==> s[k] != c) && (n < |s| ==> s[n] == c)
  {
    if s == "" || s[0] == c then 0 else 1 + Find(s[1..], c)
  }

  const OPEN := "<span style=\""
  const CLOSE := "</span>"

  /** The style that a tag puts in force, given the tag without its brackets' end. */
  function TagCss(tag: string): string {
    if OPEN <= tag && |tag| > |OPEN| then tag[|OPEN|..|tag| - 1] else ""
  }

  /** The special character whose entity stands at the front. */
  function EntityAt(html: string): Option<char> {
    if Entity('&') <= html then Some('&')
    else if Entity('<') <= html then Some('<')
    else if Entity('>') <= html then Some('>')
    else if Entity('"') <= html then Some('"')
    else if Entity('\'') <= html then Some('\'')
    else None
  }

  /** What a browser shows: tags set the style, entities are decoded, the rest stands for itself. */
  function Shown(html: string, css: string): seq<Glyph>
    decreases |html|
  {
    if html == "" then []
    else if html[0] == '<' then
      var n := Find(html, '>');
      if n == |html| then [] else Shown(html[n + 1..], TagCss(html[..n]))
    else if EntityAt(html).Some? then
      var c := EntityAt(html).value;
      [Glyph(c, css)] + Shown(html[|Entity(c)|..], css)
    else [Glyph(html[0], css)] + Shown(html[1..], css)
  }

  /** The HTML without its tags. */
  function StripTags(html: string): string
    decreases |html|
  {
    if html == "" then ""
    else if html[0] == '<' then
      var n := Find(html, '>');
      if n == |html| then "" else StripTags(html[n + 1..])
    else [html[0]] + StripTags(html[1..])
  }

  // ---------------------------------------------------------------- chunks

  datatype Chunk = Chunk(text: string, css: string)

  function Emitted(chunk: Chunk): string {
    if chunk.text == "" then ""
    else if chunk.css == "" then EscapeHtml(chunk.text)
    else OPEN + chunk.css + "\">" + EscapeHtml(chunk.text) + CLOSE
  }

  function Html(chunks: seq<Chunk>): string {
    if chunks == [] then "" else Emitted(chunks[0]) + Html(chunks[1..])
  }

  function Glyphs(chunks: seq<Chunk>): seq<Glyph> {
    if chunks == [] then [] else Styled(chunks[0].text, chunks[0].css) + Glyphs(chunks[1..])
  }

  function Text(chunks: seq<Chunk>): string {
    if chunks == [] then "" else chunks[0].text + Text(chunks[1..])
  }

  predicate CleanChunks(chunks: seq<Chunk>) {
    forall k :: 0 <= k < |chunks| ==> Clean(chunks[k].css)
  }

  lemma {:induction false} HtmlAppend(chunks: seq<Chunk>, chunk: Chunk)
    ensures Html(chunks + [chunk]) == Html(chunks) + Emitted(chunk)
  {
    if chunks == [] {
      assert chunks + [chunk] == [chunk];
    } else {
      assert (chunks + [chunk])[1..] == chunks[1..] + [chunk];
      HtmlAppend(chunks[1..], chunk);
    }
  }

  lemma {:induction false} GlyphsAppend(chunks: seq<Chunk>, chunk: Chunk)
    ensures Glyphs(chunks + [chunk]) == Glyphs(chunks) + Styled(chunk.text, chunk.css)
  {
    if chunks == [] {
      assert chunks + [chunk] == [chunk];
    } else {
      assert (chunks + [chunk])[1..] == chunks[1..] + [chunk];
      GlyphsAppend(chunks[1..], chunk);
    }
  }

  lemma {:induction false} TextAppend(chunks: seq<Chunk>, chunk: Chunk)
    ensures Text(chunks + [chunk]) == Text(chunks) + chunk.text
  {
    if chunks == [] {
      assert chunks + [chunk] == [chunk];
    } else {
      assert (chunks + [chunk])[1..] == chunks[1..] + [chunk];
      TextAppend(chunks[1..], chunk);
    }
  }

  // ---------------------------------------------------------------- the chunks are shown as they should be

  lemma SpecialShown(c: char, rest: string, css: string)
    requires Rank(c) < 5
    ensures Shown(Entity(c) + rest, css) == [Glyph(c, css)] + Shown(rest, css)
  {
    EntityFound(c, rest);
    assert (Entity(c) + rest)[|Entity(c)|..] == rest;
    assert (Entity(c) + rest)[0] == '&';
  }

  lemma PlainShown(c: char, rest: string, css: string)
    requires Rank(c) == 5
    ensures Shown([c] + rest, css) == [Glyph(c, css)] + Shown(rest, css)
  {
    EntityFound(c, rest);
    assert ([c] + rest)[1..] == rest;
  }

  lemma EntityShown(c: char, rest: string, css: string)
    ensures Shown(Entity(c) + rest, css) == [Glyph(c, css)] + Shown(rest, css)
  {
    if Rank(c) < 5 { SpecialShown(c, rest, css); } else { PlainShown(c, rest, css); }
  }

  lemma EntityFound(c: char, rest: string)
    ensures EntityAt(Entity(c) + rest) == (if Rank(c) < 5 then Some(c) else None)
  {
    var html := Entity(c) + rest;
    assert html[0] == Entity(c)[0];
    if Rank(c) < 5 {
      assert html[1] == Entity(c)[1];
      assert html[..|Entity(c)|] == Entity(c);
    }
  }

  lemma {:induction false} BodyShown(text: string, rest: string, css: string, after: seq<Glyph>)
    requires after == Shown(rest, css)
    ensures Shown(Mapped(text, Entity) + rest, css) == Styled(text, css) + after
  {
    if text == "" {
      assert Mapped(text, Entity) + rest == rest;
    } else {
      BodyShown(text[1..], rest, css, after);
      BodyStep(text[0], text[1..], Mapped(text[1..], Entity), rest, css, after);
      assert text == [text[0]] + text[1..];
    }
  }

  lemma BodyStep(c: char, tail: string, body: string, rest: string, css: string, after: seq<Glyph>)
    requires Shown(body + rest, css) == Styled(tail, css) + after
    ensures Shown(Entity(c) + body + rest, css) == Styled([c] + tail, css) + after
  {
    EntityShown(c, body + rest, css);
    Reassociate(Entity(c), body, rest);
    StyledCons(c, tail, css);
    Regroup(Glyph(c, css), Styled(tail, css), after);
  }

  lemma {:induction false} FindIn(s: string, c: char, t: string)
    requires forall k :: 0 <= k < |s| ==> s[k] != c
    ensures Find(s + [c] + t, c) == |s|
  {
    var all := s + [c] + t;
    assert forall k :: 0 <= k < |s| ==> all[k] == s[k];
    assert all[|s|] == c;
  }

  lemma OpenShown(css: string, rest: string, before: string)
    requires Clean(css)
    ensures Shown(OPEN + css + "\">" + rest, before) == Shown(rest, css)
  {
    var tag := OPEN + css + "\"";
    var html := OPEN + css + "\">" + rest;
    assert html == tag + ['>'] + rest;
    FindIn(tag, '>', rest);
    assert html[..|tag|] == tag && html[|tag| + 1..] == rest;
    assert tag[|OPEN|..|tag| - 1] == css;
  }

  lemma CloseShown(rest: string, before: string)
    ensures Shown(CLOSE + rest, before) == Shown(rest, "")
  {
    var tag := "</span";
    var html := CLOSE + rest;
    assert html == tag + ['>'] + rest;
    FindIn(tag, '>', rest);
    assert html[..|tag|] == tag && html[|tag| + 1..] == rest;
  }

  lemma ChunkShown(chunk: Chunk, rest: string)
    requires Clean(chunk.css)
    ensures Shown(Emitted(chunk) + rest, "") == Styled(chunk.text, chunk.css) + Shown(rest, "")
  {
    EscapeIsEntities(chunk.text);
    if chunk.text == "" {
      assert Emitted(chunk) + rest == rest;
    } else if chunk.css == "" {
      BodyShown(chunk.text, rest, "", Shown(rest, ""));
    } else {
      var body := Mapped(chunk.text, Entity);
      assert Emitted(chunk) + rest == OPEN + chunk.css + "\">" + (body + (CLOSE + rest));
      OpenShown(chunk.css, body + (CLOSE + rest), "");
      BodyShown(chunk.text, CLOSE + rest, chunk.css, Shown(CLOSE + rest, chunk.css));
      CloseShown(rest, chunk.css);
    }
  }

  /** What the browser shows of assembled chunks: their characters, each in its chunk's style. */
  lemma {:induction false} ChunksShown(chunks: seq<Chunk>)
    requires CleanChunks(chunks)
    ensures Shown(Html(chunks), "") == Glyphs(chunks)
  {
    if chunks != [] {
      ChunkShown(chunks[0], Html(chunks[1..]));
      ChunksShown(chunks[1..]);
    }
  }

  // ---------------------------------------------------------------- the HTML without its tags

  lemma {:induction false} BodyStripped(body: string, rest: string)
    requires forall k :: 0 <= k < |body| ==> body[k] != '<'
    ensures StripTags(body + rest) == body + StripTags(rest)
  {
    if body == "" {
      assert body + rest == rest;
    } else {
      BodyStripped(body[1..], rest);
      assert (body + rest)[1..] == body[1..] + rest;
    }
  }

  lemma TagStripped(tag: string, rest: string)
    requires tag != "" && tag[0] == '<' && forall k :: 0 <= k < |tag| ==> tag[k] != '>'
    ensures StripTags(tag + ['>'] + rest) == StripTags(rest)
  {
    FindIn(tag, '>', rest);
    assert (tag + ['>'] + rest)[|tag| + 1..] == rest;
  }

  lemma {:induction false} EntitiesHaveNoTag(text: string)
    ensures forall k :: 0 <= k < |Mapped(text, Entity)| ==> Mapped(text, Entity)[k] != '<'
  {
    if text != "" {
      EntitiesHaveNoTag(text[1..]);
      var e := Entity(text[0]);
      assert forall k :: 0 <= k < |e| ==> e[k] != '<';
    }
  }

  lemma OpenStripped(css: string, rest: string)
    requires Clean(css)
    ensures StripTags(OPEN + css + "\">" + rest) == StripTags(rest)
  {
    var tag := OPEN + css + "\"";
    assert OPEN + css + "\">" + rest == tag + ['>'] + rest;
    TagStripped(tag, rest);
  }

  lemma CloseStripped(rest: string)
    ensures StripTags(CLOSE + rest) == StripTags(rest)
  {
    assert CLOSE + rest == "</span" + ['>'] + rest;
    TagStripped("</span", rest);
  }

  lemma FrameStripped(css: string, body: string, rest: string)
    requires Clean(css) && forall k :: 0 <= k < |body| ==> body[k] != '<'
    ensures StripTags(OPEN + css + "\">" + (body + (CLOSE + rest))) == body + StripTags(rest)
  {
    OpenStripped(css, body + (CLOSE + rest));
    BodyStripped(body, CLOSE + rest);
    CloseStripped(rest);
  }

  lemma ChunkStripped(chunk: Chunk, rest: string)
    requires Clean(chunk.css)
    ensures StripTags(Emitted(chunk) + rest) == Mapped(chunk.text, Entity) + StripTags(rest)
  {
    EscapeIsEntities(chunk.text);
    EntitiesHaveNoTag(chunk.text);
    if chunk.text == "" || chunk.css == "" {
      BodyStripped(Mapped(chunk.text, Entity), rest);
    } else {
      var body := Mapped(chunk.text, Entity);
      assert Emitted(chunk) + rest == OPEN + chunk.css + "\">" + (body + (CLOSE + rest));
      FrameStripped(chunk.css, body, rest);
    }
  }

  lemma {:induction false} MappedAppend(s: string, t: string, f: char -> string)
    ensures Mapped(s + t, f) == Mapped(s, f) + Mapped(t, f)
  {
    if s == "" {
      assert s + t == t;
    } else {
      assert (s + t)[1..] == s[1..] + t;
      MappedAppend(s[1..], t, f);
    }
  }

  lemma {:induction false} ChunksStripped(chunks: seq<Chunk>)
    requires CleanChunks(chunks)
    ensures StripTags(Html(chunks)) == Mapped(Text(chunks), Entity)
  {
    if chunks != [] {
      ChunkStripped(chunks[0], Html(chunks[1..]));
      ChunksStripped(chunks[1..]);
      MappedAppend(chunks[0].text, Text(chunks[1..]), Entity);
    }
  }

  // ---------------------------------------------------------------- the renderer

  function CssOf(t: Theme): Style -> string {
    s => Css(t, s)
  }

  /** The leftmost SGR sequence from i on. */
  method Exec(s: string, i: nat) returns (m: Option<nat>)
    requires i <= |s|
    ensures m.Some? ==> i <= m.value < |s| && SgrEnd(s, m.value).Some? && NoSgr(s, i, m.value)
    ensures m.None? ==> NoSgr(s, i, |s|)
  {
    var k := i;
    while k < |s|
      invariant i <= k <= |s| && NoSgr(s, i, k)
    {
      if SgrEnd(s, k).Some? { return Some(k); }
      k := k + 1;
    }
    m := None;
  }

  ghost predicate CleanCss(css: Style -> string) {
    forall style :: Clean(css(style))
  }

  /** How far the loop has come: the chunks out, and what the text from `last` on still gives. */
  ghost predicate Rendered(css: Style -> string, input: string, last: nat, style: Style, chunks: seq<Chunk>) {
    && last <= |input| && CleanChunks(chunks)
    && Reference(css, input, 0, FRESH) == Glyphs(chunks) + Reference(css, input, last, style)
    && Plain(input, 0) == Text(chunks) + Plain(input, last)
  }

  lemma EmitGlyphs(css: Style -> string, input: string, last: nat, to: nat, style: Style, chunks: seq<Chunk>, after: seq<Glyph>)
    requires last <= to <= |input| && NoSgr(input, last, to) && after == Reference(css, input, to, style)
    ensures Glyphs(chunks) + Reference(css, input, last, style)
         == Glyphs(chunks + [Chunk(input[last..to], css(style))]) + after
  {
    var chunk := Chunk(input[last..to], css(style));
    SkipChunk(css, input, last, to, style);
    GlyphsAppend(chunks, chunk);
    Reassociate(Glyphs(chunks), Styled(chunk.text, chunk.css), after);
  }

  lemma EmitText(input: string, last: nat, to: nat, css: string, chunks: seq<Chunk>, after: string)
    requires last <= to <= |input| && NoSgr(input, last, to) && after == Plain(input, to)
    ensures Text(chunks) + Plain(input, last) == Text(chunks + [Chunk(input[last..to], css)]) + after
  {
    SkipPlainChunk(input, last, to, after);
    TextAppend(chunks, Chunk(input[last..to], css));
    Reassociate(Text(chunks), input[last..to], after);
  }

  lemma EmitKeeps(css: Style -> string, input: string, last: nat, to: nat, style: Style, chunks: seq<Chunk>)
    requires CleanCss(css) && Rendered(css, input, last, style, chunks)
    requires last <= to <= |input| && NoSgr(input, last, to)
    ensures Rendered(css, input, to, style, chunks + [Chunk(input[last..to], css(style))])
  {
    EmitGlyphs(css, input, last, to, style, chunks, Reference(css, input, to, style));
    EmitText(input, last, to, css(style), chunks, Plain(input, to));
  }

  lemma SgrKeeps(css: Style -> string, input: string, i: nat, style: Style, chunks: seq<Chunk>)
    requires Rendered(css, input, i, style, chunks) && i < |input| && SgrEnd(input, i).Some?
    ensures Rendered(css, input, SgrEnd(input, i).value, Applied(style, SgrCodes(input, i)), chunks)
  {
  }

  lemma RenderedAll(css: Style -> string, input: string, style: Style, chunks: seq<Chunk>)
    requires Rendered(css, input, |input|, style, chunks)
    ensures Shown(Html(chunks), "") == Reference(css, input, 0, FRESH)
    ensures UnescapeHtmlEntities(StripTags(Html(chunks))) == Plain(input, 0)
  {
    ChunksShown(chunks);
    ChunksStripped(chunks);
    UnescapeEntities(Text(chunks));
  }

  lemma CssOfClean(t: Theme)
    requires CleanTheme(t)
    ensures CleanCss(CssOf(t))
  {
    forall style ensures Clean(CssOf(t)(style)) {
      CssClean(t, style);
    }
  }

  lemma NothingRendered(css: Style -> string, input: string)
    ensures Rendered(css, input, 0, FRESH, [])
  {
    assert Glyphs([]) + Reference(css, input, 0, FRESH) == Reference(css, input, 0, FRESH);
    assert Text([]) + Plain(input, 0) == Plain(input, 0);
  }

  /** The chunks that a run of the loop emits, as HTML. */
  method Chunked(css: Style -> string, input: string) returns (html: string, ghost chunks: seq<Chunk>, ghost style: Style)
    requires CleanCss(css)
    ensures html == Html(chunks) && Rendered(css, input, |input|, style, chunks)
  {
    var state := new AnsiState();
    html := "";
    chunks := [];
    var last := 0;
    var m := Exec(input, last);
    NothingRendered(css, input);
    while m.Some?
      invariant Rendered(css, input, last, state.Value(), chunks) && html == Html(chunks)
      invariant m.Some? ==> last <= m.value < |input| && SgrEnd(input, m.value).Some? && NoSgr(input, last, m.value)
      invariant m.None? ==> NoSgr(input, last, |input|)
      decreases |input| - last, if m.Some? then 1 else 0
    {
      html, chunks := Emit(css, input, last, m.value, state.Value(), html, chunks);
      SgrKeeps(css, input, m.value, state.Value(), chunks);
      state.ApplyAnsiSgr(SgrCodes(input, m.value));
      last := SgrEnd(input, m.value).value;
      m := Exec(input, last);
    }
    style := state.Value();
    html, chunks := Emit(css, input, last, |input|, state.Value(), html, chunks);
  }

  method Emit(css: Style -> string, input: string, last: nat, to: nat, style: Style, html: string, ghost chunks: seq<Chunk>)
    returns (html': string, ghost chunks': seq<Chunk>)
    requires CleanCss(css) && Rendered(css, input, last, style, chunks) && html == Html(chunks)
    requires last <= to <= |input| && NoSgr(input, last, to)
    ensures html' == Html(chunks') && Rendered(css, input, to, style, chunks')
  {
    var chunk := Chunk(input[last..to], css(style));
    EmitKeeps(css, input, last, to, style, chunks);
    HtmlAppend(chunks, chunk);
    html' := html + Emitted(chunk);
    chunks' := chunks + [chunk];
  }

  /**
   The loop over the SGR sequences. What a browser shows of its output is what the
   character-by-character renderer gives, and the text is the input without the sequences.
   */
  method AnsiToHtml(t: Theme, input: string) returns (html: string)
    requires CleanTheme(t)
    ensures Shown(html, "") == Reference(CssOf(t), input, 0, FRESH)
    ensures UnescapeHtmlEntities(StripTags(html)) == Plain(input, 0)
  {
    CssOfClean(t);
    ghost var chunks, style;
    html, chunks, style := Chunked(CssOf(t), input);
    RenderedAll(CssOf(t), input, style, chunks);
  }
}
