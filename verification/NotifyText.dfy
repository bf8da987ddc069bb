/**
 Notification text, measured in the bytes of its UTF-8 form (section 3 of RFC 3629).
 A `char` is one Unicode scalar value, as one step of the source's string iterator yields.
 */
module NotifyText {
  import opened Prelude
  import opened Text

  type Byte = b: nat | b < 256

  // ---------------------------------------------------------------- UTF-8

  function CharBytes(c: char): (n: nat)
    ensures 1 <= n <= 4
  {
    if c as int < 0x80 then 1
    else if c as int < 0x800 then 2
    else if c as int < 0x10000 then 3
    else 4
  }

  function Utf8Bytes(text: string): nat {
    if text == "" then 0 else CharBytes(text[0]) + Utf8Bytes(text[1..])
  }

  function EncodeChar(c: char): (bytes: seq<Byte>)
    ensures |bytes| == CharBytes(c)
  {
    var n := c as int;
    if n < 0x80 then [n]
    else if n < 0x800 then [0xC0 + n / 0x40, 0x80 + n % 0x40]
    else if n < 0x10000 then [0xE0 + n / 0x1000, 0x80 + n / 0x40 % 0x40, 0x80 + n % 0x40]
    else [0xF0 + n / 0x40000, 0x80 + n / 0x1000 % 0x40, 0x80 + n / 0x40 % 0x40, 0x80 + n % 0x40]
  }

  function Encode(text: string): seq<Byte> {
    if text == "" then [] else EncodeChar(text[0]) + Encode(text[1..])
  }

  predicate Continuation(b: Byte) { 0x80 <= b < 0xC0 }

  predicate Scalar(n: int) { 0 <= n < 0xD800 || 0xE000 <= n < 0x110000 }

  /** How many bytes the character starting with this byte takes; none for a byte that starts no character. */
  function LeadLength(b: Byte): nat {
    if b < 0x80 then 1
    else if 0xC0 <= b < 0xE0 then 2
    else if 0xE0 <= b < 0xF0 then 3
    else if 0xF0 <= b < 0xF8 then 4
    else 0
  }

  /** The six payload bits of a continuation byte. */
  function Payload(b: Byte): int { b as int - 0x80 }

  /** The scalar value of a complete character's bytes. */
  function Value(bytes: seq<Byte>): int
    requires bytes != [] && |bytes| == LeadLength(bytes[0])
  {
    var lead: int := bytes[0];
    match |bytes|
    case 1 => lead
    case 2 => (lead - 0xC0) * 0x40 + Payload(bytes[1])
    case 3 => (lead - 0xE0) * 0x1000 + Payload(bytes[1]) * 0x40 + Payload(bytes[2])
    case _ => (lead - 0xF0) * 0x40000 + Payload(bytes[1]) * 0x1000 + Payload(bytes[2]) * 0x40 + Payload(bytes[3])
  }

  /** Reads whole characters to the end; none if a character is cut off or malformed. */
  function Decode(bytes: seq<Byte>): Option<string>
    decreases |bytes|
  {
    if bytes == [] then Some("")
    else
      var n := LeadLength(bytes[0]);
      if n == 0 || n > |bytes| || (exists k | 1 <= k < n :: !Continuation(bytes[k])) then None
      else
        var v := Value(bytes[..n]);
        if !Scalar(v) || CharBytes(v as char) != n then None
        else
          var rest := Decode(bytes[n..]);
          if rest.None? then None else Some([v as char] + rest.value)
  }

  lemma SixBits(n: nat)
    ensures n == n / 0x40 * 0x40 + n % 0x40
    ensures n / 0x40 / 0x40 == n / 0x1000 && n / 0x1000 / 0x40 == n / 0x40000
  {}

  lemma CharValue(c: char)
    ensures LeadLength(EncodeChar(c)[0]) == CharBytes(c)
    ensures Value(EncodeChar(c)) == c as int
  {
    var n := c as int;
    SixBits(n);
    SixBits(n / 0x40);
    SixBits(n / 0x1000);
  }

  lemma CharRoundTrip(c: char, rest: seq<Byte>)
    ensures var bytes := EncodeChar(c) + rest;
            var n := CharBytes(c);
            && LeadLength(bytes[0]) == n
            && (forall k | 1 <= k < n :: Continuation(bytes[k]))
            && Value(bytes[..n]) == c as int
            && bytes[n..] == rest
  {
    var bytes := EncodeChar(c) + rest;
    CharValue(c);
    assert bytes[..CharBytes(c)] == EncodeChar(c);
  }

  /** The bytes that are sent decode to the characters they were made from. */
  lemma {:induction false} DecodeEncode(text: string)
    ensures Decode(Encode(text)) == Some(text)
    decreases |text|
  {
    hide Value, LeadLength, Continuation, EncodeChar;
    if text != "" {
      CharRoundTrip(text[0], Encode(text[1..]));
      DecodeEncode(text[1..]);
      assert [text[0]] + text[1..] == text;
    }
  }

  lemma {:induction false} EncodedLength(text: string)
    ensures |Encode(text)| == Utf8Bytes(text)
  {
    if text != "" { EncodedLength(text[1..]); }
  }

  lemma {:induction false} BytesAppend(a: string, b: string)
    ensures Utf8Bytes(a + b) == Utf8Bytes(a) + Utf8Bytes(b)
  {
    if a == "" { assert a + b == b; }
    else {
      assert (a + b)[1..] == a[1..] + b;
      BytesAppend(a[1..], b);
    }
  }

  /** Cut inside a character, the bytes decode to nothing. */
  lemma {:induction false} CutDecodesToNothing(text: string, k: nat)
    requires k < Utf8Bytes(text) && forall m | 0 <= m <= |text| :: Utf8Bytes(text[..m]) != k
    ensures k <= |Encode(text)| && Decode(Encode(text)[..k]) == None
    decreases |text|
  {
    EncodedLength(text);
    var c, rest := text[0], text[1..];
    var bytes := Encode(text);
    CharRoundTrip(c, Encode(rest));
    assert text[..0] == "" && Utf8Bytes(text[..0]) == 0;
    var cut := bytes[..k];
    assert cut[0] == bytes[0];
    if CharBytes(c) <= k {
      forall m | 0 <= m <= |rest| ensures Utf8Bytes(rest[..m]) != k - CharBytes(c) {
        assert text[..m + 1] == [c] + rest[..m];
        assert text[..m + 1][1..] == rest[..m];
      }
      CutDecodesToNothing(rest, k - CharBytes(c));
      assert cut[..CharBytes(c)] == bytes[..CharBytes(c)];
      assert cut[CharBytes(c)..] == Encode(rest)[..k - CharBytes(c)];
    }
  }

  // ---------------------------------------------------------------- truncation

  lemma {:induction false} PrefixBytes(a: string, b: string)
    requires a <= b
    ensures Utf8Bytes(a) <= Utf8Bytes(b)
  {
    assert b == a + b[|a|..];
    BytesAppend(a, b[|a|..]);
  }

  /** The longest prefix whose bytes fit. */
  function TakePrefix(text: string, maxBytes: nat): (r: string)
    ensures r <= text
  {
    if text == "" || CharBytes(text[0]) > maxBytes then ""
    else [text[0]] + TakePrefix(text[1..], maxBytes - CharBytes(text[0]))
  }

  /** It fits, and one character more would not. */
  lemma {:induction false} TakePrefixLongest(text: string, maxBytes: nat)
    ensures var r := TakePrefix(text, maxBytes);
            && Utf8Bytes(r) <= maxBytes
            && (|r| < |text| ==> Utf8Bytes(text[..|r| + 1]) > maxBytes)
    decreases |text|
  {
    if text != "" && CharBytes(text[0]) <= maxBytes {
      var rest := text[1..];
      var r := TakePrefix(rest, maxBytes - CharBytes(text[0]));
      TakePrefixLongest(rest, maxBytes - CharBytes(text[0]));
      assert ([text[0]] + r)[1..] == r;
      if |r| < |rest| {
        assert text[..|r| + 2] == [text[0]] + rest[..|r| + 1];
        assert text[..|r| + 2][1..] == rest[..|r| + 1];
      }
    } else if text != "" {
      assert text[..1][1..] == "";
    }
  }

  /** takeUtf8Prefix: characters are pushed while they fit. */
  method TakeUtf8Prefix(text: string, maxBytes: nat) returns (chars: string)
    ensures chars == TakePrefix(text, maxBytes)
  {
    chars := "";
    var used: nat := 0;
    var i := 0;
    while i < |text|
      invariant 0 <= i <= |text| && used <= maxBytes
      invariant chars + TakePrefix(text[i..], maxBytes - used) == TakePrefix(text, maxBytes)
    {
      var bytes := CharBytes(text[i]);
      assert text[i..][1..] == text[i + 1..];
      if used + bytes > maxBytes { break; }
      chars := chars + [text[i]];
      used := used + bytes;
      i := i + 1;
    }
  }

  const TRUNCATION_MARKER := "..."

  lemma MarkerBytes()
    ensures Utf8Bytes(TRUNCATION_MARKER) == 3
  {
    assert TRUNCATION_MARKER[1..] == ".." && ".."[1..] == "." && "."[1..] == "";
  }

  function TruncateUtf8(text: string, budget: nat): string {
    if Utf8Bytes(text) <= budget then text
    else if budget == 0 then ""
    else if Utf8Bytes(TRUNCATION_MARKER) > budget then TakePrefix(TRUNCATION_MARKER, budget)
    else TrimEnd(TakePrefix(text, budget - Utf8Bytes(TRUNCATION_MARKER))) + TRUNCATION_MARKER
  }

  /** A truncation always fits its budget. */
  lemma TruncateFits(text: string, budget: nat)
    ensures Utf8Bytes(TruncateUtf8(text, budget)) <= budget
  {
    MarkerBytes();
    if Utf8Bytes(text) > budget && budget > 0 {
      TakePrefixLongest(TRUNCATION_MARKER, budget);
      if Utf8Bytes(TRUNCATION_MARKER) <= budget {
        var kept := TakePrefix(text, budget - 3);
        TakePrefixLongest(text, budget - 3);
        PrefixBytes(TrimEnd(kept), kept);
        BytesAppend(TrimEnd(kept), TRUNCATION_MARKER);
      }
    }
  }

  /** It is the identity exactly on texts that fit. */
  lemma TruncateIdentity(text: string, budget: nat)
    ensures TruncateUtf8(text, budget) == text <==> Utf8Bytes(text) <= budget
  {
    TruncateFits(text, budget);
  }

  /**
   r is the first k characters and the marker, where the first n are the most that fit with it
   into the budget, and only white space lies between k and n.
   */
  ghost predicate CutAt(text: string, budget: nat, r: string, n: nat, k: nat) {
    && k <= n < |text| && r == text[..k] + TRUNCATION_MARKER
    && Utf8Bytes(text[..n]) + 3 <= budget < Utf8Bytes(text[..n + 1]) + 3
    && (forall i :: k <= i < n ==> IsSpace(text[i]))
    && (k > 0 ==> !IsSpace(text[k - 1]))
  }

  lemma TruncateKeepsMost(text: string, budget: nat, room: nat)
    requires budget < Utf8Bytes(text) && budget == room + 3
    ensures exists n, k :: CutAt(text, budget, TruncateUtf8(text, budget), n, k)
  {
    MarkerBytes();
    TakePrefixLongest(text, room);
    hide Utf8Bytes, TakePrefix, IsSpace, TrimEnd;
    var kept := TakePrefix(text, room);
    var n, k := |kept|, |TrimEnd(kept)|;
    assert text[..|text|] == text;
    assert kept == text[..n] && TrimEnd(kept) == text[..k];
    forall i | k <= i < n ensures IsSpace(text[i]) { assert kept[i] == text[i]; }
    assert CutAt(text, budget, TruncateUtf8(text, budget), n, k);
  }

  /** With no room for a character, what fits of the marker is all that is left. */
  lemma TruncateToMarker(text: string, budget: nat)
    requires budget < 3 && budget < Utf8Bytes(text)
    ensures TruncateUtf8(text, budget) == TRUNCATION_MARKER[..budget]
  {
    MarkerBytes();
    DotsPrefix(TRUNCATION_MARKER, budget);
  }

  lemma {:induction false} DotsPrefix(dots: string, n: nat)
    requires n <= |dots| && forall i :: 0 <= i < |dots| ==> dots[i] == '.'
    ensures TakePrefix(dots, n) == dots[..n]
  {
    if n > 0 {
      DotsPrefix(dots[1..], n - 1);
      assert dots[..n] == [dots[0]] + dots[1..][..n - 1];
    }
  }

  /** A text cut to a budget: all that fits before the marker, or what fits of the marker alone. */
  ghost predicate Shortened(text: string, budget: nat, r: string) {
    if budget < 3 then r == TRUNCATION_MARKER[..budget] else exists n, k :: CutAt(text, budget, r, n, k)
  }

  /** A text that does not fit is shortened, and no more than it must be. */
  lemma TruncateShortens(text: string, budget: nat)
    requires budget < Utf8Bytes(text)
    ensures Shortened(text, budget, TruncateUtf8(text, budget))
  {
    hide TruncateUtf8, CutAt, Utf8Bytes;
    if budget < 3 { TruncateToMarker(text, budget); } else { TruncateKeepsMost(text, budget, budget - 3); }
  }
}
