/** The UTF-8 encoding form and its strict decoder. */
module Utf8 {
  import opened Records

  function Continuation(n: int): byte
    requires 0 <= n < 64
  {
    (0x80 + n) as byte
  }

  function EncodeChar(c: char): (r: Bytes)
    ensures 1 <= |r| <= 4
  {
    var n := c as int;
    if n < 0x80 then [n as byte]
    else if n < 0x800 then [(0xC0 + n / 64) as byte, Continuation(n % 64)]
    else if n < 0x10000 then
      [(0xE0 + n / 4096) as byte, Continuation(n / 64 % 64), Continuation(n % 64)]
    else
      [(0xF0 + n / 262144) as byte, Continuation(n / 4096 % 64), Continuation(n / 64 % 64), Continuation(n % 64)]
  }

  function Encode(s: string): Bytes {
    if s == "" then [] else EncodeChar(s[0]) + Encode(s[1..])
  }

  /** The code point that the first bytes of an encoded text stand for. */
  function FirstCodePoint(s: Bytes): int
    requires s != []
  {
    var b := s[0] as int;
    if b < 0xC0 || |s| < 2 then b
    else if b < 0xE0 || |s| < 3 then (b - 0xC0) * 64 + (s[1] as int - 0x80)
    else if b < 0xF0 || |s| < 4 then (b - 0xE0) * 4096 + (s[1] as int - 0x80) * 64 + (s[2] as int - 0x80)
    else (b - 0xF0) * 262144 + (s[1] as int - 0x80) * 4096 + (s[2] as int - 0x80) * 64 + (s[3] as int - 0x80)
  }

  lemma Recompose(n: nat)
    ensures n / 64 * 64 + n % 64 == n
    ensures n / 4096 * 4096 + n / 64 % 64 * 64 + n % 64 == n
    ensures n / 262144 * 262144 + n / 4096 % 64 * 4096 + n / 64 % 64 * 64 + n % 64 == n
  {
    assert n / 64 / 64 == n / 4096;
    assert n / 4096 / 64 == n / 262144;
  }

  lemma FirstCodePointOfEncoding(c: char, x: Bytes)
    ensures FirstCodePoint(EncodeChar(c) + x) == c as int
  {
    Recompose(c as int);
  }

  /** No character's encoding is a prefix of another's. */
  lemma CharIsPrefixFree(c: char, d: char, x: Bytes, y: Bytes)
    requires EncodeChar(c) + x == EncodeChar(d) + y
    ensures c == d && x == y
  {
    FirstCodePointOfEncoding(c, x);
    FirstCodePointOfEncoding(d, y);
    assert c as int == d as int;
    assert (EncodeChar(c) + x)[|EncodeChar(c)|..] == x;
    assert (EncodeChar(d) + y)[|EncodeChar(d)|..] == y;
  }

  lemma {:induction false} EncodeInjective(s: string, t: string)
    requires Encode(s) == Encode(t)
    ensures s == t
  {
    if s != "" && t != "" {
      CharIsPrefixFree(s[0], t[0], Encode(s[1..]), Encode(t[1..]));
      EncodeInjective(s[1..], t[1..]);
      assert s == [s[0]] + s[1..] && t == [t[0]] + t[1..];
    }
  }

  lemma {:induction false} EncodeConcat(s: string, t: string)
    ensures Encode(s + t) == Encode(s) + Encode(t)
  {
    if s == "" {
      assert s + t == t;
    } else {
      assert (s + t)[1..] == s[1..] + t;
      EncodeConcat(s[1..], t);
    }
  }

  predicate IsScalar(n: int) { 0 <= n < 0xD800 || 0xE000 <= n < 0x110000 }

  /** Strict decoding: only the bytes that encode a text are accepted. */
  function Decode(raw: Bytes): Option<string>
  {
    if raw == [] then Some("")
    else
      var n := FirstCodePoint(raw);
      if !IsScalar(n) then None
      else
        var first := EncodeChar(n as char);
        if !(first <= raw) then None
        else
          var rest := Decode(raw[|first|..]);
          if rest.None? then None else Some([n as char] + rest.value)
  }

  lemma {:induction false} DecodeEncode(s: string)
    ensures Decode(Encode(s)) == Some(s)
  {
    if s != "" {
      var first, rest := EncodeChar(s[0]), Encode(s[1..]);
      FirstCodePointOfEncoding(s[0], rest);
      assert (first + rest)[|first|..] == rest && first <= first + rest;
      DecodeEncode(s[1..]);
      assert s == [s[0]] + s[1..];
    }
  }

  lemma {:induction false} DecodedEncodes(raw: Bytes)
    requires Decode(raw).Some?
    ensures Encode(Decode(raw).value) == raw
  {
    hide EncodeChar, FirstCodePoint;
    if raw != [] {
      var first := EncodeChar(FirstCodePoint(raw) as char);
      DecodedEncodes(raw[|first|..]);
      var s := Decode(raw).value;
      assert s[1..] == Decode(raw[|first|..]).value;
      assert raw == first + raw[|first|..];
    }
  }

  // ---------- The table of section 3 of RFC 3629 ----------

  /** One byte below 80, and otherwise a leading byte that says how many continuation bytes of six bits
      follow; the shortest form that holds the code point. */
  lemma CharByTable(c: char)
    ensures var n, b := c as int, EncodeChar(c);
            && (n < 0x80 ==> b == [n as byte])
            && (0x80 <= n < 0x800 ==>
                  |b| == 2 && 0xC0 <= b[0] < 0xE0 && 0x80 <= b[1] < 0xC0 && n == (b[0] as int - 0xC0) * 64 + (b[1] as int - 0x80))
            && (0x800 <= n < 0x10000 ==>
                  && |b| == 3 && 0xE0 <= b[0] < 0xF0 && 0x80 <= b[1] < 0xC0 && 0x80 <= b[2] < 0xC0
                  && n == (b[0] as int - 0xE0) * 4096 + (b[1] as int - 0x80) * 64 + (b[2] as int - 0x80))
            && (n >= 0x10000 ==>
                  && |b| == 4 && 0xF0 <= b[0] < 0xF8 && 0x80 <= b[1] < 0xC0 && 0x80 <= b[2] < 0xC0 && 0x80 <= b[3] < 0xC0
                  && n == (b[0] as int - 0xF0) * 262144 + (b[1] as int - 0x80) * 4096 + (b[2] as int - 0x80) * 64 + (b[3] as int - 0x80))
  {
    Recompose(c as int);
  }

  /** A text is encoded character by character. */
  lemma {:induction false} EncodedAt(s: string, i: nat)
    requires i < |s|
    ensures Encode(s) == Encode(s[..i]) + EncodeChar(s[i]) + Encode(s[i + 1..])
  {
    assert s == s[..i] + s[i..];
    EncodeConcat(s[..i], s[i..]);
    assert s[i..][1..] == s[i + 1..];
  }
}
