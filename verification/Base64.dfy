/** Base64 text (sections 3.5 and 4 of RFC 4648): the canonical text of bytes, and what a lenient
    decoder makes of any well-formed text. */
module Base64 {
  import opened Records

  function CharOf(n: nat): char
    requires n < 64
  {
    if n < 26 then ('A' as int + n) as char
    else if n < 52 then ('a' as int + n - 26) as char
    else if n < 62 then ('0' as int + n - 52) as char
    else if n == 62 then '+' else '/'
  }

  predicate InAlphabet(c: char) {
    'A' <= c <= 'Z' || 'a' <= c <= 'z' || '0' <= c <= '9' || c == '+' || c == '/'
  }

  function CodeOf(c: char): (n: nat)
    requires InAlphabet(c)
    ensures n < 64 && CharOf(n) == c
  {
    if 'A' <= c <= 'Z' then c as int - 'A' as int
    else if 'a' <= c <= 'z' then c as int - 'a' as int + 26
    else if '0' <= c <= '9' then c as int - '0' as int + 52
    else if c == '+' then 62 else 63
  }

  lemma CodeOfChar(n: nat)
    requires n < 64
    ensures InAlphabet(CharOf(n)) && CodeOf(CharOf(n)) == n
  {
  }

  // ---------- Encoding ----------

  /** Three bytes as four characters; of missing bytes the bits are zero. */
  function Quad(a: byte, b: byte, c: byte): (s: string)
    ensures |s| == 4 && forall i :: 0 <= i < 4 ==> InAlphabet(s[i])
  {
    var n := a as int * 65536 + b as int * 256 + c as int;
    CodeOfChar(n / 262144);
    CodeOfChar(n / 4096 % 64);
    CodeOfChar(n / 64 % 64);
    CodeOfChar(n % 64);
    [CharOf(n / 262144), CharOf(n / 4096 % 64), CharOf(n / 64 % 64), CharOf(n % 64)]
  }

  function Encode(raw: Bytes): string {
    if raw == [] then ""
    else if |raw| == 1 then Quad(raw[0], 0, 0)[..2] + "=="
    else if |raw| == 2 then Quad(raw[0], raw[1], 0)[..3] + "="
    else Quad(raw[0], raw[1], raw[2]) + Encode(raw[3..])
  }

  lemma ThirdsMore(n: nat)
    requires n >= 3
    ensures (n + 2) / 3 == (n - 3 + 2) / 3 + 1
  {
  }

  lemma {:induction false} EncodeLength(raw: Bytes)
    ensures |Encode(raw)| == 4 * ((|raw| + 2) / 3)
  {
    hide Quad;
    if |raw| >= 3 {
      EncodeLength(raw[3..]);
      ThirdsMore(|raw|);
    }
  }

  // ---------- Well-formed text ----------

  predicate EndsWith(s: string, suffix: string) { |suffix| <= |s| && s[|s| - |suffix|..] == suffix }

  /** The padding that the text ends with. */
  function Padding(s: string): (n: nat)
    ensures n <= 2
  {
    if EndsWith(s, "==") then 2 else if EndsWith(s, "=") then 1 else 0
  }

  predicate AllInAlphabet(s: string) { forall i :: 0 <= i < |s| ==> InAlphabet(s[i]) }

  /** Alphabet characters, then at most two padding characters. */
  predicate Patterned(s: string) {
    AllInAlphabet(s) || (|s| >= 1 && s[|s| - 1] == '=' && (AllInAlphabet(s[..|s| - 1])
      || (|s| >= 2 && s[|s| - 2] == '=' && AllInAlphabet(s[..|s| - 2]))))
  }

  /** What the pattern asks for, in terms of the padding. */
  lemma PatternedIs(s: string)
    ensures Patterned(s) <==> AllInAlphabet(s[..|s| - Padding(s)])
  {
    if Patterned(s) {
      if |s| >= 2 && AllInAlphabet(s[..|s| - 1]) {
        assert InAlphabet(s[..|s| - 1][|s| - 2]);
      }
      if AllInAlphabet(s) && |s| >= 1 {
        assert InAlphabet(s[|s| - 1]);
      }
    }
    assert s[..|s| - 0] == s;
    if Padding(s) == 1 {
      assert s[|s| - 1..][0] == '=';
    }
    if Padding(s) == 2 {
      assert s[|s| - 2..][0] == '=' && s[|s| - 2..][1] == '=';
    }
  }

  predicate WellFormed(s: string) { |s| % 4 == 0 && AllInAlphabet(s[..|s| - Padding(s)]) }

  /** The number of bytes that a text of this length and padding stands for. */
  function DecodedLength(s: string): int { |s| / 4 * 3 - Padding(s) }

  // ---------- Decoding ----------

  /** The three bytes of four 6-bit values. */
  function Triplet(p: nat, q: nat, r: nat, t: nat): (b: Bytes)
    requires p < 64 && q < 64 && r < 64 && t < 64
    ensures |b| == 3
  {
    var n := p * 262144 + q * 4096 + r * 64 + t;
    [(n / 65536) as byte, (n / 256 % 256) as byte, (n % 256) as byte]
  }

  lemma SamePadding(s: string, k: nat)
    requires k + 2 <= |s|
    ensures Padding(s[k..]) == Padding(s)
  {
    var rest := s[k..];
    assert rest[|rest| - 1..] == s[|s| - 1..] && rest[|rest| - 2..] == s[|s| - 2..];
  }

  lemma RestWellFormed(s: string)
    requires WellFormed(s) && |s| > 4
    ensures WellFormed(s[4..]) && Padding(s[4..]) == Padding(s)
    ensures InAlphabet(s[0]) && InAlphabet(s[1]) && InAlphabet(s[2]) && InAlphabet(s[3])
  {
    hide InAlphabet;
    var rest := s[4..];
    SamePadding(s, 4);
    var body := s[..|s| - Padding(s)];
    assert rest[..|rest| - Padding(rest)] == body[4..];
    assert body[0] == s[0] && body[1] == s[1] && body[2] == s[2] && body[3] == s[3];
  }

  lemma LastQuad(s: string)
    requires WellFormed(s) && |s| == 4
    ensures forall i :: 0 <= i < 4 - Padding(s) ==> InAlphabet(s[i])
  {
    forall i | 0 <= i < 4 - Padding(s)
      ensures InAlphabet(s[i])
    {
      assert s[..4 - Padding(s)][i] == s[i];
    }
  }

  /** The bytes of a well-formed text; bits left over before the padding are ignored. */
  function Decode(s: string): Bytes
    requires WellFormed(s)
  {
    if s == "" then []
    else if |s| > 4 then
      RestWellFormed(s);
      Triplet(CodeOf(s[0]), CodeOf(s[1]), CodeOf(s[2]), CodeOf(s[3])) + Decode(s[4..])
    else
      LastQuad(s);
      var p := Padding(s);
      Triplet(CodeOf(s[0]), CodeOf(s[1]), if p == 2 then 0 else CodeOf(s[2]), if p == 0 then CodeOf(s[3]) else 0)[..3 - p]
  }

  /** The length computed from the text alone is the length of the decoded bytes. */
  lemma {:induction false} DecodedLengthIs(s: string)
    requires WellFormed(s)
    ensures |Decode(s)| == DecodedLength(s)
  {
    if |s| > 4 {
      RestWellFormed(s);
      DecodedLengthIs(s[4..]);
    }
  }

  // ---------- Round trip ----------

  lemma TripletOfQuad(a: byte, b: byte, c: byte)
    ensures var s := Quad(a, b, c);
            Triplet(CodeOf(s[0]), CodeOf(s[1]), CodeOf(s[2]), CodeOf(s[3])) == [a, b, c]
    ensures b == 0 && c == 0 ==> CodeOf(Quad(a, b, c)[2]) == 0
    ensures c == 0 ==> CodeOf(Quad(a, b, c)[3]) == 0
  {
    hide CharOf, InAlphabet, CodeOf;
    var n := a as int * 65536 + b as int * 256 + c as int;
    CodeOfChar(n / 262144);
    CodeOfChar(n / 4096 % 64);
    CodeOfChar(n / 64 % 64);
    CodeOfChar(n % 64);
    Split(n);
    BytesOfNumber(a as int, b as int, c as int);
  }

  lemma Split(n: nat)
    ensures n / 262144 * 262144 + n / 4096 % 64 * 4096 + n / 64 % 64 * 64 + n % 64 == n
  {
    assert n / 64 / 64 == n / 4096;
    assert n / 4096 / 64 == n / 262144;
  }

  lemma Above256(x: nat, c: nat)
    requires c < 256
    ensures (x * 256 + c) / 256 == x && (x * 256 + c) % 256 == c
  {
  }

  lemma Above65536(x: nat, c: nat)
    requires c < 65536
    ensures (x * 65536 + c) / 65536 == x
  {
  }

  lemma NoLowBits(a: nat, b: nat)
    ensures (a * 65536) / 64 % 64 == 0 && (a * 65536) % 64 == 0 && (b * 256) % 64 == 0
  {
    assert a * 65536 == (a * 1024) * 64 && a * 1024 == (a * 16) * 64 && b * 256 == (b * 4) * 64;
    Multiple64(a * 1024);
    Multiple64(a * 16);
    Multiple64(b * 4);
  }

  lemma Multiple64(n: nat)
    ensures (n * 64) / 64 == n && (n * 64) % 64 == 0
  {
  }

  lemma BytesOfNumber(a: nat, b: nat, c: nat)
    requires a < 256 && b < 256 && c < 256
    ensures var n := a * 65536 + b * 256 + c;
            && n / 65536 == a && n / 256 % 256 == b && n % 256 == c
            && (b == 0 && c == 0 ==> n / 64 % 64 == 0) && (c == 0 ==> n % 64 == 0)
  {
    var n := a * 65536 + b * 256 + c;
    assert n == (a * 256 + b) * 256 + c;
    Above256(a * 256 + b, c);
    Above256(a, b);
    Above65536(a, b * 256 + c);
    NoLowBits(a, a * 256 + b);
  }

  lemma PaddingOfQuad(q: string, rest: string)
    requires |q| == 4 && (forall i :: 0 <= i < 4 ==> InAlphabet(q[i]))
    requires rest == "" || (|rest| >= 4 && |rest| % 4 == 0 && WellFormed(rest))
    ensures WellFormed(q + rest) && Padding(q + rest) == Padding(rest)
  {
    var s := q + rest;
    if rest == "" {
      assert s == q && s[3..][0] == s[3];
      assert Padding(s) == 0 by {
        assert InAlphabet(s[3]);
        assert s[2..][1] == s[3];
      }
    } else {
      assert s[|s| - 1..] == rest[|rest| - 1..] && s[|s| - 2..] == rest[|rest| - 2..];
      assert s[..|s| - Padding(s)] == q + rest[..|rest| - Padding(rest)];
    }
  }

  lemma ShortText(q: string, k: nat)
    requires |q| == 4 && (forall i :: 0 <= i < 4 ==> InAlphabet(q[i])) && 2 <= k <= 3
    ensures var s := q[..k] + (if k == 2 then "==" else "=");
            WellFormed(s) && Padding(s) == 4 - k && |s| == 4 && s[..k] == q[..k]
  {
    var s := q[..k] + (if k == 2 then "==" else "=");
    assert s[..k] == q[..k];
    if k == 2 {
      assert s[2..] == "==";
    } else {
      assert s[3..] == "=" && s[2..][0] == q[2];
    }
  }

  lemma DecodeShort(a: byte, b: byte, k: nat)
    requires 2 <= k <= 3 && (k == 2 ==> b == 0)
    ensures var s := Quad(a, b, 0)[..k] + (if k == 2 then "==" else "=");
            WellFormed(s) && Decode(s) == [a, b][..k - 1]
  {
    hide Quad, Triplet, CodeOf, CharOf, InAlphabet, Padding, WellFormed;
    var q := Quad(a, b, 0);
    var s := q[..k] + (if k == 2 then "==" else "=");
    ShortText(q, k);
    LastQuad(s);
    TripletOfQuad(a, b, 0);
    assert s[0] == q[0] && s[1] == q[1] && (k == 3 ==> s[2] == q[2]);
  }

  lemma DecodeMore(q: string, rest: string)
    requires |q| == 4 && (forall i :: 0 <= i < 4 ==> InAlphabet(q[i])) && |rest| % 4 == 0 && WellFormed(rest)
    ensures WellFormed(q + rest)
    ensures Decode(q + rest) == Triplet(CodeOf(q[0]), CodeOf(q[1]), CodeOf(q[2]), CodeOf(q[3])) + Decode(rest)
  {
    hide Triplet, CodeOf, InAlphabet, WellFormed, Padding;
    PaddingOfQuad(q, rest);
    NoPadding();
    var s := q + rest;
    assert s[0] == q[0] && s[1] == q[1] && s[2] == q[2] && s[3] == q[3] && s[4..] == rest;
    if |rest| > 0 {
      RestWellFormed(s);
    } else {
      LastQuad(s);
    }
  }

  lemma NoPadding()
    ensures Padding("") == 0
  {
  }

  /** Decoding the canonical text of bytes yields these bytes. */
  lemma {:induction false} DecodeEncode(raw: Bytes)
    ensures WellFormed(Encode(raw)) && Decode(Encode(raw)) == raw
  {
    if raw == [] {
    } else if |raw| == 1 {
      DecodeShort(raw[0], 0, 2);
    } else if |raw| == 2 {
      DecodeShort(raw[0], raw[1], 3);
      assert [raw[0], raw[1]][..2] == raw;
    } else {
      hide Decode, WellFormed, Quad, Triplet, CodeOf;
      DecodeEncode(raw[3..]);
      EncodeLength(raw[3..]);
      DecodeMore(Quad(raw[0], raw[1], raw[2]), Encode(raw[3..]));
      TripletOfQuad(raw[0], raw[1], raw[2]);
      assert raw == [raw[0], raw[1], raw[2]] + raw[3..];
    }
  }

  lemma EncodeInjective(a: Bytes, b: Bytes)
    requires Encode(a) == Encode(b)
    ensures a == b
  {
    DecodeEncode(a);
    DecodeEncode(b);
  }
}
