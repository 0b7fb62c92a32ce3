/** Base64 text as section 4 of RFC 4648 describes it: six bits at a time, by the table of the alphabet. */
module Base64Bits {
  import opened Records
  import opened Base64

  const UPPER := "ABCDEFGHIJKLMNOPQRSTUVWXYZ"
  const LOWER := "abcdefghijklmnopqrstuvwxyz"
  const DIGITS := "0123456789"
  const ALPHABET := UPPER + LOWER + DIGITS + "+/"
  const WEIGHTS: seq<nat> := [128, 64, 32, 16, 8, 4, 2, 1]

  /** The byte at `i`; beyond the end it is zero. */
  function At(raw: Bytes, i: nat): (n: nat)
    ensures n < 256
  {
    if i < |raw| then raw[i] as int else 0
  }

  /** Bit `k` of the bytes, the most significant bit of each byte first. */
  function Bit(raw: Bytes, k: nat): (b: nat)
    ensures b < 2
  {
    At(raw, k / 8) / WEIGHTS[k % 8] % 2
  }

  /** The number that bits `6i` to `6i + 5` form, the most significant first. */
  function Six(raw: Bytes, i: nat): (n: nat)
    ensures n < 64
  {
    32 * Bit(raw, 6 * i) + 16 * Bit(raw, 6 * i + 1) + 8 * Bit(raw, 6 * i + 2) + 4 * Bit(raw, 6 * i + 3)
    + 2 * Bit(raw, 6 * i + 4) + Bit(raw, 6 * i + 5)
  }

  lemma Letters(n: nat)
    requires n < 26
    ensures UPPER[n] as int == 'A' as int + n && LOWER[n] as int == 'a' as int + n
  {
  }

  lemma CharByTable(n: nat)
    requires n < 64
    ensures CharOf(n) == ALPHABET[n]
  {
    if n < 26 {
      Letters(n);
    } else if n < 52 {
      Letters(n - 26);
    }
  }

  lemma Halves(b: nat)
    ensures b / 4 == b / 2 / 2 && b / 8 == b / 4 / 2 && b / 16 == b / 8 / 2 && b / 32 == b / 16 / 2
    ensures b / 64 == b / 32 / 2 && b / 128 == b / 64 / 2
  {
  }

  /** The bits of a byte make up the byte. */
  lemma BitsOfByte(b: nat)
    requires b < 256
    ensures 32 * (b / 128 % 2) + 16 * (b / 64 % 2) + 8 * (b / 32 % 2) + 4 * (b / 16 % 2) + 2 * (b / 8 % 2) + b / 4 % 2 == b / 4
    ensures 2 * (b / 2 % 2) + b % 2 == b % 4
    ensures 8 * (b / 128 % 2) + 4 * (b / 64 % 2) + 2 * (b / 32 % 2) + b / 16 % 2 == b / 16
    ensures 8 * (b / 8 % 2) + 4 * (b / 4 % 2) + 2 * (b / 2 % 2) + b % 2 == b % 16
    ensures 2 * (b / 128 % 2) + b / 64 % 2 == b / 64
    ensures 32 * (b / 32 % 2) + 16 * (b / 16 % 2) + 8 * (b / 8 % 2) + 4 * (b / 4 % 2) + 2 * (b / 2 % 2) + b % 2 == b % 64
  {
    Halves(b);
    var h1, h2, h3, h4, h5, h6, h7 := b / 2, b / 4, b / 8, b / 16, b / 32, b / 64, b / 128;
    HalvesAddUp(b, h1, h2, h3, h4, h5, h6, h7);
  }

  lemma HalvesAddUp(b: nat, h1: nat, h2: nat, h3: nat, h4: nat, h5: nat, h6: nat, h7: nat)
    requires h1 == b / 2 && h2 == h1 / 2 && h3 == h2 / 2 && h4 == h3 / 2 && h5 == h4 / 2 && h6 == h5 / 2 && h7 == h6 / 2 && h7 < 2
    ensures 32 * (h7 % 2) + 16 * (h6 % 2) + 8 * (h5 % 2) + 4 * (h4 % 2) + 2 * (h3 % 2) + h2 % 2 == h2
    ensures 2 * (h1 % 2) + b % 2 == b - 4 * h2
    ensures 8 * (h7 % 2) + 4 * (h6 % 2) + 2 * (h5 % 2) + h4 % 2 == h4
    ensures 8 * (h3 % 2) + 4 * (h2 % 2) + 2 * (h1 % 2) + b % 2 == b - 16 * h4
    ensures 2 * (h7 % 2) + h6 % 2 == h6
    ensures 32 * (h5 % 2) + 16 * (h4 % 2) + 8 * (h3 % 2) + 4 * (h2 % 2) + 2 * (h1 % 2) + b % 2 == b - 64 * h6
  {
  }

  /** Three bytes as one number, cut into six-bit pieces. */
  lemma PiecesOfNumber(a: nat, b: nat, c: nat)
    requires a < 256 && b < 256 && c < 256
    ensures var n := a * 65536 + b * 256 + c;
            && n / 262144 == a / 4 && n / 4096 % 64 == a % 4 * 16 + b / 16
            && n / 64 % 64 == b % 16 * 4 + c / 64 && n % 64 == c % 64
  {
    var n := a * 65536 + b * 256 + c;
    var p0, p1, p2, p3 := a / 4, a % 4 * 16 + b / 16, b % 16 * 4 + c / 64, c % 64;
    assert n == ((p0 * 64 + p1) * 64 + p2) * 64 + p3;
    Digit64((p0 * 64 + p1) * 64 + p2, p3);
    Digit64(p0 * 64 + p1, p2);
    Digit64(p0, p1);
    assert n / 64 / 64 == n / 4096 && n / 4096 / 64 == n / 262144;
  }

  lemma Digit64(x: nat, d: nat)
    requires d < 64
    ensures (x * 64 + d) / 64 == x && (x * 64 + d) % 64 == d
  {
  }

  /** The bits of the byte at `q`. */
  lemma BitsAt(raw: Bytes, q: nat)
    ensures var b := At(raw, q);
            && Bit(raw, 8 * q) == b / 128 % 2 && Bit(raw, 8 * q + 1) == b / 64 % 2 && Bit(raw, 8 * q + 2) == b / 32 % 2
            && Bit(raw, 8 * q + 3) == b / 16 % 2 && Bit(raw, 8 * q + 4) == b / 8 % 2 && Bit(raw, 8 * q + 5) == b / 4 % 2
            && Bit(raw, 8 * q + 6) == b / 2 % 2 && Bit(raw, 8 * q + 7) == b % 2
  {
    OneBit(raw, q, 0);
    OneBit(raw, q, 1);
    OneBit(raw, q, 2);
    OneBit(raw, q, 3);
    OneBit(raw, q, 4);
    OneBit(raw, q, 5);
    OneBit(raw, q, 6);
    OneBit(raw, q, 7);
    hide Bit, At;
  }

  lemma OneBit(raw: Bytes, q: nat, j: nat)
    requires j < 8
    ensures Bit(raw, 8 * q + j) == At(raw, q) / WEIGHTS[j] % 2
  {
    hide At, WEIGHTS;
    assert (8 * q + j) / 8 == q && (8 * q + j) % 8 == j;
  }

  /** The first four pieces in terms of the first three bytes. */
  lemma FirstPieces(raw: Bytes)
    ensures Six(raw, 0) == At(raw, 0) / 4 && Six(raw, 1) == At(raw, 0) % 4 * 16 + At(raw, 1) / 16
    ensures Six(raw, 2) == At(raw, 1) % 16 * 4 + At(raw, 2) / 64 && Six(raw, 3) == At(raw, 2) % 64
  {
    var a, b, c := At(raw, 0), At(raw, 1), At(raw, 2);
    BitsOfByte(a);
    BitsOfByte(b);
    BitsOfByte(c);
    BitsAt(raw, 0);
    BitsAt(raw, 1);
    BitsAt(raw, 2);
    hide Bit, At;
  }

  lemma LaterBit(raw: Bytes, k: nat)
    requires |raw| >= 3
    ensures Bit(raw, k + 24) == Bit(raw[3..], k)
  {
    assert (k + 24) / 8 == k / 8 + 3 && (k + 24) % 8 == k % 8;
    hide WEIGHTS;
  }

  lemma LaterPieces(raw: Bytes, i: nat)
    requires |raw| >= 3
    ensures Six(raw, i + 4) == Six(raw[3..], i)
  {
    LaterBit(raw, 6 * i);
    LaterBit(raw, 6 * i + 1);
    LaterBit(raw, 6 * i + 2);
    LaterBit(raw, 6 * i + 3);
    LaterBit(raw, 6 * i + 4);
    LaterBit(raw, 6 * i + 5);
    hide Bit;
  }

  /** Every character before the padding is the alphabet's entry for six bits; the padding fills up a
      multiple of four characters. */
  lemma {:induction false} EncodeByBits(raw: Bytes, i: nat)
    requires i < |Encode(raw)|
    ensures Encode(raw)[i] == if 6 * i < 8 * |raw| then ALPHABET[Six(raw, i)] else '='
  {
    hide Six, ALPHABET, Quad;
    if |raw| >= 3 && i >= 4 {
      LaterPieces(raw, i - 4);
      EncodeByBits(raw[3..], i - 4);
    } else {
      FirstPieces(raw);
      EncodeStarts(raw);
    }
  }

  lemma QuadByPieces(a: byte, b: byte, c: byte)
    ensures var q := Quad(a, b, c); var x, y, z := a as int, b as int, c as int;
            && q[0] == ALPHABET[x / 4] && q[1] == ALPHABET[x % 4 * 16 + y / 16]
            && q[2] == ALPHABET[y % 16 * 4 + z / 64] && q[3] == ALPHABET[z % 64]
  {
    PiecesOfNumber(a as int, b as int, c as int);
    CharByTable(a as int / 4);
    CharByTable(a as int % 4 * 16 + b as int / 16);
    CharByTable(b as int % 16 * 4 + c as int / 64);
    CharByTable(c as int % 64);
    hide CharOf, ALPHABET;
  }

  lemma EncodeStarts(raw: Bytes)
    requires raw != []
    ensures |Encode(raw)| >= 4 && Encode(raw)[0] == ALPHABET[At(raw, 0) / 4]
    ensures Encode(raw)[1] == ALPHABET[At(raw, 0) % 4 * 16 + At(raw, 1) / 16]
    ensures Encode(raw)[2] == if |raw| == 1 then '=' else ALPHABET[At(raw, 1) % 16 * 4 + At(raw, 2) / 64]
    ensures Encode(raw)[3] == if |raw| <= 2 then '=' else ALPHABET[At(raw, 2) % 64]
    ensures |raw| < 3 ==> |Encode(raw)| == 4
  {
    hide Quad, ALPHABET;
    QuadByPieces(raw[0], if |raw| > 1 then raw[1] else 0, if |raw| > 2 then raw[2] else 0);
  }

  // ---------- From text to bits ----------

  lemma CodeByTable(c: char, v: nat)
    requires v < 64 && ALPHABET[v] == c
    ensures InAlphabet(c) && CodeOf(c) == v
  {
    CharByTable(v);
    CodeOfChar(v);
  }

  /** Six bits of three bytes that were put together from four codes. */
  lemma TripletPieces(p: nat, q: nat, r: nat, t: nat, n: nat)
    requires p < 64 && q < 64 && r < 64 && t < 64 && 1 <= n <= 3
    requires (n < 3 ==> t == 0) && (n < 2 ==> r == 0)
    ensures var raw := Triplet(p, q, r, t)[..n];
            && Six(raw, 0) == p && Six(raw, 1) == (if n > 1 then q else q / 16 * 16)
            && (n > 1 ==> Six(raw, 2) == if n > 2 then r else r / 4 * 4) && (n > 2 ==> Six(raw, 3) == t)
  {
    var raw := Triplet(p, q, r, t);
    BytesOfCodes(p, q, r, t);
    FirstPieces(raw[..n]);
    assert raw[..n][0] == raw[0] && (n > 1 ==> raw[..n][1] == raw[1]) && (n > 2 ==> raw[..n][2] == raw[2]);
    hide Six, Triplet;
  }

  lemma BytesOfCodes(p: nat, q: nat, r: nat, t: nat)
    requires p < 64 && q < 64 && r < 64 && t < 64
    ensures var raw := Triplet(p, q, r, t);
            && raw[0] as int == p * 4 + q / 16 && raw[1] as int == q % 16 * 16 + r / 4 && raw[2] as int == r % 4 * 64 + t
  {
    var a, b, c := p * 4 + q / 16, q % 16 * 16 + r / 4, r % 4 * 64 + t;
    assert p * 262144 + q * 4096 + r * 64 + t == (a * 256 + b) * 256 + c;
    Above256(a * 256 + b, c);
    Above256(a, b);
    assert ((a * 256 + b) * 256 + c) / 65536 == ((a * 256 + b) * 256 + c) / 256 / 256;
  }

  /** What is left of a code when only its first `bits` bits are used. */
  function Kept(v: nat, bits: int): nat { if bits >= 6 then v else if bits == 4 then v / 4 * 4 else v / 16 * 16 }

  lemma CodeAt(s: string, i: nat, v: nat)
    requires WellFormed(s) && i < |s| && v < 64 && ALPHABET[v] == s[i]
    ensures InAlphabet(s[i]) && CodeOf(s[i]) == v
  {
    hide ALPHABET, WellFormed;
    CodeByTable(s[i], v);
  }

  /** The six bits at a place of the text are those of its character's place in the alphabet. */
  lemma {:induction false} DecodePieces(s: string, i: nat, v: nat)
    requires WellFormed(s) && v < 64 && 6 * i < 8 * |Decode(s)| && i < |s| && ALPHABET[v] == s[i]
    ensures Six(Decode(s), i) == Kept(v, 8 * |Decode(s)| - 6 * i)
  {
    hide Six, ALPHABET, CodeOf, InAlphabet, Triplet, WellFormed, Padding;
    CodeAt(s, i, v);
    if |s| > 4 {
      RestWellFormed(s);
      var first := Triplet(CodeOf(s[0]), CodeOf(s[1]), CodeOf(s[2]), CodeOf(s[3]));
      assert Decode(s) == first + Decode(s[4..]);
      assert Decode(s)[3..] == Decode(s[4..]);
      if i >= 4 {
        LaterPieces(Decode(s), i - 4);
        DecodePieces(s[4..], i - 4, v);
      } else {
        TripletPieces(CodeOf(s[0]), CodeOf(s[1]), CodeOf(s[2]), CodeOf(s[3]), 3);
        FirstPieces(Decode(s));
        FirstPieces(first);
        SameStart(first, Decode(s[4..]));
        assert first[..3] == first;
      }
    } else {
      FullQuads(s);
      ShortPieces(s, i, v);
    }
  }

  lemma FullQuads(s: string)
    requires WellFormed(s)
    ensures |s| % 4 == 0
  {
  }

  lemma SameStart(first: Bytes, rest: Bytes)
    requires |first| == 3
    ensures At(first + rest, 0) == At(first, 0) && At(first + rest, 1) == At(first, 1) && At(first + rest, 2) == At(first, 2)
  {
  }

  lemma ShortPieces(s: string, i: nat, v: nat)
    requires WellFormed(s) && |s| == 4 && 6 * i < 8 * |Decode(s)| && i < 4 && InAlphabet(s[i]) && CodeOf(s[i]) == v
    ensures Six(Decode(s), i) == Kept(v, 8 * |Decode(s)| - 6 * i)
  {
    hide Six, CodeOf, InAlphabet, Triplet, Padding, WellFormed;
    LastQuad(s);
    var p := Padding(s);
    TripletPieces(CodeOf(s[0]), CodeOf(s[1]), if p == 2 then 0 else CodeOf(s[2]), if p == 0 then CodeOf(s[3]) else 0, 3 - p);
  }

  /** Bit `j` of a six-bit code, the most significant first. */
  function CodeBit(v: nat, j: nat): nat
    requires j < 6
  {
    v / WEIGHTS[j + 2] % 2
  }

  lemma BitsOfSix(raw: Bytes, i: nat, j: nat)
    requires j < 6
    ensures Bit(raw, 6 * i + j) == CodeBit(Six(raw, i), j)
  {
    hide *;
    SixIs(raw, i);
    BitsAreBits(raw, i);
    SixBits(Bit(raw, 6 * i), Bit(raw, 6 * i + 1), Bit(raw, 6 * i + 2), Bit(raw, 6 * i + 3), Bit(raw, 6 * i + 4), Bit(raw, 6 * i + 5));
    CodeBitIs(Six(raw, i), j);
  }

  lemma BitsAreBits(raw: Bytes, i: nat)
    ensures forall k: nat :: Bit(raw, k) < 2
  {
  }

  lemma SixIs(raw: Bytes, i: nat)
    ensures Six(raw, i) == 32 * Bit(raw, 6 * i) + 16 * Bit(raw, 6 * i + 1) + 8 * Bit(raw, 6 * i + 2) + 4 * Bit(raw, 6 * i + 3)
                           + 2 * Bit(raw, 6 * i + 4) + Bit(raw, 6 * i + 5)
  {
    hide Bit;
  }

  lemma CodeBitIs(n: nat, j: nat)
    requires j < 6
    ensures j == 0 ==> CodeBit(n, j) == n / 32 % 2
    ensures j == 1 ==> CodeBit(n, j) == n / 16 % 2
    ensures j == 2 ==> CodeBit(n, j) == n / 8 % 2
    ensures j == 3 ==> CodeBit(n, j) == n / 4 % 2
    ensures j == 4 ==> CodeBit(n, j) == n / 2 % 2
    ensures j == 5 ==> CodeBit(n, j) == n % 2
  {
  }

  lemma SixBits(b0: nat, b1: nat, b2: nat, b3: nat, b4: nat, b5: nat)
    requires b0 < 2 && b1 < 2 && b2 < 2 && b3 < 2 && b4 < 2 && b5 < 2
    ensures var n := 32 * b0 + 16 * b1 + 8 * b2 + 4 * b3 + 2 * b4 + b5;
            n / 32 % 2 == b0 && n / 16 % 2 == b1 && n / 8 % 2 == b2 && n / 4 % 2 == b3 && n / 2 % 2 == b4 && n % 2 == b5
  {
    var n := 32 * b0 + 16 * b1 + 8 * b2 + 4 * b3 + 2 * b4 + b5;
    assert n / 2 == 16 * b0 + 8 * b1 + 4 * b2 + 2 * b3 + b4;
    assert n / 4 == 8 * b0 + 4 * b1 + 2 * b2 + b3;
    assert n / 8 == 4 * b0 + 2 * b1 + b2;
    assert n / 16 == 2 * b0 + b1;
    assert n / 32 == b0;
  }

  lemma KeptBits(v: nat, bits: int, j: nat)
    requires v < 64 && j < 6 && j < bits && (bits in {2, 4} || bits >= 6)
    ensures CodeBit(Kept(v, bits), j) == CodeBit(v, j)
  {
    Floors(v);
    CodeBitIs(v, j);
    CodeBitIs(Kept(v, bits), j);
    hide CodeBit;
  }

  lemma Floors(v: nat)
    ensures v / 4 * 4 / 4 == v / 4 && v / 4 * 4 / 8 == v / 8 && v / 4 * 4 / 16 == v / 16 && v / 4 * 4 / 32 == v / 32
    ensures v / 16 * 16 / 16 == v / 16 && v / 16 * 16 / 32 == v / 32
  {
    var q, h := v / 4, v / 16;
    assert v / 8 == q / 2 && v / 16 == q / 2 / 2 && v / 32 == q / 2 / 2 / 2 && v / 32 == h / 2;
    assert 4 * q / 4 == q && 4 * q / 8 == q / 2 && 4 * q / 16 == q / 2 / 2 && 4 * q / 32 == q / 2 / 2 / 2;
    assert 16 * h / 16 == h && 16 * h / 32 == h / 2;
  }

  /** The bits that are used of a character: six, or before the padding four or two. */
  lemma UsedBits(s: string, k: nat)
    requires WellFormed(s) && k < 8 * |Decode(s)|
    ensures var bits := 8 * |Decode(s)| - 6 * (k / 6); k % 6 < bits && (bits in {2, 4} || bits >= 6)
  {
    DecodedLengthIs(s);
    hide Decode, WellFormed, Padding;
    UsedOf(|s| / 4, Padding(s), k);
  }

  lemma UsedOf(m: nat, p: nat, k: nat)
    requires k < 8 * (m * 3 - p)
    ensures var bits := 8 * (m * 3 - p) - 6 * (k / 6); k % 6 < bits && (bits in {2, 4} || bits >= 6)
  {
    var i := k / 6;
    assert k == 6 * i + k % 6;
    var half := 4 * (m * 3 - p) - 3 * i;
    assert 8 * (m * 3 - p) - 6 * i == 2 * half;
  }

  /** Bit for bit: what is decoded has at place `k` the bit that the character there stands for. */
  lemma DecodeByBits(s: string, k: nat, v: nat)
    requires WellFormed(s) && k < 8 * |Decode(s)| && k / 6 < |s| && v < 64 && ALPHABET[v] == s[k / 6]
    ensures Bit(Decode(s), k) == CodeBit(v, k % 6)
  {
    hide *;
    var i, j := k / 6, k % 6;
    assert k == 6 * i + j;
    UsedBits(s, k);
    DecodePieces(s, i, v);
    BitsOfSix(Decode(s), i, j);
    KeptBits(v, 8 * |Decode(s)| - 6 * i, j);
  }

  /** Every bit of the decoded bytes comes from a character of the alphabet. */
  lemma DecodedBitsHaveCodes(s: string, k: nat) returns (v: nat)
    requires WellFormed(s) && k < 8 * |Decode(s)|
    ensures k / 6 < |s| && v < |ALPHABET| && ALPHABET[v] == s[k / 6] && Bit(Decode(s), k) == CodeBit(v, k % 6)
  {
    DecodedLengthIs(s);
    CharactersBeforePadding(s, k / 6);
    v := CodeOf(s[k / 6]);
    CharByTable(v);
    hide WellFormed, Decode, Bit, ALPHABET, CodeBit;
    DecodeByBits(s, k, v);
  }

  lemma CharactersBeforePadding(s: string, i: nat)
    requires WellFormed(s) && 6 * i < 8 * DecodedLength(s)
    ensures i < |s| && InAlphabet(s[i])
  {
    hide InAlphabet, Padding;
    assert i < |s| - Padding(s);
    assert s[..|s| - Padding(s)][i] == s[i];
  }
}
