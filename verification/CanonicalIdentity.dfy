/** Two values have the same canonical bytes exactly when they are equal as JSON values. */
module CanonicalIdentity {
  import opened Records
  import opened JsonText
  import opened Canonical
  import Utf8

  // ---------- The key order ----------

  lemma {:induction false} LessTransitive(a: string, b: string, c: string)
    requires Less(a, b) && Less(b, c)
    ensures Less(a, c)
  {
    if a != "" && a[0] == b[0] == c[0] {
      LessTransitive(a[1..], b[1..], c[1..]);
    }
  }

  lemma {:induction false} LessTotal(a: string, b: string)
    ensures Less(a, b) || a == b || Less(b, a)
    ensures !(Less(a, b) && Less(b, a))
    ensures !Less(a, a)
  {
    if a != "" && b != "" && a[0] == b[0] {
      LessTotal(a[1..], b[1..]);
      assert a == [a[0]] + a[1..] && b == [b[0]] + b[1..];
    }
    if a != "" {
      LessTotal(a[1..], a[1..]);
    }
  }

  /** Two strings compare by the first place in which they differ; a beginning comes before the whole. */
  lemma {:induction false} LessMeans(a: string, b: string)
    ensures Less(a, b) <==>
            exists k: nat :: k <= |a| && k < |b| && a[..k] == b[..k] && (k == |a| || a[k] as int < b[k] as int)
  {
    if a != "" && b != "" && a[0] == b[0] {
      LessMeans(a[1..], b[1..]);
      if Less(a, b) {
        var k: nat :| k <= |a[1..]| && k < |b[1..]| && a[1..][..k] == b[1..][..k] && (k == |a[1..]| || a[1..][k] as int < b[1..][k] as int);
        assert a[..k + 1] == [a[0]] + a[1..][..k] && b[..k + 1] == [b[0]] + b[1..][..k];
      }
      if k: nat :| k <= |a| && k < |b| && a[..k] == b[..k] && (k == |a| || a[k] as int < b[k] as int) {
        assert k > 0;
        assert a[1..][..k - 1] == a[..k][1..] && b[1..][..k - 1] == b[..k][1..];
      }
    } else {
      assert a[..0] == b[..0];
      forall k: nat | 0 < k <= |a| && k <= |b|
        ensures a[..k] != b[..k]
      {
        assert a[..k][0] == a[0] && b[..k][0] == b[0];
      }
    }
  }

  ghost predicate Ascending(fields: seq<Field>) {
    forall i, j :: 0 <= i < j < |fields| ==> Less(fields[i].key, fields[j].key)
  }

  lemma {:induction false} InsertAscending(f: Field, fields: seq<Field>)
    requires Ascending(fields)
    requires forall i :: 0 <= i < |fields| ==> fields[i].key != f.key
    ensures Ascending(Insert(f, fields))
  {
    if fields == [] {
    } else if !Less(fields[0].key, f.key) {
      LessTotal(fields[0].key, f.key);
      forall j | 0 <= j < |fields|
        ensures Less(f.key, fields[j].key)
      {
        if j > 0 {
          LessTransitive(f.key, fields[0].key, fields[j].key);
        }
      }
    } else {
      var rest := Insert(f, fields[1..]);
      InsertAscending(f, fields[1..]);
      forall j | 0 <= j < |rest|
        ensures Less(fields[0].key, rest[j].key)
      {
        assert rest[j] in rest;
        if rest[j] != f {
          var k :| 0 <= k < |fields[1..]| && fields[1..][k] == rest[j];
          assert fields[k + 1] == rest[j];
        }
      }
    }
  }

  // ---------- What sorting keeps ----------

  function SortedField(f: Field): Field { Field(f.key, Sorted(f.value)) }

  lemma {:induction false} SortedFieldsContent(fields: seq<Field>)
    ensures forall i :: 0 <= i < |fields| ==> SortedField(fields[i]) in SortedFields(fields)
    ensures forall g :: g in SortedFields(fields) ==> exists i :: 0 <= i < |fields| && g == SortedField(fields[i])
  {
    if fields != [] {
      SortedFieldsContent(fields[1..]);
      forall i | 0 <= i < |fields|
        ensures SortedField(fields[i]) in SortedFields(fields)
      {
        if i > 0 {
          assert fields[i] == fields[1..][i - 1];
        }
      }
      forall g | g in SortedFields(fields)
        ensures exists i :: 0 <= i < |fields| && g == SortedField(fields[i])
      {
        if g != SortedField(fields[0]) {
          var i :| 0 <= i < |fields[1..]| && g == SortedField(fields[1..][i]);
          assert g == SortedField(fields[i + 1]);
        }
      }
    }
  }

  lemma {:induction false} SortedFieldsAscending(fields: seq<Field>)
    requires UniqueKeys(fields)
    ensures Ascending(SortedFields(fields))
  {
    if fields != [] {
      SortedFieldsAscending(fields[1..]);
      SortedFieldsContent(fields[1..]);
      var f, rest := SortedField(fields[0]), SortedFields(fields[1..]);
      forall i | 0 <= i < |rest|
        ensures rest[i].key != f.key
      {
        assert rest[i] in rest;
        var k :| 0 <= k < |fields[1..]| && rest[i] == SortedField(fields[1..][k]);
        assert fields[1..][k] == fields[k + 1];
      }
      InsertAscending(f, rest);
    }
  }

  lemma {:induction false} SortedItemsAt(items: seq<Json>, i: nat)
    requires i < |items|
    ensures SortedItems(items)[i] == Sorted(items[i])
  {
    if i > 0 {
      SortedItemsAt(items[1..], i - 1);
    }
  }

  /** An ascending sequence inside another of the same length is that sequence. */
  lemma {:induction false} AscendingInside(x: seq<Field>, y: seq<Field>)
    requires Ascending(x) && Ascending(y)
    requires forall f :: f in x ==> f in y
    ensures |x| <= |y| && (|x| == |y| ==> x == y)
    decreases |y|
  {
    if x == [] {
    } else {
      assert x[0] in x;
      var p :| 0 <= p < |y| && y[p] == x[0];
      var rest := if p == 0 then x[1..] else x;
      forall f | f in rest
        ensures f in y[1..]
      {
        var i :| 0 <= i < |rest| && rest[i] == f;
        assert f in x;
        var q :| 0 <= q < |y| && y[q] == f;
        LessTotal(y[0].key, y[0].key);
        if p == 0 {
          assert x[i + 1] == f && Less(x[0].key, x[i + 1].key);
        } else {
          assert Less(y[0].key, y[p].key);
          if i > 0 {
            LessTransitive(y[0].key, y[p].key, x[i].key);
          }
        }
        assert q != 0;
        assert y[1..][q - 1] == f;
      }
      assert Ascending(rest) && Ascending(y[1..]);
      AscendingInside(rest, y[1..]);
      if |x| == |y| {
        assert p == 0;
        assert x == [x[0]] + x[1..] && y == [y[0]] + y[1..];
      }
    }
  }

  // ---------- Sorting decides equality ----------

  lemma {:induction false} SameThenSorted(a: Json, b: Json)
    requires Same(a, b) && Dictionaries(a) && Dictionaries(b)
    ensures Sorted(a) == Sorted(b)
    decreases a
  {
    match a
    case JArray(items) =>
      forall i | 0 <= i < |items|
        ensures SortedItems(items)[i] == SortedItems(b.items)[i]
      {
        SameThenSorted(items[i], b.items[i]);
        SortedItemsAt(items, i);
        SortedItemsAt(b.items, i);
      }
      assert SortedItems(items) == SortedItems(b.items);
    case JObject(fields) =>
      var x, y := SortedFields(fields), SortedFields(b.fields);
      SortedFieldsContent(fields);
      SortedFieldsContent(b.fields);
      forall f | f in x
        ensures f in y
      {
        var i :| 0 <= i < |fields| && f == SortedField(fields[i]);
        assert IsAmong(fields[i], b.fields);
        var k :| 0 <= k < |b.fields| && fields[i].key == b.fields[k].key && Same(fields[i].value, b.fields[k].value);
        SameThenSorted(fields[i].value, b.fields[k].value);
        assert f == SortedField(b.fields[k]);
      }
      SortedFieldsAscending(fields);
      SortedFieldsAscending(b.fields);
      AscendingInside(x, y);
    case _ =>
  }

  lemma SharedField(fields: seq<Field>, others: seq<Field>, i: nat) returns (k: nat)
    requires SortedFields(fields) == SortedFields(others) && i < |fields|
    ensures k < |others| && fields[i].key == others[k].key && Sorted(fields[i].value) == Sorted(others[k].value)
  {
    SortedFieldsContent(fields);
    SortedFieldsContent(others);
    assert SortedField(fields[i]) in SortedFields(others);
    k :| 0 <= k < |others| && SortedField(fields[i]) == SortedField(others[k]);
  }

  lemma {:induction false} SortedThenSame(a: Json, b: Json)
    requires Sorted(a) == Sorted(b)
    ensures Same(a, b)
    decreases a
  {
    match a
    case JArray(items) =>
      forall i | 0 <= i < |items|
        ensures Same(items[i], b.items[i])
      {
        SortedItemsAt(items, i);
        SortedItemsAt(b.items, i);
        SortedThenSame(items[i], b.items[i]);
      }
    case JObject(fields) =>
      forall i | 0 <= i < |fields|
        ensures IsAmong(fields[i], b.fields)
      {
        var k := SharedField(fields, b.fields, i);
        SortedThenSame(fields[i].value, b.fields[k].value);
      }
    case _ =>
  }

  /** Canonical bytes identify accepted values up to the order of object fields. */
  lemma CanonicalBytesIdentify(a: Json, b: Json)
    requires Dictionaries(a) && Dictionaries(b) && Accepted(a) && Accepted(b)
    ensures CanonicalBytes(a) == CanonicalBytes(b) <==> Same(a, b)
  {
    if Same(a, b) {
      SameThenSorted(a, b);
    }
    if CanonicalBytes(a) == CanonicalBytes(b) {
      Utf8.EncodeInjective(CanonicalText(a), CanonicalText(b));
      ReadDump(Sorted(a));
      ReadDump(Sorted(b));
      SortedThenSame(a, b);
    }
  }

  // ---------- Keys in the order of section 3.2.3 of RFC 8785 ----------

  /** The UTF-16 code units of a string. */
  function Utf16(s: string): (us: seq<int>)
    ensures forall i :: 0 <= i < |us| ==> 0 <= us[i] < 0x10000
  {
    if s == "" then []
    else
      var n := s[0] as int;
      (if n < 0x10000 then [n] else [0xD800 + (n - 0x10000) / 0x400, 0xDC00 + (n - 0x10000) % 0x400]) + Utf16(s[1..])
  }

  predicate LessUnits(a: seq<int>, b: seq<int>) {
    b != [] && (a == [] || a[0] < b[0] || (a[0] == b[0] && LessUnits(a[1..], b[1..])))
  }

  /** On ASCII keys the order by code point is the order by UTF-16 code unit. */
  lemma {:induction false} KeyOrderIsUtf16Order(a: string, b: string)
    requires Ascii(a) && Ascii(b)
    ensures Less(a, b) <==> LessUnits(Utf16(a), Utf16(b))
  {
    if a != "" && b != "" {
      KeyOrderIsUtf16Order(a[1..], b[1..]);
      assert Utf16(a)[1..] == Utf16(a[1..]) && Utf16(b)[1..] == Utf16(b[1..]);
    }
  }

  /** Without the restriction to ASCII the two orders differ. */
  lemma KeyOrdersDiffer()
    ensures Less("\U{FFFF}", "\U{10000}") && !LessUnits(Utf16("\U{FFFF}"), Utf16("\U{10000}"))
  {
  }

  // ---------- Escapes of code units ----------

  /** The \u escape of a code unit. */
  function UnitPiece(n: nat): (p: Piece)
    requires n < 0x10000
    ensures PieceOk(p)
  {
    Hex(HexDigit(n / 4096), HexDigit(n / 256 % 16), HexDigit(n / 16 % 16), HexDigit(n % 16))
  }

  lemma UnitOfPiece(n: nat)
    requires n < 0x10000
    ensures Unit(UnitPiece(n)) == n
  {
    hide HexDigit, HexValue;
    assert n / 16 / 16 == n / 256 && n / 256 / 16 == n / 4096;
  }

  function UnitPieces(us: seq<int>): (ps: seq<Piece>)
    requires forall i :: 0 <= i < |us| ==> 0 <= us[i] < 0x10000
    ensures |ps| == |us| && PiecesOk(ps) && forall i :: 0 <= i < |ps| ==> ps[i] == UnitPiece(us[i])
  {
    seq(|us|, i requires 0 <= i < |us| => UnitPiece(us[i]))
  }

  /** A string written as the escapes of its UTF-16 code units, surrogate pairs included, denotes itself
      (section 7 of RFC 8259). */
  lemma {:induction false} EscapedUnitsDenote(s: string)
    ensures PiecesValue(UnitPieces(Utf16(s))) == Some(s)
  {
    hide *;
    if s == "" {
      NoUnits();
    } else {
      EscapedUnitsDenote(s[1..]);
      UnitsSplit(s);
      FirstUnits(s[0], UnitPieces(Utf16(s[1..])));
      Prepended(s);
    }
  }

  lemma NoUnits()
    ensures PiecesValue(UnitPieces(Utf16(""))) == Some("")
  {
    assert UnitPieces([]) == [];
  }

  lemma Prepended(s: string)
    requires s != ""
    ensures Prepend(s[0], Some(s[1..])) == Some(s)
  {
    assert s == [s[0]] + s[1..];
  }

  lemma UnitsSplit(s: string)
    requires s != ""
    ensures var n, rest := s[0] as int, UnitPieces(Utf16(s[1..]));
            UnitPieces(Utf16(s)) == if n < 0x10000 then [UnitPiece(n)] + rest
                                    else [UnitPiece(0xD800 + (n - 0x10000) / 0x400), UnitPiece(0xDC00 + (n - 0x10000) % 0x400)] + rest
  {
    hide UnitPiece;
  }

  /** One unit, or a pair of surrogates, stands for the character. */
  lemma FirstUnits(c: char, rest: seq<Piece>)
    requires PiecesOk(rest)
    ensures c as int < 0x10000 ==> PiecesValue([UnitPiece(c as int)] + rest) == Prepend(c, PiecesValue(rest))
    ensures c as int >= 0x10000 ==>
              PiecesValue([UnitPiece(0xD800 + (c as int - 0x10000) / 0x400), UnitPiece(0xDC00 + (c as int - 0x10000) % 0x400)] + rest)
              == Prepend(c, PiecesValue(rest))
  {
    hide UnitPiece, Unit;
    if c as int < 0x10000 {
      UnitOfPiece(c as int);
      HexPieces(c as int);
      assert ([UnitPiece(c as int)] + rest)[1..] == rest;
    } else {
      var high, low := 0xD800 + (c as int - 0x10000) / 0x400, 0xDC00 + (c as int - 0x10000) % 0x400;
      UnitOfPiece(high);
      HexPieces(high);
      UnitOfPiece(low);
      HexPieces(low);
      assert ([UnitPiece(high), UnitPiece(low)] + rest)[2..] == rest;
    }
  }

  lemma HexPieces(n: nat)
    requires n < 0x10000
    ensures UnitPiece(n).Hex?
  {
  }

  /** The example of section 7 of RFC 8259: the escapes of U+1D11E, in capitals. */
  lemma GClef()
    ensures PiecesValue([Hex('D', '8', '3', '4'), Hex('D', 'D', '1', 'E')]) == Some("\U{1D11E}")
  {
    var ps := [Hex('D', '8', '3', '4'), Hex('D', 'D', '1', 'E')];
    assert ps[2..] == [] && PiecesValue([]) == Some("");
    assert PiecesOk(ps) && Unit(ps[0]) == 0xD834 && Unit(ps[1]) == 0xDD1E;
    hide HexValue, Unit;
    assert PiecesValue(ps) == Prepend((0x10000 + (0xD834 - 0xD800) * 0x400 + (0xDD1E - 0xDC00)) as char, PiecesValue(ps[2..]));
    assert [0x1D11E as char] + "" == "\U{1D11E}";
  }

  /** The digits and the short escapes, by their tables. */
  lemma EscapesByTable(c: char)
    ensures IsHex(c) ==> "0123456789abcdef"[HexValue(c)] == c || "0123456789ABCDEF"[HexValue(c)] == c
    ensures c in "\"\\/" ==> EscapedChar(c) == c
    ensures EscapedChar('b') as int == 8 && EscapedChar('t') as int == 9 && EscapedChar('n') as int == 10
    ensures EscapedChar('f') as int == 12 && EscapedChar('r') as int == 13
  {
  }
}
