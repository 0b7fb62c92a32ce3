/** Which of all texts of a JSON value the canonical one is: the shortest, with lowercase hexadecimal
    digits and with ascending keys (section 3.2 of RFC 8785). */
module Shortest {
  import opened Records
  import opened JsonText
  import opened Canonical
  import opened CanonicalIdentity

  // ---------- Strings ----------

  /** All hexadecimal digits of \u escapes are lowercase. */
  predicate Lowercase(ps: seq<Piece>) {
    forall i :: 0 <= i < |ps| && ps[i].Hex? ==>
      IsLowerHex(ps[i].a) && IsLowerHex(ps[i].b) && IsLowerHex(ps[i].c1) && IsLowerHex(ps[i].d)
  }

  lemma HexValueZero(c: char)
    requires IsHex(c)
    ensures HexValue(c) == 0 <==> c == '0'
    ensures IsLowerHex(c) ==> HexDigit(HexValue(c)) == c
  {
  }

  /** A single piece is no shorter than the canonical one for its character, and if it is as long and
      lowercase it is the canonical one. */
  lemma PieceIsLonger(p: Piece, c: char)
    requires PieceOk(p)
    requires match p case Plain(d) => c == d case Escaped(d) => c == EscapedChar(d) case Hex(_, _, _, _) => c as int == Unit(p)
    ensures |EscapeChar(c)| <= |PieceText(p)|
    ensures |EscapeChar(c)| == |PieceText(p)| && Lowercase([p]) ==> EscapeChar(c) == PieceText(p)
  {
    if p.Hex? {
      HexPiece(p, c);
    }
  }

  lemma HexPiece(p: Piece, c: char)
    requires PieceOk(p) && p.Hex? && c as int == Unit(p)
    ensures |EscapeChar(c)| <= 6
    ensures |EscapeChar(c)| == 6 && Lowercase([p]) ==> EscapeChar(c) == PieceText(p)
  {
    if |EscapeChar(c)| == 6 {
      assert c as int < 32;
      HexValueZero(p.a);
      HexValueZero(p.b);
      HexValueZero(p.c1);
      HexValueZero(p.d);
      assert HexValue(p.a) == 0 && HexValue(p.b) == 0;
      assert c as int / 16 == HexValue(p.c1) && c as int % 16 == HexValue(p.d);
      if Lowercase([p]) {
        assert [p][0] == p;
      }
    }
  }

  lemma LowercaseParts(ps: seq<Piece>, n: nat)
    requires n <= |ps| && Lowercase(ps)
    ensures Lowercase(ps[..n]) && Lowercase(ps[n..])
  {
  }

  lemma PairIsLonger(p: Piece, q: Piece, c: char)
    requires p.Hex? && q.Hex? && c as int >= 0x10000
    ensures |EscapeChar(c)| < |PieceText(p)| + |PieceText(q)|
  {
  }

  /** No spelling of a string is shorter than the canonical one, and no other lowercase one is as short. */
  lemma {:induction false} PiecesAreLonger(ps: seq<Piece>, s: string)
    requires PiecesOk(ps) && PiecesValue(ps) == Some(s)
    ensures |EscapeText(s)| <= |PiecesText(ps)|
    ensures |EscapeText(s)| == |PiecesText(ps)| && Lowercase(ps) ==> EscapeText(s) == PiecesText(ps)
  {
    hide EscapeChar, PieceText, EscapedChar, Unit, HexValue;
    if ps != [] {
      var p := ps[0];
      if p.Hex? && High(Unit(p)) {
        assert PiecesValue(ps[2..]).Some? && s == [s[0]] + PiecesValue(ps[2..]).value;
        assert s[1..] == PiecesValue(ps[2..]).value;
        PiecesAreLonger(ps[2..], s[1..]);
        PairIsLonger(p, ps[1], s[0]);
        assert ps[1..][0] == ps[1] && ps[1..][1..] == ps[2..];
        assert PiecesText(ps[1..]) == PieceText(ps[1]) + PiecesText(ps[2..]);
      } else {
        assert PiecesValue(ps[1..]).Some? && s == [s[0]] + PiecesValue(ps[1..]).value;
        assert s[1..] == PiecesValue(ps[1..]).value;
        PiecesAreLonger(ps[1..], s[1..]);
        PieceIsLonger(p, s[0]);
        if Lowercase(ps) {
          LowercaseParts(ps, 1);
          assert ps[..1] == [p];
        }
      }
    }
  }

  // ---------- Numbers ----------

  lemma DigitsBound(s: string)
    requires NaturalToken(s) && |s| > 1
    ensures DigitsValue(s) >= 10 && NaturalToken(s[..|s| - 1]) && DigitsValue(s[..|s| - 1]) > 0
    ensures DigitsValue(s) / 10 == DigitsValue(s[..|s| - 1]) && DigitsValue(s) % 10 == s[|s| - 1] as int - '0' as int
  {
    var init := s[..|s| - 1];
    assert init[0] == s[0];
    if |init| > 1 {
      DigitsBound(init);
    } else {
      assert init[..0] == "" && DigitsValue("") == 0;
    }
  }

  /** A natural number has one token. */
  lemma {:induction false} TokenOfNatural(s: string)
    requires NaturalToken(s)
    ensures DigitsText(DigitsValue(s)) == s
  {
    if |s| > 1 {
      DigitsBound(s);
      TokenOfNatural(s[..|s| - 1]);
      assert s == s[..|s| - 1] + [s[|s| - 1]];
    } else {
      assert s[..0] == "" && DigitsValue("") == 0;
      assert s == [s[0]];
    }
  }

  lemma TokensAreLonger(s: string, n: int)
    requires IntegerToken(s) && IntegerValue(s) == n
    ensures |IntegerText(n)| <= |s| && (|IntegerText(n)| == |s| ==> IntegerText(n) == s)
  {
    if s[0] == '-' {
      TokenOfNatural(s[1..]);
      assert s == "-" + s[1..];
    } else {
      TokenOfNatural(s);
    }
  }

  // ---------- Values ----------

  predicate LowercaseTree(t: Tree)
    decreases t, 1
  {
    match t
    case StringTree(ps) => Lowercase(ps)
    case ArrayTree(_, es) => LowercaseElements(es)
    case ObjectTree(_, ms) => LowercaseMembers(ms)
    case _ => true
  }

  predicate LowercaseElements(es: seq<Element>)
    decreases es, 0
  {
    es == [] || (LowercaseTree(es[0].value) && LowercaseElements(es[1..]))
  }

  predicate LowercaseMembers(ms: seq<Member>)
    decreases ms, 0
  {
    ms == [] || (Lowercase(ms[0].key) && LowercaseTree(ms[0].value) && LowercaseMembers(ms[1..]))
  }

  /** The text is no shorter than this one, and if it is lowercase and no longer, it is this one. */
  predicate NoShorter(x: string, lowercase: bool, least: string) {
    |least| <= |x| && (|least| == |x| && lowercase ==> least == x)
  }

  lemma StringsAreLonger(ps: seq<Piece>, s: string)
    requires PiecesOk(ps) && PiecesValue(ps) == Some(s)
    ensures NoShorter(Quoted(ps), Lowercase(ps), StringDump(s))
  {
    PiecesAreLonger(ps, s);
  }

  lemma Concats(x: string, lx: bool, a: string, y: string, ly: bool, b: string)
    requires NoShorter(x, lx, a) && NoShorter(y, ly, b)
    ensures NoShorter(x + y, lx && ly, a + b)
  {
  }

  lemma Itself(x: string)
    ensures NoShorter(x, true, x) && NoShorter(x, true, "")
  {
  }

  /** A value with blanks around it and what follows. */
  lemma Padded(before: string, x: string, lx: bool, a: string, after: string, y: string, ly: bool, b: string)
    requires NoShorter(x, lx, a) && NoShorter(y, ly, b)
    ensures NoShorter(before + x + after + y, lx && ly, a + b)
  {
    hide NoShorter;
    Itself(before);
    Itself(after);
    Concats(before, true, "", x, lx, a);
    Concats(before + x, lx, "" + a, after, true, "");
    Concats(before + x + after, lx, "" + a + "", y, ly, b);
    assert "" + a + "" + b == a + b;
  }

  /** No text of a value is shorter than the compact one, and no other lowercase one is as short. */
  lemma {:induction false} TreesAreLonger(t: Tree, j: Json)
    requires Ok(t) && Value(t) == Some(j)
    ensures NoShorter(Text(t), LowercaseTree(t), Dump(j))
    decreases t, 1
  {
    match t
    case WordTree(_) =>
    case NumberTree(n) =>
      TokensAreLonger(n.integer, j.n);
      assert NumberText(n) == n.integer;
    case StringTree(ps) => StringsAreLonger(ps, j.s);
    case ArrayTree(_, es) =>
      if es != [] {
        ElementsAreLonger(es, j.items);
      }
    case ObjectTree(_, ms) =>
      if ms != [] {
        MembersAreLonger(ms, j.fields);
      }
  }

  lemma {:induction false} ElementsAreLonger(es: seq<Element>, items: seq<Json>)
    requires es != [] && ElementsOk(es) && ElementsValue(es) == Some(items)
    ensures items != [] && NoShorter(ElementsText(es), LowercaseElements(es), ItemsDump(items))
    decreases es, 0
  {
    hide Dump, Text, Ok, Value, LowercaseTree;
    TreesAreLonger(es[0].value, items[0]);
    if |es| > 1 {
      assert ElementsValue(es[1..]) == Some(items[1..]);
      ElementsAreLonger(es[1..], items[1..]);
    } else {
      assert es[1..] == [] && ElementsValue([]) == Some([]);
    }
    var tail, least := if |es| == 1 then "]" else "," + ElementsText(es[1..]), if |items| == 1 then "]" else "," + ItemsDump(items[1..]);
    Itself("]");
    Itself(",");
    if |es| > 1 {
      Concats(",", true, ",", ElementsText(es[1..]), LowercaseElements(es[1..]), ItemsDump(items[1..]));
    }
    Padded(es[0].before, Text(es[0].value), LowercaseTree(es[0].value), Dump(items[0]), es[0].after,
           tail, LowercaseElements(es[1..]), least);
  }

  lemma MemberIsLonger(m: Member, f: Field)
    requires PiecesOk(m.key) && PiecesValue(m.key) == Some(f.key)
    requires NoShorter(Text(m.value), LowercaseTree(m.value), Dump(f.value))
    ensures NoShorter(MemberText(m), Lowercase(m.key) && LowercaseTree(m.value), StringDump(f.key) + ":" + Dump(f.value))
  {
    hide NoShorter, Dump, Text, LowercaseTree, Quoted, StringDump;
    StringsAreLonger(m.key, f.key);
    Itself(":");
    Padded("", Quoted(m.key), Lowercase(m.key), StringDump(f.key), m.beforeColon, ":", true, ":");
    assert "" + Quoted(m.key) + m.beforeColon + ":" == Quoted(m.key) + m.beforeColon + ":";
    Padded("", Quoted(m.key) + m.beforeColon + ":", Lowercase(m.key), StringDump(f.key) + ":", m.afterColon,
           Text(m.value), LowercaseTree(m.value), Dump(f.value));
    assert "" + (Quoted(m.key) + m.beforeColon + ":") == Quoted(m.key) + m.beforeColon + ":";
  }

  lemma {:induction false} MembersAreLonger(ms: seq<Member>, fields: seq<Field>)
    requires ms != [] && MembersOk(ms) && MembersValue(ms) == Some(fields)
    ensures fields != [] && NoShorter(MembersText(ms), LowercaseMembers(ms), FieldsDump(fields))
    decreases ms, 0
  {
    hide Dump, Text, Ok, Value, LowercaseTree, MemberText, StringDump, PiecesOk, PiecesValue, Lowercase, NoShorter;
    var m := ms[0];
    FirstMember(ms, fields);
    TreesAreLonger(m.value, fields[0].value);
    MemberIsLonger(m, fields[0]);
    if |ms| > 1 {
      MembersAreLonger(ms[1..], fields[1..]);
    }
    var tail, least := if |ms| == 1 then "}" else "," + MembersText(ms[1..]), if |fields| == 1 then "}" else "," + FieldsDump(fields[1..]);
    Itself("}");
    Itself(",");
    if |ms| > 1 {
      Concats(",", true, ",", MembersText(ms[1..]), LowercaseMembers(ms[1..]), FieldsDump(fields[1..]));
    }
    Padded(m.before, MemberText(m), Lowercase(m.key) && LowercaseTree(m.value), StringDump(fields[0].key) + ":" + Dump(fields[0].value),
           m.after, tail, LowercaseMembers(ms[1..]), least);
  }

  lemma {:induction false} FirstMember(ms: seq<Member>, fields: seq<Field>)
    requires ms != [] && MembersOk(ms) && MembersValue(ms) == Some(fields)
    ensures |fields| == |ms| && PiecesOk(ms[0].key) && Ok(ms[0].value)
    ensures PiecesValue(ms[0].key) == Some(fields[0].key) && Value(ms[0].value) == Some(fields[0].value)
    ensures MembersOk(ms[1..]) && MembersValue(ms[1..]) == Some(fields[1..])
  {
    hide Ok, Value, PiecesOk, PiecesValue;
    MembersCount(ms[1..]);
    assert [MemberValue(ms[0]).value] + fields[1..] == fields;
  }

  lemma {:induction false} MembersCount(ms: seq<Member>)
    requires MembersOk(ms)
    ensures MembersValue(ms).Some? ==> |MembersValue(ms).value| == |ms|
  {
    hide Ok, Value, PiecesOk, PiecesValue;
    if ms != [] {
      MembersCount(ms[1..]);
    }
  }

  // ---------- Texts of a value ----------

  /** The compact text of a value has itself lowercase digits. */
  lemma {:induction false} CanonicalPieces(s: string)
    ensures Lowercase(Pieces(s))
  {
    if s != "" {
      CanonicalPieces(s[1..]);
      OnePiece(s[0]);
    }
  }

  lemma OnePiece(c: char)
    ensures Lowercase([CharPiece(c)])
  {
  }

  lemma {:induction false} CanonicalTree(j: Json)
    ensures LowercaseTree(Canonical.Tree(j))
    decreases j, 1
  {
    match j
    case JString(s) => CanonicalPieces(s);
    case JArray(items) => CanonicalElements(items);
    case JObject(fields) => CanonicalMembers(fields);
    case _ =>
  }

  lemma {:induction false} CanonicalElements(items: seq<Json>)
    ensures LowercaseElements(Elements(items))
    decreases items, 0
  {
    if items != [] {
      CanonicalTree(items[0]);
      CanonicalElements(items[1..]);
      assert Elements(items)[1..] == Elements(items[1..]);
    }
  }

  lemma {:induction false} CanonicalMembers(fields: seq<Field>)
    ensures LowercaseMembers(Members(fields))
    decreases fields, 0
  {
    if fields != [] {
      CanonicalTree(fields[0].value);
      CanonicalPieces(fields[0].key);
      CanonicalMembers(fields[1..]);
      assert Members(fields)[1..] == Members(fields[1..]);
    }
  }

  /** A JSON text of this value with lowercase digits. */
  ghost predicate IsText(x: string, j: Json) {
    exists d :: DocumentOk(d) && DocumentValue(d) == Some(j) && LowercaseTree(d.value) && DocumentText(d) == x
  }

  /** The compact text is a text of its value, and every other one is longer. */
  lemma DumpIsShortest(j: Json)
    ensures IsText(Dump(j), j)
    ensures forall x :: IsText(x, j) && x != Dump(j) ==> |x| > |Dump(j)|
    ensures forall d :: DocumentOk(d) && DocumentValue(d) == Some(j) ==> |DocumentText(d)| >= |Dump(j)|
  {
    TreeMeans(j);
    CanonicalTree(j);
    var own := JsonDocument("", Canonical.Tree(j), "");
    assert DocumentText(own) == Dump(j);
    hide Dump, Canonical.Tree, Text, Ok, LowercaseTree, Value;
    forall d | DocumentOk(d) && DocumentValue(d) == Some(j)
      ensures NoShorter(DocumentText(d), LowercaseTree(d.value), Dump(j))
    {
      DocumentIsLonger(d, j);
    }
  }

  lemma DocumentIsLonger(d: JsonDocument, j: Json)
    requires DocumentOk(d) && DocumentValue(d) == Some(j)
    ensures NoShorter(DocumentText(d), LowercaseTree(d.value), Dump(j))
  {
    hide Dump, Text, Ok, LowercaseTree, Value, NoShorter;
    TreesAreLonger(d.value, j);
    Itself(d.after);
    Padded(d.before, Text(d.value), LowercaseTree(d.value), Dump(j), "", d.after, true, "");
    assert d.before + Text(d.value) + "" + d.after == DocumentText(d) && Dump(j) + "" == Dump(j);
  }

  // ---------- Characters ----------

  const HEX_DIGITS := "0123456789abcdef"

  /** Section 3.2.2.2 of RFC 8785, character by character. */
  lemma CharactersByTable(c: char)
    ensures c == '"' ==> EscapeText([c]) == ['\\', '"']
    ensures c == '\\' ==> EscapeText([c]) == ['\\', '\\']
    ensures c as int == 8 ==> EscapeText([c]) == ['\\', 'b']
    ensures c as int == 9 ==> EscapeText([c]) == ['\\', 't']
    ensures c as int == 10 ==> EscapeText([c]) == ['\\', 'n']
    ensures c as int == 12 ==> EscapeText([c]) == ['\\', 'f']
    ensures c as int == 13 ==> EscapeText([c]) == ['\\', 'r']
    ensures c as int < 32 && c as int !in {8, 9, 10, 12, 13} ==>
              EscapeText([c]) == ['\\', 'u', '0', '0', HEX_DIGITS[c as int / 16], HEX_DIGITS[c as int % 16]]
    ensures c as int >= 32 && c != '"' && c != '\\' ==> EscapeText([c]) == [c]
  {
    assert [c][1..] == "" && EscapeText("") == "";
  }

  lemma {:induction false} TextsConcat(s: string, t: string)
    ensures EscapeText(s + t) == EscapeText(s) + EscapeText(t)
  {
    hide EscapeChar;
    if s == "" {
      assert s + t == t;
    } else {
      assert (s + t)[1..] == s[1..] + t;
      TextsConcat(s[1..], t);
    }
  }

  function Power10(k: nat): (n: nat)
    ensures n > 0
  {
    if k == 0 then 1 else 10 * Power10(k - 1)
  }

  /** Counted from the right, the characters of a number are its decimal digits. */
  lemma {:induction false} DecimalDigits(n: nat, k: nat)
    requires k < |DigitsText(n)|
    ensures DigitsText(n)[|DigitsText(n)| - 1 - k] == HEX_DIGITS[n / Power10(k) % 10]
  {
    LastDigit(n);
    hide HEX_DIGITS;
    if k > 0 {
      DecimalDigits(n / 10, k - 1);
      DividedTwice(n, Power10(k - 1));
    }
  }

  lemma LastDigit(n: nat)
    ensures var s := DigitsText(n); s[|s| - 1] == HEX_DIGITS[n % 10]
  {
    DigitChar(n % 10);
  }

  lemma DigitChar(d: nat)
    requires d < 10
    ensures HEX_DIGITS[d] as int == d + '0' as int
  {
  }

  lemma DividedTwice(n: nat, d: nat)
    requires d > 0
    ensures n / 10 / d == n / (10 * d)
  {
    var q := n / 10 / d;
    assert n / 10 == d * q + n / 10 % d;
    assert n == 10 * (n / 10) + n % 10;
    assert n == (10 * d) * q + (10 * (n / 10 % d) + n % 10);
    Quotient(n, 10 * d, q, 10 * (n / 10 % d) + n % 10);
  }

  lemma Quotient(n: nat, d: nat, q: nat, r: nat)
    requires d > 0 && n == d * q + r && r < d
    ensures n / d == q
  {
    var m := n / d;
    assert n == d * m + n % d;
    Steps(d, m, q);
    Steps(d, q, m);
  }

  lemma Steps(d: nat, x: int, y: int)
    ensures x < y ==> d * x + d <= d * y
  {
    if x < y {
      Distribute(d, x + 1, y - x - 1);
      Distribute(d, x, 1);
    }
  }

  lemma Distribute(d: nat, x: int, y: nat)
    ensures d * (x + y) == d * x + d * y && d * y >= 0
  {
  }

  // ---------- Ascending keys ----------

  /** In every object the keys ascend. */
  ghost predicate KeysAscend(j: Json)
    decreases j
  {
    match j
    case JArray(items) => forall i :: 0 <= i < |items| ==> KeysAscend(items[i])
    case JObject(fields) => Ascending(fields) && forall i :: 0 <= i < |fields| ==> KeysAscend(fields[i].value)
    case _ => true
  }

  lemma {:induction false} SortedAscends(j: Json)
    requires Dictionaries(j)
    ensures KeysAscend(Sorted(j))
    decreases j
  {
    match j
    case JArray(items) =>
      forall i | 0 <= i < |items|
        ensures KeysAscend(SortedItems(items)[i])
      {
        SortedItemsAt(items, i);
        SortedAscends(items[i]);
      }
    case JObject(fields) =>
      SortedFieldsAscending(fields);
      SortedFieldsContent(fields);
      var sorted := SortedFields(fields);
      forall k | 0 <= k < |sorted|
        ensures KeysAscend(sorted[k].value)
      {
        assert sorted[k] in sorted;
        var i :| 0 <= i < |fields| && sorted[k] == SortedField(fields[i]);
        SortedAscends(fields[i].value);
      }
    case _ =>
  }

  lemma {:induction false} AscendingIsSorted(j: Json)
    requires KeysAscend(j)
    ensures Sorted(j) == j && Dictionaries(j)
    decreases j
  {
    match j
    case JArray(items) =>
      forall i | 0 <= i < |items|
        ensures SortedItems(items)[i] == items[i] && Dictionaries(items[i])
      {
        SortedItemsAt(items, i);
        AscendingIsSorted(items[i]);
      }
      assert SortedItems(items) == items;
    case JObject(fields) =>
      UniqueWhenAscending(fields);
      SortedFieldsAscending(fields);
      SortedFieldsContent(fields);
      forall i | 0 <= i < |fields|
        ensures SortedField(fields[i]) == fields[i] && Dictionaries(fields[i].value)
      {
        AscendingIsSorted(fields[i].value);
      }
      AscendingInside(SortedFields(fields), fields);
    case _ =>
  }

  lemma UniqueWhenAscending(fields: seq<Field>)
    requires Ascending(fields)
    ensures UniqueKeys(fields)
  {
    forall i, j | 0 <= i < j < |fields|
      ensures fields[i].key != fields[j].key
    {
      LessTotal(fields[i].key, fields[i].key);
    }
  }

  /** The canonical text of a value is a text of the same JSON value with ascending keys and lowercase
      digits, and every other such text is longer. */
  lemma CanonicalTextIs(j: Json)
    requires Dictionaries(j)
    ensures exists v :: Same(v, j) && KeysAscend(v) && IsText(CanonicalText(j), v)
    ensures forall x, v :: Same(v, j) && KeysAscend(v) && IsText(x, v) && x != CanonicalText(j) ==> |x| > |CanonicalText(j)|
  {
    hide IsText, Dump;
    var s := Sorted(j);
    SortedAscends(j);
    AscendingIsSorted(s);
    SortedThenSame(s, j);
    DumpIsShortest(s);
    forall v | Same(v, j) && KeysAscend(v)
      ensures v == s
    {
      AscendingIsSorted(v);
      SameThenSorted(v, j);
    }
  }
}
