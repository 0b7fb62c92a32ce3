/** The canonical encoding of JSON values: compact text, object keys in ascending order. */
module Canonical {
  import opened Records
  import opened JsonText
  import JsonReading
  import Utf8

  const MAX_CANONICAL_DEPTH := 16

  // ---------- Text of a value ----------

  function DigitsText(n: nat): (s: string)
    ensures NaturalToken(s)
  {
    if n < 10 then [(n + '0' as int) as char] else DigitsText(n / 10) + [(n % 10 + '0' as int) as char]
  }

  function IntegerText(n: int): string {
    if n < 0 then "-" + DigitsText(-n) else DigitsText(n)
  }

  function HexDigit(n: nat): (c: char)
    requires n < 16
    ensures IsHex(c) && HexValue(c) == n
  {
    if n < 10 then (n + '0' as int) as char else (n - 10 + 'a' as int) as char
  }

  function EscapeChar(c: char): string {
    if c == '"' then "\\\""
    else if c == '\\' then "\\\\"
    else if c == '\n' then "\\n"
    else if c == '\r' then "\\r"
    else if c == '\t' then "\\t"
    else if c == 12 as char then "\\f"
    else if c == 8 as char then "\\b"
    else if c < ' ' then "\\u00" + [HexDigit(c as int / 16), HexDigit(c as int % 16)]
    else [c]
  }

  function EscapeText(s: string): string {
    if s == "" then "" else EscapeChar(s[0]) + EscapeText(s[1..])
  }

  function StringDump(s: string): string { "\"" + EscapeText(s) + "\"" }

  /** The compact text of a value in the order in which its fields stand. */
  function Dump(j: Json): string
    decreases j, 1
  {
    match j
    case JNull => "null"
    case JBool(b) => if b then "true" else "false"
    case JInt(n) => IntegerText(n)
    case JString(s) => StringDump(s)
    case JArray(items) => if items == [] then "[]" else "[" + ItemsDump(items)
    case JObject(fields) => if fields == [] then "{}" else "{" + FieldsDump(fields)
  }

  function ItemsDump(items: seq<Json>): string
    requires items != []
    decreases items, 0
  {
    Dump(items[0]) + (if |items| == 1 then "]" else "," + ItemsDump(items[1..]))
  }

  function FieldsDump(fields: seq<Field>): string
    requires fields != []
    decreases fields, 0
  {
    StringDump(fields[0].key) + ":" + Dump(fields[0].value) +
    (if |fields| == 1 then "}" else "," + FieldsDump(fields[1..]))
  }

  // ---------- Sorting ----------

  /** Order by code point, the order in which Python compares strings. */
  predicate Less(a: string, b: string) {
    b != "" && (a == "" || a[0] < b[0] || (a[0] == b[0] && Less(a[1..], b[1..])))
  }

  function Insert(f: Field, fields: seq<Field>): (r: seq<Field>)
    ensures |r| == |fields| + 1
    ensures forall g :: g in r <==> g == f || g in fields
  {
    if fields == [] || !Less(fields[0].key, f.key) then [f] + fields
    else
      assert fields == [fields[0]] + fields[1..];
      [fields[0]] + Insert(f, fields[1..])
  }

  /** The value with the fields of every object in ascending order of their keys. */
  function Sorted(j: Json): Json
    decreases j, 1
  {
    match j
    case JArray(items) => JArray(SortedItems(items))
    case JObject(fields) => JObject(SortedFields(fields))
    case _ => j
  }

  function SortedItems(items: seq<Json>): (r: seq<Json>)
    ensures |r| == |items|
    decreases items, 0
  {
    if items == [] then [] else [Sorted(items[0])] + SortedItems(items[1..])
  }

  function SortedFields(fields: seq<Field>): (r: seq<Field>)
    ensures |r| == |fields|
    decreases fields, 0
  {
    if fields == [] then []
    else Insert(Field(fields[0].key, Sorted(fields[0].value)), SortedFields(fields[1..]))
  }

  // ---------- Accepted values and their bytes ----------

  predicate Ascii(s: string) { forall i :: 0 <= i < |s| ==> s[i] < 128 as char }

  predicate UniqueKeys(fields: seq<Field>) {
    forall i, j :: 0 <= i < j < |fields| ==> fields[i].key != fields[j].key
  }

  /** Every object has distinct keys, as a dictionary has. */
  predicate Dictionaries(j: Json)
    decreases j
  {
    match j
    case JArray(items) => forall i :: 0 <= i < |items| ==> Dictionaries(items[i])
    case JObject(fields) => UniqueKeys(fields) && forall i :: 0 <= i < |fields| ==> Dictionaries(fields[i].value)
    case _ => true
  }

  predicate AsciiKeys(j: Json)
    decreases j
  {
    match j
    case JArray(items) => forall i :: 0 <= i < |items| ==> AsciiKeys(items[i])
    case JObject(fields) => forall i :: 0 <= i < |fields| ==> Ascii(fields[i].key) && AsciiKeys(fields[i].value)
    case _ => true
  }

  predicate Accepted(j: Json) { Depth(j) <= MAX_CANONICAL_DEPTH && AsciiKeys(j) }

  function CanonicalText(j: Json): string { Dump(Sorted(j)) }

  function CanonicalBytes(j: Json): Option<Bytes> {
    if Accepted(j) then Some(Utf8.Encode(CanonicalText(j))) else None
  }

  /** Equality of JSON values: the order of fields does not matter, the order of items does. */
  ghost predicate Same(a: Json, b: Json)
    decreases a
  {
    match a
    case JArray(items) =>
      b.JArray? && |items| == |b.items| && forall i :: 0 <= i < |items| ==> Same(items[i], b.items[i])
    case JObject(fields) =>
      b.JObject? && |fields| == |b.fields| && forall i :: 0 <= i < |fields| ==> IsAmong(fields[i], b.fields)
    case _ => a == b
  }

  ghost predicate IsAmong(f: Field, fields: seq<Field>)
    decreases f
  {
    exists k :: 0 <= k < |fields| && f.key == fields[k].key && Same(f.value, fields[k].value)
  }

  // ---------- A dumped text is a JSON text of the dumped value ----------

  function CharPiece(c: char): Piece {
    var e := EscapeChar(c);
    if |e| == 1 then Plain(c) else if |e| == 2 then Escaped(e[1]) else Hex('0', '0', e[4], e[5])
  }

  function Pieces(s: string): seq<Piece> {
    if s == "" then [] else [CharPiece(s[0])] + Pieces(s[1..])
  }

  lemma CharPieceMeans(c: char)
    ensures PieceOk(CharPiece(c)) && PieceText(CharPiece(c)) == EscapeChar(c)
    ensures !CharPiece(c).Hex? ==> c == if CharPiece(c).Plain? then CharPiece(c).c else EscapedChar(CharPiece(c).c)
    ensures CharPiece(c).Hex? ==> Unit(CharPiece(c)) == c as int < 32
  {
  }

  lemma {:induction false} PiecesMean(s: string)
    ensures PiecesOk(Pieces(s)) && PiecesText(Pieces(s)) == EscapeText(s) && PiecesValue(Pieces(s)) == Some(s)
  {
    if s != "" {
      CharPieceMeans(s[0]);
      PiecesMean(s[1..]);
      assert Pieces(s)[1..] == Pieces(s[1..]);
      assert [s[0]] + s[1..] == s;
    }
  }

  lemma {:induction false} DigitsMean(n: nat)
    ensures DigitsValue(DigitsText(n)) == n
  {
    if n >= 10 {
      DigitsMean(n / 10);
      var s := DigitsText(n);
      assert s[..|s| - 1] == DigitsText(n / 10);
    } else {
      var s := DigitsText(n);
      assert s[..|s| - 1] == "" && DigitsValue("") == 0;
    }
  }

  function Tree(j: Json): Tree
    decreases j, 1
  {
    match j
    case JNull => WordTree(NullWord)
    case JBool(b) => WordTree(if b then TrueWord else FalseWord)
    case JInt(n) => NumberTree(Number(IntegerText(n), "", ""))
    case JString(s) => StringTree(Pieces(s))
    case JArray(items) => ArrayTree("", Elements(items))
    case JObject(fields) => ObjectTree("", Members(fields))
  }

  function Elements(items: seq<Json>): (r: seq<Element>)
    ensures |r| == |items|
    decreases items, 0
  {
    if items == [] then [] else [Element("", Tree(items[0]), "")] + Elements(items[1..])
  }

  function Members(fields: seq<Field>): (r: seq<Member>)
    ensures |r| == |fields|
    decreases fields, 0
  {
    if fields == [] then []
    else [Member("", Pieces(fields[0].key), "", "", Tree(fields[0].value), "")] + Members(fields[1..])
  }

  lemma {:induction false} TreeMeans(j: Json)
    ensures Ok(Tree(j)) && Text(Tree(j)) == Dump(j) && Value(Tree(j)) == Some(j)
    decreases j, 1
  {
    match j
    case JNull =>
    case JBool(_) =>
    case JInt(n) => IntegerMeans(n);
    case JString(s) => PiecesMean(s);
    case JArray(items) =>
      ElementsMean(items);
    case JObject(fields) =>
      MembersMean(fields);
  }

  lemma IntegerMeans(n: int)
    ensures IntegerToken(IntegerText(n)) && IntegerValue(IntegerText(n)) == n
    ensures NumberText(Number(IntegerText(n), "", "")) == IntegerText(n)
  {
    DigitsMean(if n < 0 then -n else n);
    if n < 0 {
      assert IntegerText(n)[1..] == DigitsText(-n);
    }
  }

  lemma {:induction false} ElementsMean(items: seq<Json>)
    ensures ElementsOk(Elements(items)) && ElementsValue(Elements(items)) == Some(items)
    ensures items != [] ==> ElementsText(Elements(items)) == ItemsDump(items)
    decreases items, 0
  {
    if items != [] {
      TreeMeans(items[0]);
      ElementsMean(items[1..]);
      assert Elements(items)[1..] == Elements(items[1..]);
      assert [items[0]] + items[1..] == items;
      assert "" + Dump(items[0]) + "" == Dump(items[0]);
    }
  }

  lemma {:induction false} MembersMean(fields: seq<Field>)
    ensures MembersOk(Members(fields)) && MembersValue(Members(fields)) == Some(fields)
    ensures fields != [] ==> MembersText(Members(fields)) == FieldsDump(fields)
    decreases fields, 0
  {
    if fields != [] {
      hide Dump, Tree, Ok, Text, Value, PiecesOk, PiecesText, PiecesValue, EscapeText;
      var f := fields[0];
      TreeMeans(f.value);
      PiecesMean(f.key);
      MembersMean(fields[1..]);
      MemberMeans(f);
      assert Members(fields)[1..] == Members(fields[1..]);
      assert [f] + fields[1..] == fields;
    }
  }

  lemma MemberMeans(f: Field)
    requires PiecesText(Pieces(f.key)) == EscapeText(f.key) && Text(Tree(f.value)) == Dump(f.value)
    ensures var m := Member("", Pieces(f.key), "", "", Tree(f.value), "");
            "" + MemberText(m) + "" == StringDump(f.key) + ":" + Dump(f.value)
  {
    hide Dump, Tree, Text, PiecesText, EscapeText;
    var m := Member("", Pieces(f.key), "", "", Tree(f.value), "");
    assert MemberText(m) == Quoted(m.key) + "" + ":" + "" + Dump(f.value);
    assert Quoted(m.key) + "" == Quoted(m.key);
  }

  /** Reading back the compact text of any value yields that value, so no two values share a text. */
  lemma ReadDump(j: Json)
    ensures ReadText(Dump(j)) == Some(j)
  {
    TreeMeans(j);
    var d := JsonDocument("", Tree(j), "");
    assert DocumentText(d) == Dump(j);
    JsonReading.ReadTextIsValue(d);
  }
}
