/** JSON values, the texts that denote them, and a reader of such texts. */
module JsonText {
  import opened Records

  // ---------- Values ----------

  datatype Field = Field(key: string, value: Json)

  /** A JSON value; the fields of an object keep the order in which they were written. */
  datatype Json =
    | JNull
    | JBool(b: bool)
    | JInt(n: int)
    | JString(s: string)
    | JArray(items: seq<Json>)
    | JObject(fields: seq<Field>)

  function Max(a: nat, b: nat): nat { if a < b then b else a }

  /** Container nesting; a scalar has depth 0 and a root container depth 1. */
  function Depth(j: Json): nat
    decreases j, 1
  {
    match j
    case JArray(items) => 1 + ItemsDepth(items)
    case JObject(fields) => 1 + FieldsDepth(fields)
    case _ => 0
  }

  function ItemsDepth(items: seq<Json>): nat
    decreases items, 0
  {
    if items == [] then 0 else Max(Depth(items[0]), ItemsDepth(items[1..]))
  }

  function FieldsDepth(fields: seq<Field>): nat
    decreases fields, 0
  {
    if fields == [] then 0 else Max(Depth(fields[0].value), FieldsDepth(fields[1..]))
  }

  /** The number of values: containers and scalars, but not object keys. */
  function Nodes(j: Json): nat
    decreases j, 1
  {
    match j
    case JArray(items) => 1 + ItemsNodes(items)
    case JObject(fields) => 1 + FieldsNodes(fields)
    case _ => 1
  }

  function ItemsNodes(items: seq<Json>): nat
    decreases items, 0
  {
    if items == [] then 0 else Nodes(items[0]) + ItemsNodes(items[1..])
  }

  function FieldsNodes(fields: seq<Field>): nat
    decreases fields, 0
  {
    if fields == [] then 0 else Nodes(fields[0].value) + FieldsNodes(fields[1..])
  }

  // ---------- Concrete syntax: sections 2 to 7 of RFC 8259 ----------

  predicate IsSpace(c: char) { c == ' ' || c == '\t' || c == '\r' || c == '\n' }

  predicate Space(s: string) { forall i :: 0 <= i < |s| ==> IsSpace(s[i]) }

  predicate IsDigit(c: char) { '0' <= c <= '9' }

  predicate Digits(s: string) { forall i :: 0 <= i < |s| ==> IsDigit(s[i]) }

  predicate IsHex(c: char) { '0' <= c <= '9' || 'a' <= c <= 'f' || 'A' <= c <= 'F' }

  function HexValue(c: char): (v: nat)
    requires IsHex(c)
    ensures v < 16
  {
    if c <= '9' then c as int - '0' as int
    else if c <= 'F' then 10 + c as int - 'A' as int
    else 10 + c as int - 'a' as int
  }

  /** One item between the quotes of a string. */
  datatype Piece =
    | Plain(c: char)
    | Escaped(c: char)
    | Hex(a: char, b: char, c1: char, d: char)

  predicate PieceOk(p: Piece) {
    match p
    case Plain(c) => c != '"' && c != '\\' && ' ' <= c
    case Escaped(c) => c in "\"\\/bfnrt"
    case Hex(a, b, c, d) => IsHex(a) && IsHex(b) && IsHex(c) && IsHex(d)
  }

  predicate PiecesOk(ps: seq<Piece>) { forall i :: 0 <= i < |ps| ==> PieceOk(ps[i]) }

  function PieceText(p: Piece): string {
    match p
    case Plain(c) => [c]
    case Escaped(c) => ['\\', c]
    case Hex(a, b, c, d) => ['\\', 'u', a, b, c, d]
  }

  function PiecesText(ps: seq<Piece>): string {
    if ps == [] then "" else PieceText(ps[0]) + PiecesText(ps[1..])
  }

  /** An integer token: an optional minus, then 0 or digits without a leading zero. */
  predicate IntegerToken(s: string) {
    if |s| > 0 && s[0] == '-' then NaturalToken(s[1..]) else NaturalToken(s)
  }

  predicate NaturalToken(s: string) {
    |s| > 0 && Digits(s) && (s[0] == '0' ==> |s| == 1)
  }

  predicate IsNumberChar(c: char) { IsDigit(c) || c == '-' || c == '+' || c == '.' || c == 'e' || c == 'E' }

  predicate ExponentToken(s: string) {
    |s| > 1 && (s[0] == 'e' || s[0] == 'E') &&
    var digits := if s[1] == '+' || s[1] == '-' then s[2..] else s[1..];
    |digits| > 0 && Digits(digits)
  }

  predicate FractionToken(s: string) { |s| > 1 && s[0] == '.' && Digits(s[1..]) }

  /** A number: an integer token, an optional fraction and an optional exponent. */
  datatype Number = Number(integer: string, fraction: string, exponent: string)

  predicate NumberOk(n: Number) {
    && IntegerToken(n.integer)
    && (n.fraction == "" || FractionToken(n.fraction))
    && (n.exponent == "" || ExponentToken(n.exponent))
  }

  function NumberText(n: Number): string { n.integer + n.fraction + n.exponent }

  datatype Word = NullWord | TrueWord | FalseWord

  function WordText(w: Word): string {
    match w
    case NullWord => "null"
    case TrueWord => "true"
    case FalseWord => "false"
  }

  /** An array element or object member with the blanks around it. */
  datatype Element = Element(before: string, value: Tree, after: string)
  datatype Member = Member(before: string, key: seq<Piece>, beforeColon: string, afterColon: string, value: Tree, after: string)

  datatype Tree =
    | WordTree(word: Word)
    | NumberTree(number: Number)
    | StringTree(pieces: seq<Piece>)
    | ArrayTree(blank: string, elements: seq<Element>)
    | ObjectTree(blank: string, members: seq<Member>)

  predicate Ok(t: Tree)
    decreases t, 1
  {
    match t
    case WordTree(_) => true
    case NumberTree(n) => NumberOk(n)
    case StringTree(ps) => PiecesOk(ps)
    case ArrayTree(blank, es) => Space(blank) && ElementsOk(es)
    case ObjectTree(blank, ms) => Space(blank) && MembersOk(ms)
  }

  predicate ElementsOk(es: seq<Element>)
    decreases es, 0
  {
    es == [] ||
    (Space(es[0].before) && Ok(es[0].value) && Space(es[0].after) && ElementsOk(es[1..]))
  }

  predicate MembersOk(ms: seq<Member>)
    decreases ms, 0
  {
    ms == [] ||
    (Space(ms[0].before) && PiecesOk(ms[0].key) && Space(ms[0].beforeColon) && Space(ms[0].afterColon) &&
     Ok(ms[0].value) && Space(ms[0].after) && MembersOk(ms[1..]))
  }

  function Text(t: Tree): string
    decreases t, 1
  {
    match t
    case WordTree(w) => WordText(w)
    case NumberTree(n) => NumberText(n)
    case StringTree(ps) => Quoted(ps)
    case ArrayTree(blank, es) => if es == [] then "[" + blank + "]" else "[" + ElementsText(es)
    case ObjectTree(blank, ms) => if ms == [] then "{" + blank + "}" else "{" + MembersText(ms)
  }

  function Quoted(ps: seq<Piece>): string { "\"" + PiecesText(ps) + "\"" }

  /** The elements with their separators and the closing bracket. */
  function ElementsText(es: seq<Element>): string
    requires es != []
    decreases es, 0
  {
    es[0].before + Text(es[0].value) + es[0].after +
    (if |es| == 1 then "]" else "," + ElementsText(es[1..]))
  }

  function MembersText(ms: seq<Member>): string
    requires ms != []
    decreases ms, 0
  {
    ms[0].before + MemberText(ms[0]) + ms[0].after +
    (if |ms| == 1 then "}" else "," + MembersText(ms[1..]))
  }

  function MemberText(m: Member): string
    decreases m, 2
  {
    Quoted(m.key) + m.beforeColon + ":" + m.afterColon + Text(m.value)
  }

  /** A whole JSON text. */
  datatype JsonDocument = JsonDocument(before: string, value: Tree, after: string)

  predicate DocumentOk(d: JsonDocument) { Space(d.before) && Ok(d.value) && Space(d.after) }

  function DocumentText(d: JsonDocument): string { d.before + Text(d.value) + d.after }

  // ---------- What a text denotes ----------

  /** The code unit of a \u escape. */
  function Unit(p: Piece): (u: nat)
    requires p.Hex? && PieceOk(p)
    ensures u < 0x10000
  {
    HexValue(p.a) * 4096 + HexValue(p.b) * 256 + HexValue(p.c1) * 16 + HexValue(p.d)
  }

  function EscapedChar(c: char): char {
    if c == 'b' then 8 as char
    else if c == 'f' then 12 as char
    else if c == 'n' then '\n'
    else if c == 'r' then '\r'
    else if c == 't' then '\t'
    else c
  }

  predicate High(u: nat) { 0xD800 <= u < 0xDC00 }
  predicate Low(u: nat) { 0xDC00 <= u < 0xE000 }

  /** The string a sequence of pieces denotes; an unpaired surrogate denotes none. */
  function PiecesValue(ps: seq<Piece>): Option<string>
    requires PiecesOk(ps)
  {
    if ps == [] then Some("")
    else match ps[0]
    case Plain(c) => Prepend(c, PiecesValue(ps[1..]))
    case Escaped(c) => Prepend(EscapedChar(c), PiecesValue(ps[1..]))
    case Hex(_, _, _, _) =>
      var u := Unit(ps[0]);
      if High(u) then
        if |ps| > 1 && ps[1].Hex? && Low(Unit(ps[1])) then
          Prepend((0x10000 + (u - 0xD800) * 0x400 + (Unit(ps[1]) - 0xDC00)) as char, PiecesValue(ps[2..]))
        else None
      else if Low(u) then None
      else Prepend(u as char, PiecesValue(ps[1..]))
  }

  function Prepend(c: char, s: Option<string>): Option<string> {
    if s.None? then None else Some([c] + s.value)
  }

  function DigitsValue(s: string): nat
    requires Digits(s)
  {
    if s == "" then 0 else 10 * DigitsValue(s[..|s| - 1]) + (s[|s| - 1] as int - '0' as int)
  }

  function IntegerValue(s: string): int
    requires IntegerToken(s)
  {
    if s[0] == '-' then -(DigitsValue(s[1..]) as int) else DigitsValue(s)
  }

  /** The value of a tree; numbers with a fraction or an exponent are not part of the profile. */
  function Value(t: Tree): Option<Json>
    requires Ok(t)
    decreases t, 1
  {
    match t
    case WordTree(w) => Some(WordValue(w))
    case NumberTree(n) => if n.fraction == n.exponent == "" then Some(JInt(IntegerValue(n.integer))) else None
    case StringTree(ps) => var s := PiecesValue(ps); if s.None? then None else Some(JString(s.value))
    case ArrayTree(_, es) => var vs := ElementsValue(es); if vs.None? then None else Some(JArray(vs.value))
    case ObjectTree(_, ms) => var fs := MembersValue(ms); if fs.None? then None else Some(JObject(fs.value))
  }

  function WordValue(w: Word): Json {
    match w
    case NullWord => JNull
    case TrueWord => JBool(true)
    case FalseWord => JBool(false)
  }

  function ElementsValue(es: seq<Element>): Option<seq<Json>>
    requires ElementsOk(es)
    decreases es, 0
  {
    if es == [] then Some([])
    else
      var v := Value(es[0].value);
      var vs := ElementsValue(es[1..]);
      if v.None? || vs.None? then None else Some([v.value] + vs.value)
  }

  function MembersValue(ms: seq<Member>): Option<seq<Field>>
    requires MembersOk(ms)
    decreases ms, 0
  {
    if ms == [] then Some([])
    else
      var f := MemberValue(ms[0]);
      var fs := MembersValue(ms[1..]);
      if f.None? || fs.None? then None else Some([f.value] + fs.value)
  }

  function MemberValue(m: Member): Option<Field>
    requires PiecesOk(m.key) && Ok(m.value)
    decreases m, 2
  {
    var k := PiecesValue(m.key);
    var v := Value(m.value);
    if k.None? || v.None? then None else Some(Field(k.value, v.value))
  }

  function DocumentValue(d: JsonDocument): Option<Json>
    requires DocumentOk(d)
  {
    Value(d.value)
  }

  // ---------- A recursive reader ----------

  /** What a reader returns: the value found and the text that follows it. */
  datatype Read<+T> = Refused | Found(value: T, rest: string)

  function SkipSpace(s: string): (r: string)
    ensures |r| <= |s|
  {
    if s != "" && IsSpace(s[0]) then SkipSpace(s[1..]) else s
  }

  /** The length of the longest prefix of number characters. */
  function NumberRun(s: string): (n: nat)
    ensures n <= |s|
  {
    if s != "" && IsNumberChar(s[0]) then 1 + NumberRun(s[1..]) else 0
  }

  function ReadPieces(s: string): (r: Read<seq<Piece>>)
    ensures r.Found? ==> PiecesOk(r.value) && |r.rest| < |s|
  {
    if s == "" then Refused
    else if s[0] == '"' then Found([], s[1..])
    else if s[0] == '\\' then
      if |s| < 2 then Refused
      else if s[1] == 'u' then
        if |s| < 6 || !(IsHex(s[2]) && IsHex(s[3]) && IsHex(s[4]) && IsHex(s[5])) then Refused
        else
          var r := ReadPieces(s[6..]);
          if r.Refused? then Refused else Found([Hex(s[2], s[3], s[4], s[5])] + r.value, r.rest)
      else if s[1] !in "\"\\/bfnrt" then Refused
      else
        var r := ReadPieces(s[2..]);
        if r.Refused? then Refused else Found([Escaped(s[1])] + r.value, r.rest)
    else if s[0] < ' ' then Refused
    else
      var r := ReadPieces(s[1..]);
      if r.Refused? then Refused else Found([Plain(s[0])] + r.value, r.rest)
  }

  /** Reads the string whose opening quote has been read. */
  function ReadString(s: string): (r: Read<string>)
    ensures r.Found? ==> |r.rest| < |s|
  {
    var ps := ReadPieces(s);
    if ps.Refused? then Refused
    else
      var v := PiecesValue(ps.value);
      if v.None? then Refused else Found(v.value, ps.rest)
  }

  function ReadNumber(s: string): (r: Read<Json>)
    ensures r.Found? ==> |r.rest| < |s|
  {
    var n := NumberRun(s);
    if IntegerToken(s[..n]) then Found(JInt(IntegerValue(s[..n])), s[n..]) else Refused
  }

  function ReadValue(s: string): (r: Read<Json>)
    ensures r.Found? ==> |r.rest| < |s|
    decreases |s|, 1
  {
    if s == "" then Refused
    else if s[0] == '"' then
      var r := ReadString(s[1..]);
      if r.Refused? then Refused else Found(JString(r.value), r.rest)
    else if s[0] == '[' then
      var s1 := SkipSpace(s[1..]);
      if s1 != "" && s1[0] == ']' then Found(JArray([]), s1[1..])
      else
        var r := ReadElements(s1);
        if r.Refused? then Refused else Found(JArray(r.value), r.rest)
    else if s[0] == '{' then
      var s1 := SkipSpace(s[1..]);
      if s1 != "" && s1[0] == '}' then Found(JObject([]), s1[1..])
      else
        var r := ReadMembers(s1);
        if r.Refused? then Refused else Found(JObject(r.value), r.rest)
    else if s[0] == 'n' then
      if "null" <= s then Found(JNull, s[4..]) else Refused
    else if s[0] == 't' then
      if "true" <= s then Found(JBool(true), s[4..]) else Refused
    else if s[0] == 'f' then
      if "false" <= s then Found(JBool(false), s[5..]) else Refused
    else ReadNumber(s)
  }

  /** Reads one or more elements and the closing bracket, from the first character of an element. */
  function ReadElements(s: string): (r: Read<seq<Json>>)
    ensures r.Found? ==> |r.rest| < |s|
    decreases |s|, 2
  {
    var v := ReadValue(s);
    if v.Refused? then Refused
    else
      var s1 := SkipSpace(v.rest);
      if s1 == "" then Refused
      else if s1[0] == ']' then Found([v.value], s1[1..])
      else if s1[0] != ',' then Refused
      else
        var r := ReadElements(SkipSpace(s1[1..]));
        if r.Refused? then Refused else Found([v.value] + r.value, r.rest)
  }

  /** Reads a key, a colon and a value. */
  function ReadMember(s: string): (r: Read<Field>)
    ensures r.Found? ==> |r.rest| < |s|
    decreases |s|, 2
  {
    if s == "" || s[0] != '"' then Refused
    else
      var k := ReadString(s[1..]);
      if k.Refused? then Refused
      else
        var s1 := SkipSpace(k.rest);
        if s1 == "" || s1[0] != ':' then Refused
        else
          var v := ReadValue(SkipSpace(s1[1..]));
          if v.Refused? then Refused else Found(Field(k.value, v.value), v.rest)
  }

  function ReadMembers(s: string): (r: Read<seq<Field>>)
    ensures r.Found? ==> |r.rest| < |s|
    decreases |s|, 3
  {
    var f := ReadMember(s);
    if f.Refused? then Refused
    else
      var s1 := SkipSpace(f.rest);
      if s1 == "" then Refused
      else if s1[0] == '}' then Found([f.value], s1[1..])
      else if s1[0] != ',' then Refused
      else
        var r := ReadMembers(SkipSpace(s1[1..]));
        if r.Refused? then Refused else Found([f.value] + r.value, r.rest)
  }

  /** Reads a whole text. */
  function ReadText(s: string): Option<Json> {
    var r := ReadValue(SkipSpace(s));
    if r.Found? && SkipSpace(r.rest) == "" then Some(r.value) else None
  }
}
