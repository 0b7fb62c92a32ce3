/** Parsing bounded JSON documents. */
module Parsing {
  import opened Records
  import opened JsonText
  import opened Canonical
  import opened ScanSpec
  import opened ScanTheory
  import Utf8

  const MAX_JSON := 8 * 1024 * 1024
  const MAX_PACKAGE := 384 * 1024 * 1024
  const MAX_DESCRIPTOR := 4096

  const BYTE_ORDER_MARK: Bytes := [0xEF, 0xBB, 0xBF]

  /** Integer tokens of more than 16 digits are refused before they are converted. */
  predicate ShortIntegers(j: Json)
    decreases j
  {
    match j
    case JInt(n) => -10000000000000000 < n < 10000000000000000
    case JArray(items) => forall i :: 0 <= i < |items| ==> ShortIntegers(items[i])
    case JObject(fields) => forall i :: 0 <= i < |fields| ==> ShortIntegers(fields[i].value)
    case _ => true
  }

  /** `parse_json`: byte limit, strict UTF-8, depth and node limits, grammar, unique keys. */
  function ParseJson(raw: Bytes, limit: nat): Option<Json> {
    if |raw| > limit || BYTE_ORDER_MARK <= raw then None
    else
      var text := Utf8.Decode(raw);
      if text.None? || Scan(First, LEDGER_LIMITS, text.value, 0, 0) != Within then None
      else
        var value := ReadText(text.value);
        if value.Some? && Dictionaries(value.value) && ShortIntegers(value.value) then value else None
  }

  // ---------- Measures of a dumped value ----------

  lemma {:induction false} TreeMeasures(j: Json)
    ensures TreeDepth(Canonical.Tree(j)) == Depth(j) && TreeNodes(Canonical.Tree(j)) == Nodes(j)
    decreases j, 1
  {
    match j
    case JArray(items) => ElementsMeasures(items);
    case JObject(fields) => MembersMeasures(fields);
    case _ =>
  }

  lemma {:induction false} ElementsMeasures(items: seq<Json>)
    ensures ElementsDepth(Elements(items)) == ItemsDepth(items) && ElementsNodes(Elements(items)) == ItemsNodes(items)
    decreases items, 0
  {
    if items != [] {
      TreeMeasures(items[0]);
      ElementsMeasures(items[1..]);
      assert Elements(items)[1..] == Elements(items[1..]);
    }
  }

  lemma {:induction false} MembersMeasures(fields: seq<Field>)
    ensures MembersDepth(Members(fields)) == FieldsDepth(fields) && MembersNodes(Members(fields)) == FieldsNodes(fields)
    decreases fields, 0
  {
    if fields != [] {
      TreeMeasures(fields[0].value);
      MembersMeasures(fields[1..]);
      assert Members(fields)[1..] == Members(fields[1..]);
    }
  }

  // ---------- Parsing what has been dumped ----------

  /** A value that may be parsed at all. */
  predicate Parsable(j: Json) {
    Depth(j) <= LEDGER_LIMITS.maxDepth && Nodes(j) <= LEDGER_LIMITS.maxNodes && Dictionaries(j) && ShortIntegers(j)
  }

  lemma ScanDump(j: Json)
    ensures Scan(First, LEDGER_LIMITS, Dump(j), 0, 0) == Within <==>
            Depth(j) <= LEDGER_LIMITS.maxDepth && Nodes(j) <= LEDGER_LIMITS.maxNodes
  {
    hide Scan;
    TreeMeans(j);
    TreeMeasures(j);
    var d := JsonDocument("", Canonical.Tree(j), "");
    assert DocumentText(d) == Dump(j);
    ScanDecides(First, LEDGER_LIMITS, d);
  }

  lemma DumpStarts(j: Json)
    ensures Dump(j) != "" && Dump(j)[0] < 128 as char
  {
    match j
    case JInt(n) => IntegerMeans(n);
    case _ =>
  }

  lemma NoMark(s: string)
    requires s != "" && s[0] < 128 as char
    ensures !(BYTE_ORDER_MARK <= Utf8.Encode(s))
  {
    assert Utf8.Encode(s)[0] == s[0] as int as byte;
  }

  /** The bytes of a dumped value parse back to it, within exactly these limits. */
  lemma ParseDump(j: Json, limit: nat)
    ensures ParseJson(Utf8.Encode(Dump(j)), limit) ==
            if |Utf8.Encode(Dump(j))| <= limit && Parsable(j) then Some(j) else None
  {
    hide Scan, Dictionaries, ShortIntegers, Depth, Nodes, Dump, ReadText, Utf8.Encode, Utf8.Decode;
    ScanDump(j);
    DumpStarts(j);
    NoMark(Dump(j));
    Utf8.DecodeEncode(Dump(j));
    ReadDump(j);
  }
}
