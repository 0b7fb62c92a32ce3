/** Printing a portable bundle: sorted collections, canonical entries, a bounded buffer. */
module Export {
  import opened Records
  import opened JsonText
  import opened Canonical
  import opened RecordJson
  import opened LedgerState
  import opened Content
  import opened Bundles
  import opened Parsing
  import opened IdOrder
  import Order
  import Utf8

  datatype Bundle = Bundle(package: Bytes, descriptor: Bytes)

  // ---------- What is exported ----------

  function RecordKey(r: Record): seq<string> { [r.id.text] }

  function OperationKey(o: Operation): seq<string> {
    [o.triple.scope.text, OperationKindText(o.triple.kind), o.triple.key.text]
  }

  /** The document with ascending collections. */
  function Ordered(d: Document): Document {
    Document(Order.Sort(RecordKey, d.records), Order.Sort(OperationKey, d.operations))
  }

  function MetaJson(d: Document): Json { Sorted(DocumentJson(Ordered(d))) }

  function JsonBytes(j: Json): Bytes { Utf8.Encode(Dump(j)) }

  function EntryOf(ref: Id, raw: Bytes): PayloadEntry { PayloadEntry(ref, ContentOf(raw)) }

  function EntriesOf(ids: seq<Id>, payloads: map<Id, Bytes>): (entries: seq<PayloadEntry>)
    requires forall id :: id in ids ==> id in payloads
    ensures |entries| == |ids| && forall i :: 0 <= i < |ids| ==> entries[i] == EntryOf(ids[i], payloads[ids[i]])
  {
    seq(|ids|, i requires 0 <= i < |ids| => EntryOf(ids[i], payloads[ids[i]]))
  }

  function Items(entries: seq<PayloadEntry>): (items: seq<Json>)
    ensures |items| == |entries| && forall i :: 0 <= i < |items| ==> items[i] == Sorted(PayloadJson(entries[i]))
  {
    seq(|entries|, i requires 0 <= i < |entries| => Sorted(PayloadJson(entries[i])))
  }

  /** The package as it is printed: its own fields in this order, everything inside sorted. */
  function PackageDoc(metadata: Content, entries: seq<PayloadEntry>): Json {
    Object(PACKAGE_NAMES, [JString("0.1.0"), JString("bounded-local-v0.1"), Sorted(ContentJson(metadata)), JArray(Items(entries))])
  }

  function DescriptorBytes(package: Bytes): Bytes { JsonBytes(Sorted(DescriptorJson(|package|, Sha256(package)))) }

  ghost function Enumerate(keys: set<Id>): (ids: seq<Id>)
    ensures Distinct(ids) && |ids| == |keys| && forall id :: id in ids <==> id in keys
  {
    if keys == {} then [] else var id :| id in keys; [id] + Enumerate(keys - {id})
  }

  ghost function AscendingIds(keys: set<Id>): (ids: seq<Id>)
    ensures |ids| == |keys| && forall id :: id in ids <==> id in keys
  {
    SortIds(Enumerate(keys))
  }

  ghost function PackageBytes(d: Document, payloads: map<Id, Bytes>): Bytes {
    JsonBytes(PackageDoc(ContentOf(JsonBytes(MetaJson(d))), EntriesOf(AscendingIds(payloads.Keys), payloads)))
  }

  ghost function ExportOf(d: Document, payloads: map<Id, Bytes>): Bundle {
    var package := PackageBytes(d, payloads);
    Bundle(package, DescriptorBytes(package))
  }

  /** When an export succeeds: a valid document with its bytes, and no limit exceeded. */
  ghost predicate Exportable(d: Document, payloads: map<Id, Bytes>) {
    && BundleOk(d, payloads)
    && ParseJson(JsonBytes(MetaJson(d)), MAX_JSON).Some?
    && |ExportOf(d, payloads).package| <= MAX_PACKAGE
    && |ExportOf(d, payloads).descriptor| <= MAX_DESCRIPTOR
  }

  // ---------- The text of a package, from left to right ----------

  /** The first `n` items, separated by commas. */
  function Joined(items: seq<Json>, n: nat): string
    requires n <= |items|
  {
    if n == 0 then "" else if n == 1 then Dump(items[0]) else Joined(items, n - 1) + "," + Dump(items[n - 1])
  }

  lemma {:induction false} JoinedRest(items: seq<Json>, n: nat)
    requires 0 < n <= |items|
    ensures Joined(items, n) == Dump(items[0]) + if n == 1 then "" else "," + Joined(items[1..], n - 1)
  {
    hide Dump;
    if n > 1 {
      JoinedRest(items, n - 1);
      if n > 2 {
        var first, rest, last := Dump(items[0]), Joined(items[1..], n - 2), "," + Dump(items[n - 1]);
        assert Joined(items[1..], n - 1) == rest + last;
        assert (first + ("," + rest)) + last == first + ("," + (rest + last));
      }
    }
  }

  lemma {:induction false} JoinedIsDump(items: seq<Json>)
    requires items != []
    ensures ItemsDump(items) == Joined(items, |items|) + "]"
  {
    hide Dump;
    JoinedRest(items, |items|);
    if |items| > 1 {
      JoinedIsDump(items[1..]);
    }
  }

  lemma ArrayDump(items: seq<Json>)
    ensures Dump(JArray(items)) == "[" + Joined(items, |items|) + "]"
  {
    if items == [] {
      assert Joined(items, 0) == "";
    } else {
      JoinedIsDump(items);
    }
  }

  function Pair(key: string, value: string): string { StringDump(key) + ":" + value }

  lemma FieldsFrom(fields: seq<Field>)
    requires fields != []
    ensures FieldsDump(fields) == Pair(fields[0].key, Dump(fields[0].value)) + if |fields| == 1 then "}" else "," + FieldsDump(fields[1..])
  {
    hide StringDump;
  }

  lemma Regroup(a: string, b: string, c: string, d: string)
    ensures "{" + (a + ("," + (b + ("," + (c + ("," + (d + "}"))))))) == "{" + a + "," + b + "," + c + "," + d + "}"
  {
    assert c + ("," + (d + "}")) == c + "," + d + "}";
    assert b + ("," + (c + "," + d + "}")) == b + "," + c + "," + d + "}";
    assert a + ("," + (b + "," + c + "," + d + "}")) == a + "," + b + "," + c + "," + d + "}";
  }

  lemma FourFields(fields: seq<Field>)
    requires |fields| == 4
    ensures Dump(JObject(fields)) ==
            "{" + Pair(fields[0].key, Dump(fields[0].value)) + "," + Pair(fields[1].key, Dump(fields[1].value))
            + "," + Pair(fields[2].key, Dump(fields[2].value)) + "," + Pair(fields[3].key, Dump(fields[3].value)) + "}"
  {
    ObjectDump(fields);
    hide *;
    var f1, f2, f3 := fields[1..], fields[2..], fields[3..];
    assert f1[1..] == f2 && f2[1..] == f3;
    FieldsFrom(fields);
    FieldsFrom(f1);
    FieldsFrom(f2);
    FieldsFrom(f3);
    Regroup(Pair(fields[0].key, Dump(fields[0].value)), Pair(fields[1].key, Dump(fields[1].value)),
            Pair(fields[2].key, Dump(fields[2].value)), Pair(fields[3].key, Dump(fields[3].value)));
  }

  lemma ObjectDump(fields: seq<Field>)
    requires fields != []
    ensures Dump(JObject(fields)) == "{" + FieldsDump(fields)
  {
  }

  lemma StringText(s: string)
    ensures Dump(JString(s)) == StringDump(s)
  {
  }

  /** What the package begins with, up to its metadata entry. */
  function Prefix(): string {
    "{" + Pair("transport_version", StringDump("0.1.0")) + "," + Pair("profile", StringDump("bounded-local-v0.1")) + ","
    + Pair("metadata", "")
  }

  /** What stands between the metadata entry and the first payload entry. */
  function Middle(): string { "," + Pair("payloads", "[") }

  lemma PackageFields(metadata: Content, entries: seq<PayloadEntry>)
    ensures PackageDoc(metadata, entries) ==
            JObject([Field("transport_version", JString("0.1.0")), Field("profile", JString("bounded-local-v0.1")),
                     Field("metadata", Sorted(ContentJson(metadata))), Field("payloads", JArray(Items(entries)))])
  {
    hide Sorted, ContentJson, Items;
    var fields := PackageDoc(metadata, entries).fields;
    assert fields[0].key == PACKAGE_NAMES[0] && fields[1].key == PACKAGE_NAMES[1];
    assert fields[2].key == PACKAGE_NAMES[2] && fields[3].key == PACKAGE_NAMES[3];
  }

  /** What the chunks of a package add up to is the text of its JSON. */
  lemma PackageText(metadata: Content, entries: seq<PayloadEntry>)
    ensures Dump(PackageDoc(metadata, entries)) ==
            Prefix() + Dump(Sorted(ContentJson(metadata))) + Middle() + Joined(Items(entries), |entries|) + "]}"
  {
    PackageFields(metadata, entries);
    hide *;
    var entry, items := Sorted(ContentJson(metadata)), Items(entries);
    FourFields(PackageDoc(metadata, entries).fields);
    StringText("0.1.0");
    StringText("bounded-local-v0.1");
    ArrayDump(items);
    PairsSplit(Dump(entry), Joined(items, |items|));
  }

  lemma PairsSplit(entry: string, joined: string)
    ensures "{" + Pair("transport_version", StringDump("0.1.0")) + "," + Pair("profile", StringDump("bounded-local-v0.1"))
            + "," + Pair("metadata", entry) + "," + Pair("payloads", "[" + joined + "]") + "}"
            == Prefix() + entry + Middle() + joined + "]}"
  {
    hide StringDump;
    assert Pair("metadata", entry) == Pair("metadata", "") + entry;
    assert Pair("payloads", "[" + joined + "]") == Pair("payloads", "[") + joined + "]";
  }
}
