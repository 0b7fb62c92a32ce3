/** Writing a package chunk by chunk into a bounded buffer. */
module Packing {
  import opened Records
  import opened JsonText
  import opened Canonical
  import opened LedgerState
  import opened CallChecks
  import opened Content
  import opened Bundles
  import opened Parsing
  import opened Export
  import opened IdOrder
  import Order
  import Utf8

  /** Writing is refused before the buffer would exceed its limit. */
  method Write(output: Bytes, chunk: Bytes, limit: nat) returns (ok: bool, written: Bytes)
    ensures ok <==> |output| + |chunk| <= limit
    ensures ok ==> written == output + chunk
  {
    if |output| + |chunk| > limit {
      return false, output;
    }
    return true, output + chunk;
  }

  method ListIds(keys: set<Id>) returns (ids: seq<Id>)
    ensures ids == AscendingIds(keys)
  {
    ids := [];
    var todo := keys;
    while todo != {}
      invariant todo <= keys && Distinct(ids)
      invariant forall id :: id in ids <==> id in keys && id !in todo
    {
      var id :| id in todo;
      ids, todo := ids + [id], todo - {id};
    }
    SortIdsAscends(ids);
    SortIdsAscends(Enumerate(keys));
    Order.AscendingUnique(IdKey, SortIds(ids), SortIds(Enumerate(keys)));
    ids := SortIds(ids);
  }

  // ---------- The bytes written so far ----------

  function JoinedBytes(items: seq<Json>, n: nat): Bytes
    requires n <= |items|
  {
    Utf8.Encode(Joined(items, n))
  }

  /** One more item: a comma unless it is the first, then its text. */
  lemma JoinedMore(items: seq<Json>, i: nat)
    requires i < |items|
    ensures JoinedBytes(items, i + 1) == JoinedBytes(items, i) + (if i == 0 then [] else Utf8.Encode(",")) + JsonBytes(items[i])
  {
    hide Utf8.Encode, Dump;
    Utf8.EncodeConcat(Joined(items, i) + ",", Dump(items[i]));
    Utf8.EncodeConcat(Joined(items, i), ",");
    if i == 0 {
      NoBytes();
      assert [] + JsonBytes(items[0]) == JsonBytes(items[0]);
    }
  }

  lemma NoBytes()
    ensures Utf8.Encode("") == []
  {
  }

  lemma {:induction false} JoinedGrows(items: seq<Json>, i: nat)
    requires i <= |items|
    ensures |JoinedBytes(items, i)| <= |JoinedBytes(items, |items|)|
    decreases |items| - i
  {
    hide JoinedBytes, JsonBytes;
    if i < |items| {
      JoinedMore(items, i);
      JoinedGrows(items, i + 1);
    }
  }

  /** Everything before the first payload entry. */
  function Head(metadata: Content): Bytes {
    Utf8.Encode(Prefix()) + JsonBytes(Sorted(ContentJson(metadata))) + Utf8.Encode(Middle())
  }

  lemma PackageBytesAre(metadata: Content, entries: seq<PayloadEntry>)
    ensures JsonBytes(PackageDoc(metadata, entries)) ==
            Head(metadata) + JoinedBytes(Items(entries), |entries|) + Utf8.Encode("]}")
  {
    hide Utf8.Encode, Dump, Joined, PackageDoc, Prefix, Middle, Items, Sorted, ContentJson;
    PackageText(metadata, entries);
    var p, e, m, j := Prefix(), Dump(Sorted(ContentJson(metadata))), Middle(), Joined(Items(entries), |entries|);
    Utf8.EncodeConcat(p + e + m + j, "]}");
    Utf8.EncodeConcat(p + e + m, j);
    Utf8.EncodeConcat(p + e, m);
    Utf8.EncodeConcat(p, e);
  }

  // ---------- The package ----------

  /** Prints the package; refused exactly if it would exceed the limit. */
  method WritePackage(metadata: Content, ids: seq<Id>, payloads: map<Id, Bytes>) returns (ok: bool, package: Bytes)
    requires forall id :: id in ids ==> id in payloads
    ensures ok <==> |JsonBytes(PackageDoc(metadata, EntriesOf(ids, payloads)))| <= MAX_PACKAGE
    ensures ok ==> package == JsonBytes(PackageDoc(metadata, EntriesOf(ids, payloads)))
  {
    hide Utf8.Encode, JsonBytes, JoinedBytes, PackageDoc, Prefix, Middle, Items, Sorted, ContentJson, ContentOf, PayloadJson, EntryOf;
    ghost var entries := EntriesOf(ids, payloads);
    ghost var items := Items(entries);
    PackageBytesAre(metadata, entries);
    ghost var rest := |JoinedBytes(items, |items|)| + |Utf8.Encode("]}")|;
    ok, package := Write([], Utf8.Encode(Prefix()), MAX_PACKAGE);
    if !ok {
      return;
    }
    ok, package := Write(package, JsonBytes(Sorted(ContentJson(metadata))), MAX_PACKAGE);
    if !ok {
      return;
    }
    ok, package := Write(package, Utf8.Encode(Middle()), MAX_PACKAGE);
    if !ok {
      return;
    }
    assert package == Head(metadata);
    NoneJoined(items);
    for i := 0 to |ids|
      invariant package == Head(metadata) + JoinedBytes(items, i) && |package| <= MAX_PACKAGE
    {
      JoinedMore(items, i);
      JoinedGrows(items, i + 1);
      ghost var before := package;
      if i > 0 {
        ok, package := Write(package, Utf8.Encode(","), MAX_PACKAGE);
        if !ok {
          return;
        }
      }
      var entry := EntryOf(ids[i], payloads[ids[i]]);
      assert entry == entries[i];
      ItemsAt(entries, i);
      ok, package := Write(package, JsonBytes(Sorted(PayloadJson(entry))), MAX_PACKAGE);
      if !ok {
        return;
      }
      assert package == before + (if i == 0 then [] else Utf8.Encode(",")) + JsonBytes(items[i]);
      assert package == Head(metadata) + JoinedBytes(items, i + 1);
    }
    ok, package := Write(package, Utf8.Encode("]}"), MAX_PACKAGE);
  }

  lemma NoneJoined(items: seq<Json>)
    ensures JoinedBytes(items, 0) == []
  {
  }

  lemma ItemsAt(entries: seq<PayloadEntry>, i: nat)
    requires i < |entries|
    ensures Items(entries)[i] == Sorted(PayloadJson(entries[i]))
  {
  }

  /** `encode_bundle`. */
  method EncodeBundle(d: Document, payloads: map<Id, Bytes>) returns (r: Option<Bundle>)
    ensures r.Some? <==> Exportable(d, payloads)
    ensures r.Some? ==> r.value == ExportOf(d, payloads)
  {
    hide BundleOk, ParseJson, JsonBytes, MetaJson, PackageDoc, ContentOf, DescriptorJson, Sorted, AscendingIds, EntriesOf;
    var ok := CheckBundle(d, payloads);
    if !ok {
      return None;
    }
    var metadata := JsonBytes(MetaJson(d));
    if ParseJson(metadata, MAX_JSON).None? {
      return None;
    }
    var ids := ListIds(payloads.Keys);
    var package;
    ok, package := WritePackage(ContentOf(metadata), ids, payloads);
    if !ok {
      return None;
    }
    var descriptor := DescriptorBytes(package);
    if |descriptor| > MAX_DESCRIPTOR {
      return None;
    }
    return Some(Bundle(package, descriptor));
  }
}
