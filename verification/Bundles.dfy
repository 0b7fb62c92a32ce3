/** The layers of a portable bundle: its JSON shapes, and reading its payload entries. */
module Bundles {
  import opened Records
  import opened JsonText
  import opened Canonical
  import opened RecordJson
  import opened LedgerState
  import opened Replay
  import opened Content
  import Base64

  datatype PayloadEntry = PayloadEntry(ref: Id, content: Content)

  // ---------- JSON shapes ----------

  const CONTENT_NAMES := ["encoding", "data", "byte_length", "digest"]
  const PAYLOAD_NAMES := ["blob_ref", "encoding", "data", "byte_length", "digest"]
  const PACKAGE_NAMES := ["transport_version", "profile", "metadata", "payloads"]
  const DESCRIPTOR_NAMES := ["transport_version", "package_byte_length", "package_digest"]

  function ContentValues(c: Content): (vs: seq<Json>)
    ensures |vs| == 4
  {
    [JString("base64"), JString(c.data), JInt(c.byteLength), DigestJson(c.digest)]
  }

  function ContentJson(c: Content): Json { Object(CONTENT_NAMES, ContentValues(c)) }

  function PayloadJson(e: PayloadEntry): Json { Object(PAYLOAD_NAMES, [JString(e.ref.text)] + ContentValues(e.content)) }

  function PayloadsJson(entries: seq<PayloadEntry>): (j: Json)
    ensures j.JArray? && |j.items| == |entries|
  {
    JArray(seq(|entries|, i requires 0 <= i < |entries| => PayloadJson(entries[i])))
  }

  function PackageValues(metadata: Content, entries: seq<PayloadEntry>): (vs: seq<Json>)
    ensures |vs| == 4
  {
    [JString("0.1.0"), JString("bounded-local-v0.1"), ContentJson(metadata), PayloadsJson(entries)]
  }

  function PackageJson(metadata: Content, entries: seq<PayloadEntry>): Json {
    Object(PACKAGE_NAMES, PackageValues(metadata, entries))
  }

  function DescriptorJson(length: nat, digest: Digest): Json {
    Object(DESCRIPTOR_NAMES, [JString("0.1.0"), JInt(length), DigestJson(digest)])
  }

  // ---------- Different entries have different JSON ----------

  lemma ContentNamesDistinct()
    ensures Distinct(CONTENT_NAMES) && Distinct(PAYLOAD_NAMES) && Distinct(PACKAGE_NAMES) && Distinct(DESCRIPTOR_NAMES)
  {
  }

  lemma ContentSame(a: Content, b: Content)
    requires Same(ContentJson(a), ContentJson(b))
    ensures a == b
  {
    ContentNamesDistinct();
    var xs, ys := ContentValues(a), ContentValues(b);
    ObjectsSame(CONTENT_NAMES, xs, ys);
    assert xs[1] == ys[1] && xs[2] == ys[2] && Same(xs[3], ys[3]);
    DigestSame(a.digest, b.digest);
  }

  lemma PayloadSame(a: PayloadEntry, b: PayloadEntry)
    requires Same(PayloadJson(a), PayloadJson(b))
    ensures a == b
  {
    ContentNamesDistinct();
    var xs, ys := [JString(a.ref.text)] + ContentValues(a.content), [JString(b.ref.text)] + ContentValues(b.content);
    ObjectsSame(PAYLOAD_NAMES, xs, ys);
    assert xs[0] == ys[0] && xs[2] == ys[2] && xs[3] == ys[3] && Same(xs[4], ys[4]);
    DigestSame(a.content.digest, b.content.digest);
  }

  /** The JSON of a package determines its metadata entry and its payload entries. */
  lemma PackageSame(m: Content, entries: seq<PayloadEntry>, m': Content, entries': seq<PayloadEntry>)
    requires Same(PackageJson(m, entries), PackageJson(m', entries'))
    ensures m == m' && entries == entries'
  {
    hide Same;
    ContentNamesDistinct();
    var xs, ys := PackageValues(m, entries), PackageValues(m', entries');
    ObjectsSame(PACKAGE_NAMES, xs, ys);
    assert Same(xs[2], ys[2]) && Same(xs[3], ys[3]);
    ContentSame(m, m');
    ItemsSame(PayloadsJson(entries), PayloadsJson(entries'));
    forall i | 0 <= i < |entries|
      ensures entries[i] == entries'[i]
    {
      assert Same(PayloadsJson(entries).items[i], PayloadsJson(entries').items[i]);
      PayloadSame(entries[i], entries'[i]);
    }
  }

  lemma ItemsSame(a: Json, b: Json)
    requires a.JArray? && b.JArray? && Same(a, b)
    ensures |a.items| == |b.items| && forall i :: 0 <= i < |a.items| ==> Same(a.items[i], b.items[i])
  {
  }

  // ---------- Payload entries ----------

  /** The entry is the canonical one of the bytes of a stored blob. */
  predicate Good(e: PayloadEntry, records: RecordMap) {
    && e.ref in BlobIds(records)
    && Base64.WellFormed(e.content.data)
    && var raw := Base64.Decode(e.content.data);
       Describes(e.content, raw, MAX_BLOB) && Matches(records[e.ref], raw)
  }

  /** The bytes that a well-formed entry stands for. */
  function Raw(e: PayloadEntry): Bytes {
    if Base64.WellFormed(e.content.data) then Base64.Decode(e.content.data) else []
  }

  function Contents(entries: seq<PayloadEntry>): (m: map<Id, Bytes>)
    ensures forall id :: id in m <==> exists e :: e in entries && e.ref == id
  {
    if entries == [] then map[]
    else
      var last := entries[|entries| - 1];
      assert entries == entries[..|entries| - 1] + [last];
      Contents(entries[..|entries| - 1])[last.ref := Raw(last)]
  }

  predicate DistinctRefs(entries: seq<PayloadEntry>) {
    forall i, j :: 0 <= i < j < |entries| ==> entries[i].ref != entries[j].ref
  }

  /** The entries are exactly those of the blobs of the metadata. */
  ghost predicate Acceptable(entries: seq<PayloadEntry>, records: RecordMap) {
    && DistinctRefs(entries)
    && (forall e :: e in entries ==> Good(e, records))
    && Contents(entries).Keys == BlobIds(records)
    && TotalSize(Contents(entries), Contents(entries).Keys) <= MAX_PAYLOAD
  }

  lemma ContentsPrefix(entries: seq<PayloadEntry>, i: nat)
    requires i < |entries|
    ensures Contents(entries[..i + 1]) == Contents(entries[..i])[entries[i].ref := Raw(entries[i])]
  {
    var s := entries[..i + 1];
    assert s[..|s| - 1] == entries[..i] && s[|s| - 1] == entries[i];
  }

  lemma NewRef(entries: seq<PayloadEntry>, i: nat)
    requires i < |entries|
    ensures entries[i].ref in Contents(entries[..i]) ==> !DistinctRefs(entries)
    ensures DistinctRefs(entries[..i]) && entries[i].ref !in Contents(entries[..i]) ==> DistinctRefs(entries[..i + 1])
  {
    hide Contents;
    if entries[i].ref in Contents(entries[..i]) {
      var e :| e in entries[..i] && e.ref == entries[i].ref;
      var k :| 0 <= k < i && entries[k] == e;
    } else {
      forall k | 0 <= k < i
        ensures entries[k].ref != entries[i].ref
      {
        assert entries[k] in entries[..i];
      }
    }
  }

  /** A new entry adds its length to the total. */
  lemma SizeMore(m: map<Id, Bytes>, id: Id, raw: Bytes)
    requires id !in m
    ensures TotalSize(m[id := raw], m[id := raw].Keys) == TotalSize(m, m.Keys) + |raw|
  {
    var n := m[id := raw];
    TotalSizeRemove(n, n.Keys, id);
    assert n.Keys - {id} == m.Keys;
    TotalSizeOf(n, m, m.Keys);
  }

  lemma {:induction false} SizeOfPrefix(entries: seq<PayloadEntry>, i: nat)
    requires i <= |entries| && DistinctRefs(entries)
    ensures TotalSize(Contents(entries[..i]), Contents(entries[..i]).Keys) <= TotalSize(Contents(entries), Contents(entries).Keys)
    decreases |entries| - i
  {
    hide Contents, TotalSize;
    if i == |entries| {
      assert entries[..i] == entries;
    } else {
      ContentsPrefix(entries, i);
      NewRef(entries, i);
      SizeMore(Contents(entries[..i]), entries[i].ref, Raw(entries[i]));
      SizeOfPrefix(entries, i + 1);
    }
  }

  /** Part of the entries is acceptable so far. */
  ghost predicate SoFar(entries: seq<PayloadEntry>, records: RecordMap, i: nat) {
    && i <= |entries| && DistinctRefs(entries[..i])
    && TotalSize(Contents(entries[..i]), Contents(entries[..i]).Keys) <= MAX_PAYLOAD
  }

  lemma SoFarMore(entries: seq<PayloadEntry>, records: RecordMap, i: nat)
    requires SoFar(entries, records, i) && i < |entries|
    ensures entries[i].ref in Contents(entries[..i]) ==> !Acceptable(entries, records)
    ensures !Good(entries[i], records) ==> !Acceptable(entries, records)
    ensures var total := TotalSize(Contents(entries[..i]), Contents(entries[..i]).Keys) + |Raw(entries[i])|;
            && (total > MAX_PAYLOAD ==> !Acceptable(entries, records))
            && (entries[i].ref !in Contents(entries[..i]) ==>
                  total == TotalSize(Contents(entries[..i + 1]), Contents(entries[..i + 1]).Keys)
                  && (total <= MAX_PAYLOAD ==> SoFar(entries, records, i + 1)))
  {
    hide Contents, TotalSize, Good;
    ContentsPrefix(entries, i);
    NewRef(entries, i);
    assert entries[i] in entries;
    if entries[i].ref !in Contents(entries[..i]) {
      SizeMore(Contents(entries[..i]), entries[i].ref, Raw(entries[i]));
      if DistinctRefs(entries) {
        SizeOfPrefix(entries, i + 1);
      }
    }
  }

  lemma AllSoFar(entries: seq<PayloadEntry>, records: RecordMap)
    requires SoFar(entries, records, |entries|) && forall k :: 0 <= k < |entries| ==> Good(entries[k], records)
    ensures Acceptable(entries, records) <==> Contents(entries).Keys == BlobIds(records)
  {
    hide Contents, TotalSize, Good;
    assert entries[..|entries|] == entries;
  }

  lemma NoneSoFar(entries: seq<PayloadEntry>, records: RecordMap)
    ensures SoFar(entries, records, 0) && Contents(entries[..0]) == map[]
    ensures TotalSize(Contents(entries[..0]), Contents(entries[..0]).Keys) == 0
  {
  }

  /** What the header of an entry already decides: everything except the content itself. */
  lemma GoodHeader(e: PayloadEntry, records: RecordMap)
    requires Good(e, records)
    ensures Base64.WellFormed(e.content.data) && 0 <= e.content.byteLength <= MAX_BLOB
    ensures |Raw(e)| == e.content.byteLength && e.content.byteLength <= MAX_INTEGER
    ensures e.ref in records && records[e.ref].Blob?
    ensures records[e.ref].byteLength == e.content.byteLength && records[e.ref].digest == e.content.digest
    ensures e.content == ContentOf(Raw(e))
  {
    DescribedText(e.content, Raw(e), MAX_BLOB);
  }

  lemma GoodContent(e: PayloadEntry, records: RecordMap)
    requires e.ref in BlobIds(records) && Base64.WellFormed(e.content.data) && e.content == ContentOf(Raw(e))
    requires 0 <= e.content.byteLength <= MAX_BLOB
    ensures Good(e, records) <==> Matches(records[e.ref], Raw(e))
  {
  }

  // ---------- Implementation A: all headers first, then all contents ----------

  /** The loop over all claimed sizes, before any payload is decoded. */
  method Preflight(entries: seq<PayloadEntry>, records: RecordMap) returns (ok: bool)
    ensures ok ==> DistinctRefs(entries) && Contents(entries).Keys == BlobIds(records)
    ensures ok ==> SoFar(entries, records, |entries|)
    ensures ok ==> forall e :: e in entries ==> Base64.WellFormed(e.content.data) && 0 <= e.content.byteLength <= MAX_BLOB
    ensures !ok ==> !Acceptable(entries, records)
  {
    hide *;
    var seen: set<Id>, total := {}, 0;
    BlobLimit();
    NoneSoFar(entries, records);
    for i := 0 to |entries|
      invariant SoFar(entries, records, i)
      invariant seen == Contents(entries[..i]).Keys && total == TotalSize(Contents(entries[..i]), seen)
      invariant forall k :: 0 <= k < i ==>
                  Base64.WellFormed(entries[k].content.data) && 0 <= entries[k].content.byteLength <= MAX_BLOB
    {
      var e := entries[i];
      SoFarMore(entries, records, i);
      if Good(e, records) {
        GoodHeader(e, records);
        GoodIsBlob(e, records);
      }
      var size := Header(e.content, MAX_BLOB);
      if size.None? {
        HeaderOfRaw(e);
        return false;
      }
      HeaderOfRaw(e);
      if e.ref in seen {
        return false;
      }
      ContentsPrefix(entries, i);
      seen := seen + {e.ref};
      if e.ref !in BlobIds(records) {
        return false;
      }
      BlobsAreIn(records);
      BlobsAreBlobs(records);
      if records[e.ref].byteLength != e.content.byteLength || records[e.ref].digest != e.content.digest {
        return false;
      }
      total := total + size.value;
      if total > MAX_PAYLOAD {
        return false;
      }
    }
    assert entries[..|entries|] == entries;
    SoFarMeans(entries, records);
    if Acceptable(entries, records) {
      AcceptableMeans(entries, records);
    }
    return seen == BlobIds(records);
  }

  lemma BlobLimit()
    ensures 0 <= MAX_BLOB
  {
  }

  lemma HeaderOfRaw(e: PayloadEntry)
    ensures Base64.WellFormed(e.content.data) ==> Raw(e) == Base64.Decode(e.content.data)
  {
  }

  lemma GoodIsBlob(e: PayloadEntry, records: RecordMap)
    requires Good(e, records)
    ensures e.ref in BlobIds(records)
  {
  }

  lemma BlobsAreBlobs(records: RecordMap)
    ensures forall id :: id in BlobIds(records) ==> id in records && records[id].Blob?
  {
  }

  lemma SoFarMeans(entries: seq<PayloadEntry>, records: RecordMap)
    requires SoFar(entries, records, |entries|)
    ensures DistinctRefs(entries)
  {
    assert entries[..|entries|] == entries;
  }

  lemma AcceptableMeans(entries: seq<PayloadEntry>, records: RecordMap)
    requires Acceptable(entries, records)
    ensures Contents(entries).Keys == BlobIds(records)
    ensures forall e :: e in entries ==> Good(e, records)
  {
  }

  /** The payloads of a package, or a refusal. */
  method ReadPayloads(entries: seq<PayloadEntry>, records: RecordMap) returns (r: Option<map<Id, Bytes>>)
    ensures r.Some? <==> Acceptable(entries, records)
    ensures r.Some? ==> r.value == Contents(entries)
  {
    hide *;
    var ok := Preflight(entries, records);
    if !ok {
      return None;
    }
    var payloads: map<Id, Bytes> := map[];
    NoneSoFar(entries, records);
    for i := 0 to |entries|
      invariant payloads == Contents(entries[..i])
      invariant forall k :: 0 <= k < i ==> Good(entries[k], records)
    {
      var e := entries[i];
      assert e in entries;
      InBlobs(entries, records, e);
      MustBeGood(entries, records, e);
      var raw := DecodeContent(e.content);
      if raw.None? {
        return None;
      }
      GoodContent(e, records);
      if !Matches(records[e.ref], raw.value) {
        return None;
      }
      ContentsPrefix(entries, i);
      payloads := payloads[e.ref := raw.value];
    }
    assert entries[..|entries|] == entries;
    AllSoFar(entries, records);
    return Some(payloads);
  }

  /** If the package is acceptable, this entry is canonical and has the bytes of its blob. */
  lemma MustBeGood(entries: seq<PayloadEntry>, records: RecordMap, e: PayloadEntry)
    requires e in entries && Base64.WellFormed(e.content.data)
    ensures Raw(e) == Base64.Decode(e.content.data)
    ensures Acceptable(entries, records) ==> Good(e, records) && e.content == ContentOf(Raw(e))
  {
    hide Good, Contents, TotalSize;
    if Acceptable(entries, records) {
      GoodHeader(e, records);
    }
  }

  lemma InBlobs(entries: seq<PayloadEntry>, records: RecordMap, e: PayloadEntry)
    requires Contents(entries).Keys == BlobIds(records) && e in entries
    ensures e.ref in BlobIds(records) && e.ref in records
  {
    hide BlobIds;
    BlobsAreIn(records);
    assert e.ref in Contents(entries);
  }

  // ---------- Implementation B: one entry after the other ----------

  /** B bounds every entry by what is left of the payload limit. */
  method UnpackPayloads(entries: seq<PayloadEntry>, records: RecordMap, elsewhere: Option<Bytes>) returns (r: Option<map<Id, Bytes>>)
    ensures r.Some? <==> Acceptable(entries, records)
    ensures r.Some? ==> r.value == Contents(entries)
  {
    hide Contents, TotalSize, Good, SoFar, Acceptable, Base64.WellFormed, BlobIds, Raw, Matches, ContentOf;
    var payloads: map<Id, Bytes>, total := map[], 0;
    NoneSoFar(entries, records);
    for i := 0 to |entries|
      invariant SoFar(entries, records, i)
      invariant payloads == Contents(entries[..i]) && total == TotalSize(payloads, payloads.Keys) <= MAX_PAYLOAD
      invariant forall k :: 0 <= k < i ==> Good(entries[k], records)
    {
      var e := entries[i];
      SoFarMore(entries, records, i);
      if Good(e, records) {
        GoodIsBlob(e, records);
        GoodHeader(e, records);
      }
      if e.ref in payloads || e.ref !in BlobIds(records) {
        return None;
      }
      var limit: nat := if MAX_BLOB < MAX_PAYLOAD - total then MAX_BLOB else MAX_PAYLOAD - total;
      DescribedRaw(e, records, limit);
      var raw := DecodeEntryB(e.content, limit, elsewhere);
      if raw.None? {
        return None;
      }
      BlobsAreIn(records);
      total := total + |raw.value|;
      if !Matches(records[e.ref], raw.value) {
        return None;
      }
      ContentsPrefix(entries, i);
      payloads := payloads[e.ref := raw.value];
    }
    assert entries[..|entries|] == entries;
    AllSoFar(entries, records);
    if payloads.Keys != BlobIds(records) {
      return None;
    }
    return Some(payloads);
  }

  /** Under B's moving limit an entry is described exactly if it is good and the total stays within bounds. */
  lemma DescribedRaw(e: PayloadEntry, records: RecordMap, limit: nat)
    requires e.ref in BlobIds(records) && limit <= MAX_BLOB
    ensures forall raw :: Describes(e.content, raw, limit) ==>
              Raw(e) == raw && |raw| <= limit && (Good(e, records) <==> Matches(records[e.ref], raw))
    ensures Good(e, records) && |Raw(e)| <= limit ==> Describes(e.content, Raw(e), limit)
  {
    hide Matches;
    forall raw | Describes(e.content, raw, limit)
      ensures Raw(e) == raw && |raw| <= limit && (Good(e, records) <==> Matches(records[e.ref], raw))
    {
      DescribedText(e.content, raw, limit);
    }
  }
}
