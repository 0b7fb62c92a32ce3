/** Write requests and the fingerprint that binds an idempotency key to one of them. */
module Requests {
  import opened Records
  import opened JsonText
  import opened Canonical
  import opened CanonicalIdentity
  import opened RecordJson
  import Utf8

  /** The records of a request carry no time yet. */
  datatype Body =
    | CreateBody(artifact: Record)
    | AppendBody(version: Record, roots: seq<Record>, blobs: seq<Record>, manifests: seq<Record>, links: seq<Record>)
    | ImportBody(receiptId: Id)

  datatype Request = Request(scope: Opaque, key: Opaque, body: Body) {
    function Kind(): OperationKind {
      match body
      case CreateBody(_) => CreateArtifact
      case AppendBody(_, _, _, _, _) => AppendVersion
      case ImportBody(_) => ImportBundle
    }

    function Triple(): Triple { Records.Triple(scope, Kind(), key) }
  }

  predicate OfKind(records: seq<Record>, kind: Kind) {
    forall i :: 0 <= i < |records| ==> records[i].Kind() == kind
  }

  predicate Untimed(r: Record) {
    (r.Artifact? || r.Version? || r.Provenance?) && r.recordedAt == ""
  }

  /** The shape of a request body: every record in its own collection, new records without a time. */
  predicate Shaped(body: Body) {
    match body
    case CreateBody(artifact) => artifact.Artifact? && Untimed(artifact)
    case AppendBody(version, roots, blobs, manifests, links) =>
      && version.Version? && Untimed(version)
      && OfKind(roots, ContentRootKind) && OfKind(blobs, BlobKind) && OfKind(manifests, ManifestKind)
      && OfKind(links, ProvenanceKind) && forall i :: 0 <= i < |links| ==> Untimed(links[i])
    case ImportBody(_) => true
  }

  // ---------- The fingerprint ----------

  /** Where a record's JSON has its time. */
  function TimeIndex(r: Record): (i: nat)
    requires r.Artifact? || r.Version? || r.Provenance?
    ensures i < |Names(r)| && Names(r)[i] == "recorded_at"
  {
    match r
    case Artifact(_, _, _, _) => 3
    case Version(_, _, _, _, _, _, _, _, _) => 7
    case Provenance(_, _, _, _, _) => 4
  }

  function Without<T>(s: seq<T>, i: nat): (r: seq<T>)
    requires i < |s|
    ensures |r| == |s| - 1
    ensures forall k :: 0 <= k < |r| ==> r[k] == if k < i then s[k] else s[k + 1]
  {
    s[..i] + s[i + 1..]
  }

  function NewRecordJson(r: Record): Json
    requires Untimed(r)
  {
    Object(Without(Names(r), TimeIndex(r)), Without(Values(r), TimeIndex(r)))
  }

  function NewRecordsJson(rs: seq<Record>): (j: Json)
    requires forall i :: 0 <= i < |rs| ==> Untimed(rs[i])
    ensures j.JArray? && |j.items| == |rs|
  {
    JArray(seq(|rs|, i requires 0 <= i < |rs| => NewRecordJson(rs[i])))
  }

  const CREATE_NAMES := ["artifact"]
  const APPEND_NAMES := ["version", "content_roots", "blobs", "manifests", "provenance_links"]
  const IMPORT_NAMES := ["import_receipt_id", "bundle"]

  /** The body that the fingerprint covers; an import's includes the whole imported metadata. */
  function AppendValues(b: Body): (vs: seq<Json>)
    requires b.AppendBody? && Shaped(b)
    ensures |vs| == |APPEND_NAMES|
  {
    [NewRecordJson(b.version), RecordsJson(b.roots), RecordsJson(b.blobs), RecordsJson(b.manifests), NewRecordsJson(b.links)]
  }

  function BodyJson(body: Body, bundle: Document): Json
    requires Shaped(body)
  {
    match body
    case CreateBody(artifact) => Object(CREATE_NAMES, [NewRecordJson(artifact)])
    case AppendBody(_, _, _, _, _) => Object(APPEND_NAMES, AppendValues(body))
    case ImportBody(receiptId) => Object(IMPORT_NAMES, [JString(receiptId.text), DocumentJson(bundle)])
  }

  const ENVELOPE_NAMES := ["contract_version", "idempotency_scope_ref", "operation_kind", "body"]

  function EnvelopeJson(contract: string, scope: string, kind: string, body: Json): Json {
    Object(ENVELOPE_NAMES, [JString(contract), JString(scope), JString(kind), body])
  }

  function Envelope(request: Request, bundle: Document): Json
    requires Shaped(request.body)
  {
    EnvelopeJson("0.1.0", request.scope.text, OperationKindText(request.Kind()), BodyJson(request.body, bundle))
  }

  function Hash(j: Json): Digest { Sha256(Utf8.Encode(CanonicalText(j))) }

  function Fingerprint(request: Request, bundle: Document): Digest
    requires Shaped(request.body)
  {
    Hash(Envelope(request, bundle))
  }

  // ---------- What a fingerprint identifies ----------

  /** The hash does not collide on the encodings of these two values. */
  ghost predicate NoCollision(a: Json, b: Json) {
    var x, y := Utf8.Encode(CanonicalText(a)), Utf8.Encode(CanonicalText(b));
    Sha256(x) == Sha256(y) ==> x == y
  }

  lemma HashIdentifies(a: Json, b: Json)
    requires NoCollision(a, b) && Hash(a) == Hash(b)
    ensures Same(a, b)
  {
    Utf8.EncodeInjective(CanonicalText(a), CanonicalText(b));
    ReadDump(Sorted(a));
    ReadDump(Sorted(b));
    SortedThenSame(a, b);
  }

  lemma EnvelopeSame(contract: string, scope: string, kind: string, body: Json, contract': string, scope': string, kind': string, body': Json)
    ensures Same(EnvelopeJson(contract, scope, kind, body), EnvelopeJson(contract', scope', kind', body')) <==>
            contract == contract' && scope == scope' && kind == kind' && Same(body, body')
  {
    var xs, ys := [JString(contract), JString(scope), JString(kind), body], [JString(contract'), JString(scope'), JString(kind'), body'];
    var a, b := EnvelopeJson(contract, scope, kind, body), EnvelopeJson(contract', scope', kind', body');
    if Same(a, b) {
      ObjectsSame(ENVELOPE_NAMES, xs, ys);
      assert Same(xs[0], ys[0]) && Same(xs[1], ys[1]) && Same(xs[2], ys[2]) && Same(xs[3], ys[3]);
    }
    if contract == contract' && scope == scope' && kind == kind' && Same(body, body') {
      assert xs[0] == ys[0] && xs[1] == ys[1] && xs[2] == ys[2] && Same(xs[3], ys[3]);
      SameObjects(ENVELOPE_NAMES, xs, ys);
    }
  }

  /** For any JSON bodies: fingerprints match exactly if version, scope, kind and body match. */
  lemma FingerprintsMatch(contract: string, scope: string, kind: string, body: Json, contract': string, scope': string, kind': string, body': Json)
    requires Dictionaries(body) && Dictionaries(body')
    requires NoCollision(EnvelopeJson(contract, scope, kind, body), EnvelopeJson(contract', scope', kind', body'))
    ensures Hash(EnvelopeJson(contract, scope, kind, body)) == Hash(EnvelopeJson(contract', scope', kind', body')) <==>
            contract == contract' && scope == scope' && kind == kind' && Same(body, body')
  {
    var a, b := EnvelopeJson(contract, scope, kind, body), EnvelopeJson(contract', scope', kind', body');
    EnvelopeSame(contract, scope, kind, body, contract', scope', kind', body');
    if Hash(a) == Hash(b) {
      HashIdentifies(a, b);
    }
    if Same(a, b) {
      EnvelopeDictionaries(contract, scope, kind, body);
      EnvelopeDictionaries(contract', scope', kind', body');
      SameThenSorted(a, b);
    }
  }

  lemma EnvelopeDictionaries(contract: string, scope: string, kind: string, body: Json)
    requires Dictionaries(body)
    ensures Dictionaries(EnvelopeJson(contract, scope, kind, body))
  {
    var j := EnvelopeJson(contract, scope, kind, body);
    assert j.fields[0].key == ENVELOPE_NAMES[0] && j.fields[1].key == ENVELOPE_NAMES[1];
    assert j.fields[2].key == ENVELOPE_NAMES[2] && j.fields[3].key == ENVELOPE_NAMES[3];
  }

  lemma NewRecordSame(a: Record, b: Record)
    requires Untimed(a) && Untimed(b) && a.Kind() == b.Kind() && Same(NewRecordJson(a), NewRecordJson(b))
    ensures a == b
  {
    hide Same;
    var i := TimeIndex(a);
    NamesDistinct(a);
    NewNamesAgree(a, b);
    var names, xs, ys := Without(Names(a), i), Without(Values(a), i), Without(Values(b), i);
    assert Distinct(names);
    ObjectsSame(names, xs, ys);
    assert Values(a)[i] == Values(b)[i] == JString("");
    forall k | 0 <= k < |Names(a)|
      ensures Same(Values(a)[k], Values(b)[k])
    {
      if k < i {
        assert Same(xs[k], ys[k]);
      } else if k > i {
        assert Same(xs[k - 1], ys[k - 1]);
      } else {
        SameText("");
      }
    }
    ValuesSame(a, b);
  }

  lemma SameText(s: string)
    ensures Same(JString(s), JString(s))
  {
  }

  lemma NewNamesAgree(a: Record, b: Record)
    requires Untimed(a) && Untimed(b) && a.Kind() == b.Kind() && Same(NewRecordJson(a), NewRecordJson(b))
    ensures Names(a) == Names(b) && TimeIndex(a) == TimeIndex(b)
  {
    assert |NewRecordJson(a).fields| == |NewRecordJson(b).fields|;
    assert |Names(a)| == |Names(b)|;
  }

  lemma CollectionSame(a: seq<Record>, b: seq<Record>, kind: Kind)
    requires OfKind(a, kind) && OfKind(b, kind) && Same(RecordsJson(a), RecordsJson(b))
    ensures a == b
  {
    forall i | 0 <= i < |a|
      ensures a[i] == b[i]
    {
      assert Same(RecordsJson(a).items[i], RecordsJson(b).items[i]);
      RecordJsonIdentifies(a[i], b[i]);
    }
  }

  lemma NewCollectionSame(a: seq<Record>, b: seq<Record>, kind: Kind)
    requires OfKind(a, kind) && OfKind(b, kind)
    requires (forall i :: 0 <= i < |a| ==> Untimed(a[i])) && forall i :: 0 <= i < |b| ==> Untimed(b[i])
    requires Same(NewRecordsJson(a), NewRecordsJson(b))
    ensures a == b
  {
    forall i | 0 <= i < |a|
      ensures a[i] == b[i]
    {
      assert Same(NewRecordsJson(a).items[i], NewRecordsJson(b).items[i]);
      NewRecordSame(a[i], b[i]);
    }
  }

  /** The meaning of a body: an import means its receipt and the collections it brings. */
  ghost predicate SameBody(a: Body, bundle: Document, b: Body, bundle': Document) {
    a == b && (a.ImportBody? ==> SameDocument(bundle, bundle'))
  }

  lemma AppendSame(a: Body, b: Body)
    requires a.AppendBody? && b.AppendBody? && Shaped(a) && Shaped(b)
    requires Same(Object(APPEND_NAMES, AppendValues(a)), Object(APPEND_NAMES, AppendValues(b)))
    ensures a == b
  {
    hide Same;
    var xs, ys := AppendValues(a), AppendValues(b);
    ObjectsSame(APPEND_NAMES, xs, ys);
    assert Same(xs[0], ys[0]) && Same(xs[1], ys[1]) && Same(xs[2], ys[2]) && Same(xs[3], ys[3]) && Same(xs[4], ys[4]);
    NewRecordSame(a.version, b.version);
    CollectionSame(a.roots, b.roots, ContentRootKind);
    CollectionSame(a.blobs, b.blobs, BlobKind);
    CollectionSame(a.manifests, b.manifests, ManifestKind);
    NewCollectionSame(a.links, b.links, ProvenanceKind);
  }

  lemma BodySame(a: Body, bundle: Document, b: Body, bundle': Document)
    requires Shaped(a) && Shaped(b)
    requires a.CreateBody? == b.CreateBody? && a.AppendBody? == b.AppendBody?
    requires Same(BodyJson(a, bundle), BodyJson(b, bundle'))
    ensures SameBody(a, bundle, b, bundle')
  {
    hide Same, SameDocument;
    match a
    case CreateBody(artifact) =>
      var xs, ys := [NewRecordJson(artifact)], [NewRecordJson(b.artifact)];
      ObjectsSame(CREATE_NAMES, xs, ys);
      assert Same(xs[0], ys[0]);
      NewRecordSame(artifact, b.artifact);
    case AppendBody(_, _, _, _, _) => AppendSame(a, b);
    case ImportBody(receiptId) =>
      var xs, ys := [JString(receiptId.text), DocumentJson(bundle)], [JString(b.receiptId.text), DocumentJson(bundle')];
      ObjectsSame(IMPORT_NAMES, xs, ys);
      assert Same(xs[0], ys[0]) && Same(xs[1], ys[1]);
      ScalarSame(xs[0], ys[0]);
      DocumentJsonIdentifies(bundle, bundle');
  }

  lemma SameDocumentJson(a: Document, b: Document)
    requires SameDocument(a, b)
    ensures DocumentJson(a) == DocumentJson(b)
  {
  }

  /** Fingerprints of requests match exactly if the requests agree in scope, kind and body. */
  lemma FingerprintIdentifies(a: Request, bundle: Document, b: Request, bundle': Document)
    requires Shaped(a.body) && Shaped(b.body)
    requires NoCollision(Envelope(a, bundle), Envelope(b, bundle'))
    ensures Fingerprint(a, bundle) == Fingerprint(b, bundle') <==>
            a.scope == b.scope && a.Kind() == b.Kind() && SameBody(a.body, bundle, b.body, bundle')
  {
    hide Hash, BodyJson, EnvelopeJson, NoCollision, Same, SameDocument, Shaped;
    KindTexts(a.Kind(), b.Kind());
    if Fingerprint(a, bundle) == Fingerprint(b, bundle') {
      HashIdentifies(Envelope(a, bundle), Envelope(b, bundle'));
      EnvelopeSame("0.1.0", a.scope.text, OperationKindText(a.Kind()), BodyJson(a.body, bundle),
                   "0.1.0", b.scope.text, OperationKindText(b.Kind()), BodyJson(b.body, bundle'));
      BodySame(a.body, bundle, b.body, bundle');
    }
    if a.scope == b.scope && a.Kind() == b.Kind() && SameBody(a.body, bundle, b.body, bundle') {
      if a.body.ImportBody? {
        SameDocumentJson(bundle, bundle');
      }
      SameBodyJson(a.body, bundle, b.body, bundle');
    }
  }

  lemma KindTexts(k: OperationKind, l: OperationKind)
    ensures OperationKindText(k) == OperationKindText(l) ==> k == l
  {
  }

  lemma SameBodyJson(a: Body, bundle: Document, b: Body, bundle': Document)
    requires Shaped(a) && a == b && (a.ImportBody? ==> DocumentJson(bundle) == DocumentJson(bundle'))
    ensures BodyJson(a, bundle) == BodyJson(b, bundle')
  {
  }
}
