/** What each write stores, field by field and table by table. */
module Written {
  import opened Records
  import opened Validity
  import opened Requests
  import opened LedgerState
  import opened LedgerTheory
  import opened Canonical
  import IdOrder
  import Order
  import Replay
  import Transfer

  /** Rows that were there stay, and the only new operation is the one of this call. */
  predicate OnlyOwnOperation(db: Db, call: Call, op: Operation, db': Db) {
    && call.request.Triple() !in db.operations
    && db'.operations == db.operations[call.request.Triple() := op]
  }

  /** The operation that a write records. */
  predicate IsOperationOf(op: Operation, call: Call, kind: OperationKind, result: Id) {
    && op.triple == Records.Triple(call.request.scope, kind, call.request.key)
    && op.fingerprint == call.fingerprint && op.resultRef == result && op.recordedAt == call.now
  }

  /** The step of a write that is not a replay. */
  lemma StepMeans(db: Db, call: Call, op: Operation, db': Db)
    requires Step(db, call, Success(op, false), db')
    ensures CallOk(call) && Shaped(call.request.body) && Stored(db) && call.request.Triple() !in db.operations
    ensures PlanOf(db, call).Some? && op == OperationOf(call, PlanOf(db, call).value)
    ensures db' == Apply(db, PlanOf(db, call).value, op)
  {
    hide CallOk, Stored, PlanOf, MayAnswer, OperationShape, Apply;
    CallShaped(call);
  }

  lemma CallShaped(call: Call)
    ensures CallOk(call) ==> Shaped(call.request.body)
  {
  }

  // ---------- Create ----------

  /** A creation adds the artifact of the request with the time of the call, one operation, and nothing
      else. */
  lemma CreateStores(db: Db, call: Call, op: Operation, db': Db)
    requires Step(db, call, Success(op, false), db') && call.request.body.CreateBody?
    ensures var a := call.request.body.artifact;
            && a.Artifact? && a.id !in db.records
            && db'.records == db.records[a.id := Artifact(a.id, a.namespaceRef, a.typeRef, call.now)]
            && db'.payloads == db.payloads && IsOperationOf(op, call, CreateArtifact, a.id)
    ensures OnlyOwnOperation(db, call, op, db')
  {
    StepMeans(db, call, op, db');
    CreatePlanMeans(db, call, op, db');
    hide Step, CallOk, Stored, PlanOf, Apply, OperationOf;
  }

  lemma CreatePlanMeans(db: Db, call: Call, op: Operation, db': Db)
    requires Shaped(call.request.body) && call.request.body.CreateBody? && PlanOf(db, call).Some?
    requires op == OperationOf(call, PlanOf(db, call).value) && db' == Apply(db, PlanOf(db, call).value, op)
    ensures var a := call.request.body.artifact;
            && a.Artifact? && a.id !in db.records
            && db'.records == db.records[a.id := Artifact(a.id, a.namespaceRef, a.typeRef, call.now)]
            && db'.payloads == db.payloads && IsOperationOf(op, call, CreateArtifact, a.id)
    ensures db'.operations == db.operations[call.request.Triple() := op]
  {
    CreatePlanIs(db, call);
    var a := call.request.body.artifact;
    ApplyOne(db, Artifact(a.id, a.namespaceRef, a.typeRef, call.now), op);
    hide Apply, CreatePlan;
  }

  lemma CreatePlanIs(db: Db, call: Call)
    requires Shaped(call.request.body) && call.request.body.CreateBody? && CreatePlan(db, call).Some?
    ensures var a := call.request.body.artifact;
            && a.Artifact? && a.id !in db.records
            && CreatePlan(db, call).value == Plan([Artifact(a.id, a.namespaceRef, a.typeRef, call.now)], map[], [], a.id)
  {
  }

  /** One record and no bytes. */
  lemma ApplyOne(db: Db, r: Record, op: Operation)
    ensures var db' := Apply(db, Plan([r], map[], [], r.id), op);
            db'.records == db.records[r.id := r] && db'.payloads == db.payloads
                && db'.operations == db.operations[op.triple := op]
  {
    hide RowsOf, Index, OperationIndex;
    SingleIndex(r);
    NoHistory();
    assert db.records + map[r.id := r] == db.records[r.id := r];
  }

  lemma NoHistory()
    ensures OperationIndex([]) == map[]
  {
  }

  // ---------- Append ----------

  lemma AppendPlanMeans(db: Db, call: Call, op: Operation, db': Db)
    requires Shaped(call.request.body) && call.request.body.AppendBody? && PlanOf(db, call).Some?
    requires op == OperationOf(call, PlanOf(db, call).value) && db' == Apply(db, PlanOf(db, call).value, op)
    ensures AppendAllowed(db, call) && db'.records == AppendRecords(db, call)
    ensures db'.payloads == db.payloads + NewPayloads(db, call.supplied)
    ensures db'.operations == db.operations[call.request.Triple() := op]
    ensures IsOperationOf(op, call, AppendVersion, call.request.body.version.id)
  {
    hide AppendAllowed, RowsOf, Fresh, Announced, NewPayloads;
    NoHistory();
  }

  /** An append stores the version of the request and each of its provenance links with all their fields
      and the time of the call, the content as it is given, and for content that is new its bytes. */
  lemma AppendStores(db: Db, call: Call, op: Operation, db': Db)
    requires Step(db, call, Success(op, false), db') && call.request.body.AppendBody?
    ensures var b := call.request.body; var v := b.version;
            && v.Version? && v.id !in db.records && v.id in db'.records
            && db'.records[v.id] == Version(v.id, v.artifactId, v.contentRootRef, v.parents, v.externalSources, v.captures,
                                            v.principal, v.handlingPolicies, call.now)
            && IsOperationOf(op, call, AppendVersion, v.id)
    ensures forall l :: l in call.request.body.links ==>
              && l.Provenance? && l.id !in db.records && l.id in db'.records
              && db'.records[l.id] == Provenance(l.id, l.subject, l.relation, l.about, call.now)
    ensures var b := call.request.body;
            forall r :: r in b.roots + b.blobs + b.manifests ==> r.id in db'.records && db'.records[r.id] == r
    ensures OnlyOwnOperation(db, call, op, db')
  {
    StepMeans(db, call, op, db');
    AppendPlanMeans(db, call, op, db');
    hide Step, CallOk, Stored, PlanOf, Apply, OperationOf, AppendAllowed, AppendRecords, Announced, Fresh, NewPayloads, Reusable;
    var b := call.request.body;
    Replay.AnnouncedHas(call);
    Announces(db, call, Stamped(b.version, call.now));
    forall l | l in b.links
      ensures l.Provenance? && l.id !in db.records && l.id in db'.records
      ensures db'.records[l.id] == Provenance(l.id, l.subject, l.relation, l.about, call.now)
    {
      var i :| 0 <= i < |b.links| && b.links[i] == l;
      assert b.links[i].Kind() == ProvenanceKind;
      Announces(db, call, Stamped(b.links[i], call.now));
    }
    forall r | r in b.roots + b.blobs + b.manifests
      ensures r.id in db'.records && db'.records[r.id] == r
    {
      Announces(db, call, r);
    }
  }

  lemma Announces(db: Db, call: Call, r: Record)
    requires Shaped(call.request.body) && call.request.body.AppendBody? && AppendAllowed(db, call) && r in Announced(call)
    ensures r.id in AppendRecords(db, call) && AppendRecords(db, call)[r.id] == r
    ensures r.Version? || r.Provenance? ==> r.id !in db.records
  {
    InCombined(db, call, r);
    assert Reusable(db, r);
    hide AppendAllowed, AppendRecords, Announced;
  }

  /** The identities that an append announces. */
  function AnnouncedIds(b: Body): set<Id>
    requires b.AppendBody?
  {
    {b.version.id} + set r | r in b.roots + b.blobs + b.manifests + b.links :: r.id
  }

  /** And nothing else: no other record appears, none changes, and new bytes are exactly the supplied
      bytes of blobs that were not stored. */
  lemma AppendStoresNoMore(db: Db, call: Call, op: Operation, db': Db)
    requires Step(db, call, Success(op, false), db') && call.request.body.AppendBody?
    ensures db'.records.Keys == db.records.Keys + AnnouncedIds(call.request.body)
    ensures forall id :: id in db.records ==> db'.records[id] == db.records[id]
    ensures db'.payloads.Keys == db.payloads.Keys + (call.supplied.Keys - db.records.Keys)
    ensures forall id :: id in db.payloads ==> db'.payloads[id] == db.payloads[id]
    ensures forall id :: id in call.supplied && id !in db.records ==> db'.payloads[id] == call.supplied[id]
  {
    StepMeans(db, call, op, db');
    AppendPlanMeans(db, call, op, db');
    StoredPayloads(db);
    hide *;
    AnnouncedAre(call);
    AddedAre(db, call);
    Combined(db, call);
    BytesUnion(db, call.supplied);
    RecordsUnion(db.records, Index(Fresh(db, Announced(call))), Announced(call), AnnouncedIds(call.request.body));
  }

  lemma RecordsUnion(stored: RecordMap, added: RecordMap, announced: seq<Record>, ids: set<Id>)
    requires forall id :: id in added ==> id !in stored && exists r :: r in announced && r.id == id
    requires forall r :: r in announced ==> r.id in stored || r.id in added
    requires forall id :: id in ids <==> exists r :: r in announced && r.id == id
    ensures (stored + added).Keys == stored.Keys + ids
    ensures forall id :: id in stored ==> (stored + added)[id] == stored[id]
  {
  }

  /** New bytes do not replace any. */
  lemma BytesUnion(db: Db, supplied: map<Id, Bytes>)
    requires forall id :: id in db.payloads ==> id in db.records
    ensures (db.payloads + NewPayloads(db, supplied)).Keys == db.payloads.Keys + (supplied.Keys - db.records.Keys)
    ensures forall id :: id in db.payloads ==> (db.payloads + NewPayloads(db, supplied))[id] == db.payloads[id]
    ensures forall id :: id in supplied && id !in db.records ==> (db.payloads + NewPayloads(db, supplied))[id] == supplied[id]
  {
    hide NewPayloads;
    NewBytesAre(db, supplied);
  }

  lemma Combined(db: Db, call: Call)
    requires Shaped(call.request.body) && call.request.body.AppendBody?
    ensures AppendRecords(db, call) == db.records + Index(Fresh(db, Announced(call)))
  {
    hide Announced, Fresh, Index;
  }

  lemma NewBytesAre(db: Db, supplied: map<Id, Bytes>)
    ensures NewPayloads(db, supplied).Keys == supplied.Keys - db.records.Keys
    ensures forall id :: id in NewPayloads(db, supplied) ==> NewPayloads(db, supplied)[id] == supplied[id]
  {
  }

  lemma StoredPayloads(db: Db)
    requires Stored(db)
    ensures forall id :: id in db.payloads ==> id in db.records
  {
    hide Valid, OperationsOk, AllReferences;
  }

  lemma AddedAre(db: Db, call: Call)
    requires Shaped(call.request.body) && call.request.body.AppendBody?
    ensures forall id :: id in Index(Fresh(db, Announced(call))) ==> id !in db.records && exists r :: r in Announced(call) && r.id == id
    ensures forall r :: r in Announced(call) ==> r.id in db.records || r.id in Index(Fresh(db, Announced(call)))
  {
    hide Announced;
    var added := Fresh(db, Announced(call));
    forall id | id in Index(added)
      ensures id !in db.records && exists r :: r in Announced(call) && r.id == id
    {
      assert Index(added)[id] in added;
    }
    forall r | r in Announced(call) && r.id !in db.records
      ensures r.id in Index(added)
    {
      assert r in added;
    }
  }

  lemma AnnouncedAre(call: Call)
    requires Shaped(call.request.body) && call.request.body.AppendBody?
    ensures forall id :: id in AnnouncedIds(call.request.body) <==> exists r :: r in Announced(call) && r.id == id
  {
    var b := call.request.body;
    var links := StampedAll(b.links, call.now);
    forall r | r in Announced(call)
      ensures r.id in AnnouncedIds(b)
    {
      if r in links {
        var i :| 0 <= i < |links| && links[i] == r;
        assert b.links[i] in b.links;
      }
    }
    forall id | id in AnnouncedIds(b)
      ensures exists r :: r in Announced(call) && r.id == id
    {
      if id == b.version.id {
        assert Stamped(b.version, call.now) in Announced(call);
      } else {
        var r :| r in b.roots + b.blobs + b.manifests + b.links && r.id == id;
        if r in b.links {
          var i :| 0 <= i < |b.links| && b.links[i] == r;
          assert links[i] in links && links[i] in Announced(call);
        } else {
          assert r in Announced(call);
        }
      }
    }
  }

  // ---------- Import ----------

  lemma ImportPlanMeans(db: Db, call: Call, op: Operation, db': Db)
    requires Shaped(call.request.body) && call.request.body.ImportBody? && PlanOf(db, call).Some?
    requires op == OperationOf(call, PlanOf(db, call).value) && db' == Apply(db, PlanOf(db, call).value, op)
    ensures ImportAllowed(db, call) && db'.records == ImportRecords(db, call)
    ensures db'.payloads == db.payloads + NewPayloads(db, call.supplied)
    ensures db'.operations == ImportOperations(db, call)[call.request.Triple() := op]
    ensures IsOperationOf(op, call, ImportBundle, call.request.body.receiptId)
  {
    hide ImportAllowed, RowsOf, ImportAdditions, FreshOperations, NewPayloads, Index, OperationIndex;
  }

  /** Does the receipt name exactly the artifacts among the records, in ascending order? */
  ghost predicate Names(receipt: Record, records: seq<Record>)
    requires receipt.Receipt?
  {
    && (forall id :: id in receipt.importedArtifacts <==> exists r :: r in records && r.Artifact? && r.id == id)
    && forall i, j :: 0 <= i < j < |receipt.importedArtifacts| ==>
         Less(receipt.importedArtifacts[i].text, receipt.importedArtifacts[j].text)
  }

  lemma ReceiptNames(call: Call)
    requires call.request.body.ImportBody? && UniqueIds(call.bundle.records)
    ensures var r := ImportReceipt(call);
            && r.Receipt? && r.id == call.request.body.receiptId && r.recordedAt == call.now
                && Names(r, call.bundle.records)
  {
    hide Less;
    var ids := ArtifactIds(call.bundle.records);
    ArtifactIdsDistinct(call.bundle.records);
    IdOrder.SortIdsAscends(ids);
    var sorted := IdOrder.SortIds(ids);
    forall i, j | 0 <= i < j < |sorted|
      ensures Less(sorted[i].text, sorted[j].text)
    {
      IdsLess(sorted[i], sorted[j]);
    }
  }

  lemma IdsLess(a: Id, b: Id)
    ensures Order.KeyLess(IdOrder.IdKey(a), IdOrder.IdKey(b)) <==> Less(a.text, b.text)
  {
    hide Less;
    assert IdOrder.IdKey(a)[1..] == [] && IdOrder.IdKey(b)[1..] == [];
  }

  /** An import adds the records of the bundle as they are, and the receipt, which names the imported
      artifacts in ascending order and has the time of the call. */
  lemma ImportStores(db: Db, call: Call, op: Operation, db': Db)
    requires Step(db, call, Success(op, false), db') && call.request.body.ImportBody?
    ensures IsOperationOf(op, call, ImportBundle, call.request.body.receiptId) && call.request.Triple() !in db.operations
    ensures var id := call.request.body.receiptId;
            && id !in db.records && id in db'.records
            && db'.records[id].Receipt? && db'.records[id].id == id && db'.records[id].recordedAt == call.now
            && Names(db'.records[id], call.bundle.records)
    ensures forall id :: id in db.records ==> id in db'.records && db'.records[id] == db.records[id]
    ensures forall r :: r in call.bundle.records ==> r.id in db'.records && db'.records[r.id] == r
    ensures forall id :: id in db'.records ==>
              id in db.records || id == call.request.body.receiptId || exists r :: r in call.bundle.records && r.id == id
  {
    StepMeans(db, call, op, db');
    ImportPlanMeans(db, call, op, db');
    Transfer.CallOkImport(call);
    AllowedFits(db, call);
    hide *;
    ImportRecordsAre(db, call);
    ReceiptNames(call);
    FitsMeans(db, call);
    ImportedAre(db, call);
  }

  lemma AllowedFits(db: Db, call: Call)
    requires call.request.body.ImportBody? && ValidDocument(call.bundle) && ImportAllowed(db, call)
    ensures Fits(db, call) && NoConflict(db, call) && KnownBytesAgree(db, call.supplied)
  {
    hide Valid, ValidDocument, NoConflict, OperationsOk, KnownBytesAgree, Fits;
    NoConflictFits(db, call);
  }

  lemma ImportedAre(db: Db, call: Call)
    requires Fits(db, call) && ImportRecords(db, call) == (db.records + Index(call.bundle.records))[call.request.body.receiptId := ImportReceipt(call)]
    ensures forall id :: id in db.records ==> id in ImportRecords(db, call) && ImportRecords(db, call)[id] == db.records[id]
    ensures forall r :: r in call.bundle.records ==> r.id in ImportRecords(db, call) && ImportRecords(db, call)[r.id] == r
    ensures forall id :: id in ImportRecords(db, call) ==>
              id in db.records || id == call.request.body.receiptId || exists r :: r in call.bundle.records && r.id == id
  {
    hide ImportRecords, ImportReceipt, UniqueIds;
    forall r | r in call.bundle.records
      ensures r.id in ImportRecords(db, call) && ImportRecords(db, call)[r.id] == r
    {
      IndexAt(call.bundle.records, r);
    }
  }

  /** It adds the operations of the bundle and its own; every operation that was stored stays. */
  lemma ImportStoresOperations(db: Db, call: Call, op: Operation, db': Db)
    requires Step(db, call, Success(op, false), db') && call.request.body.ImportBody?
    ensures db'.operations.Keys == db.operations.Keys + OperationIndex(call.bundle.operations).Keys + {call.request.Triple()}
    ensures forall t :: t in db.operations ==> db'.operations[t] == db.operations[t]
    ensures forall o :: o in call.bundle.operations ==> o.triple in db'.operations && db'.operations[o.triple] == o
    ensures db'.operations[call.request.Triple()] == op
  {
    StepMeans(db, call, op, db');
    ImportPlanMeans(db, call, op, db');
    Transfer.CallOkImport(call);
    AllowedFits(db, call);
    hide *;
    OwnIsNew(db, call);
    NewOperations(db, call);
    OperationsKept(db.operations, call.bundle.operations, OperationIndex(call.bundle.operations).Keys, ImportOperations(db, call),
                   call.request.Triple(), op);
  }

  /** The bundle's operations and the call's own have different triples, and neither were stored. */
  lemma OperationsKept(stored: OperationMap, incoming: seq<Operation>, keys: set<Triple>, all: OperationMap, own: Triple, op: Operation)
    requires own !in stored && all.Keys == stored.Keys + keys && forall t :: t in stored ==> all[t] == stored[t]
    requires forall o :: o in incoming ==> o.triple != own && o.triple in all && all[o.triple] == o
    ensures all[own := op].Keys == stored.Keys + keys + {own} && all[own := op][own] == op
    ensures forall t :: t in stored ==> all[own := op][t] == stored[t]
    ensures forall o :: o in incoming ==> o.triple in all[own := op] && all[own := op][o.triple] == o
  {
  }

  /** It adds the bytes of the bundle's blobs; all bytes that were stored stay. */
  lemma ImportStoresBytes(db: Db, call: Call, op: Operation, db': Db)
    requires Step(db, call, Success(op, false), db') && call.request.body.ImportBody?
    ensures db'.payloads.Keys == db.payloads.Keys + (call.supplied.Keys - db.records.Keys)
    ensures forall id :: id in db.payloads ==> db'.payloads[id] == db.payloads[id]
    ensures forall id :: id in call.supplied ==> id in db'.payloads && db'.payloads[id] == call.supplied[id]
  {
    StepMeans(db, call, op, db');
    ImportPlanMeans(db, call, op, db');
    Transfer.CallOkImport(call);
    AllowedFits(db, call);
    StoredPayloads(db);
    hide *;
    BytesUnion(db, call.supplied);
    KnownBytesStay(db, call.supplied);
  }

  lemma KnownBytesStay(db: Db, supplied: map<Id, Bytes>)
    requires KnownBytesAgree(db, supplied)
    ensures forall id :: id in supplied && id in db.records ==> id in db.payloads && db.payloads[id] == supplied[id]
  {
    hide Matches;
  }

  lemma OwnIsNew(db: Db, call: Call)
    requires call.request.body.ImportBody? && NoConflict(db, call) && UniqueTriples(call.bundle.operations)
    ensures forall o :: o in call.bundle.operations ==>
              && o.triple != call.request.Triple()
              && o.triple in ImportOperations(db, call) && ImportOperations(db, call)[o.triple] == o
  {
    hide Index, HistoryOf, ImportOperations, UniqueTriples;
    forall o | o in call.bundle.operations
      ensures o.triple in ImportOperations(db, call) && ImportOperations(db, call)[o.triple] == o
    {
      Replay.OperationStored(db, call, o);
    }
  }

  lemma NewOperations(db: Db, call: Call)
    ensures ImportOperations(db, call).Keys == db.operations.Keys + OperationIndex(call.bundle.operations).Keys
    ensures forall t :: t in db.operations ==> ImportOperations(db, call)[t] == db.operations[t]
  {
    var added := FreshOperations(db, call.bundle.operations);
    forall t | t in OperationIndex(added)
      ensures t !in db.operations && t in OperationIndex(call.bundle.operations)
    {
      assert OperationIndex(added)[t] in added;
    }
    forall t | t in OperationIndex(call.bundle.operations) && t !in db.operations
      ensures t in OperationIndex(added)
    {
      assert OperationIndex(call.bundle.operations)[t] in added;
    }
  }

  // ---------- The index ----------

  /** The record refers to the target by this field. */
  predicate RefersBy(r: Record, field: RefField, target: Id) {
    match field
    case ArtifactField => r.Version? && r.artifactId == target
    case RootField => r.Version? && r.contentRootRef == target
    case ParentField(i) => r.Version? && i < |r.parents| && r.parents[i] == target
    case BlobField => r.ContentRoot? && r.target == BlobTarget(target)
    case ManifestField => r.ContentRoot? && r.target == ManifestTarget(target)
    case EntryField(i) => r.Manifest? && i < |r.entries| && r.entries[i].blobRef == target
    case SubjectField => r.Provenance? && r.subject == target
    case AboutField => r.Provenance? && r.about.kind.ArtifactVersionObject? && r.about.ref == target.text
    case ImportedField(i) => r.Receipt? && i < |r.importedArtifacts| && r.importedArtifacts[i] == target
  }

  lemma RowsRefer(r: Record, row: RefRow)
    ensures row in ReferenceRows(r) <==> row.source == r.id && RefersBy(r, row.field, row.target)
  {
    match r
    case Version(id, _, _, parents, _, _, _, _, _) => EnumeratedHas(id, parents, (i: nat) => ParentField(i), row);
    case Manifest(id, _, entries) => EnumeratedHas(id, EntryBlobs(entries), (i: nat) => EntryField(i), row);
    case Receipt(id, imported, _) => EnumeratedHas(id, imported, (i: nat) => ImportedField(i), row);
    case _ =>
  }

  lemma EnumeratedHas(source: Id, ids: seq<Id>, field: nat -> RefField, row: RefRow)
    ensures row in Enumerated(source, ids, field) <==> exists i: nat :: i < |ids| && row == RefRow(source, field(i), ids[i])
  {
    var rows := Enumerated(source, ids, field);
    if row in rows {
      var i :| 0 <= i < |rows| && rows[i] == row;
      assert row == RefRow(source, field(i), ids[i]);
    }
    if i: nat :| i < |ids| && row == RefRow(source, field(i), ids[i]) {
      assert rows[i] == row;
    }
  }

  /** In a stored state the index answers every question about references: it has a row exactly where a
      stored record refers to something by that field. */
  lemma IndexAnswers(db: Db, row: RefRow)
    requires Stored(db)
    ensures row in db.refs <==> row.source in db.records && RefersBy(db.records[row.source], row.field, row.target)
  {
    IdsMatch(db);
    hide ReferenceRows, RefersBy, Stored;
    if row in db.refs {
      var id := AllReferencesFrom(db.records, row);
      RowsRefer(db.records[id], row);
    }
    if row.source in db.records && RefersBy(db.records[row.source], row.field, row.target) {
      RowsRefer(db.records[row.source], row);
      AllReferencesHas(db.records, row.source, row);
    }
  }

  lemma IdsMatch(db: Db)
    requires Stored(db)
    ensures db.refs == AllReferences(db.records) && forall id :: id in db.records ==> db.records[id].id == id
  {
    hide GraphOk, ClosuresBounded, OperationsOk, AllReferences, RecordOk;
  }

  // ---------- Replay ----------

  /** What a replay demands of the stored records: every field of the request, and any time. */
  lemma ConfirmedFields(db: Db, r: Record)
    requires Untimed(r)
    ensures r.Artifact? ==>
              (HasUntimed(db, r) <==> r.id in db.records && var s := db.records[r.id];
                                      s.Artifact? && s == Artifact(r.id, r.namespaceRef, r.typeRef, s.recordedAt))
    ensures r.Version? ==>
              (HasUntimed(db, r) <==> r.id in db.records && var s := db.records[r.id];
                                      s.Version? && s == Version(r.id, r.artifactId, r.contentRootRef, r.parents, r.externalSources,
                                                                 r.captures, r.principal, r.handlingPolicies, s.recordedAt))
    ensures r.Provenance? ==>
              (HasUntimed(db, r) <==> r.id in db.records && var s := db.records[r.id];
                                      s.Provenance? && s == Provenance(r.id, r.subject, r.relation, r.about, s.recordedAt))
  {
  }
}
