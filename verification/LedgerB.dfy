/** Implementation B's writes and replays, over tables whose calls do not fail: they accept the
    same requests as implementation A, would store the same records and payloads, and answer alike, as
    long as no time involved is a leap second or lies in the year 0. */
module LedgerB {
  import opened Records
  import opened Validity
  import opened Validation
  import opened ContractB
  import opened Requests
  import opened LedgerState
  import opened LedgerTheory
  import opened Merge
  import opened Inserting
  import opened Reading
  import opened Appending
  import opened Importing
  import opened CallChecks
  import opened Replay
  import opened TransportB
  import opened HistoryB
  import IdOrder
  import Time

  // ---------- Reading the stored state ----------

  /** Every stored time is plain. B stores no others: see `AppendKeepsPlain` and `ImportKeepsPlain`. */
  predicate PlainTables(db: Db) {
    && (forall id :: id in db.records ==> PlainRecord(db.records[id]))
    && (forall t :: t in db.operations ==> Time.Plain(db.operations[t].recordedAt))
  }

  lemma StoredRecordsOk(db: Db)
    requires Stored(db)
    ensures WellShaped(db.records) && GraphOk(db.records) && OperationsOk(db.records, db.operations)
    ensures forall id :: id in db.records ==> db.records[id].id == id && RecordOk(db.records[id])
    ensures forall t :: t in db.operations ==> db.operations[t].triple == t && OperationShape(db.operations[t])
  {
    hide RecordOk, GraphOk, AllReferences, OperationShape;
    forall t | t in db.operations
      ensures OperationShape(db.operations[t])
    {
      assert OperationOk(db.records, db.operations[t]);
    }
  }

  /** `_objects`, `_operations` and `graph` at the start of every call: over a state that A accepts, B
      refuses exactly if some stored time is not plain. */
  method ReadTables(db: Db) returns (ok: bool)
    requires Stored(db)
    ensures ok <==> PlainTables(db)
  {
    hide Stored, RecordOk, PlainRecord, OperationShape, Time.Plain, GraphOk, WellShaped, OperationsOk, Index, OperationIndex, UniqueIds,
         UniqueTriples;
    StoredRecordsOk(db);
    var rows, history;
    ok, rows := LoadRecords(db.records);
    for i := 0 to |rows|
      invariant forall k :: 0 <= k < i ==> PlainRecord(rows[k])
    {
      RowIsStored(db.records, rows, i);
      ok := CheckRecordB(rows[i]);
      if !ok {
        return;
      }
    }
    ok, history := LoadOperations(db.operations);
    for i := 0 to |history|
      invariant forall k :: 0 <= k < i ==> Time.Plain(history[k].recordedAt)
    {
      OperationIsStored(db.operations, history, i);
      ok := CheckOperationB(history[i]);
      if !ok {
        return;
      }
    }
    forall id | id in db.records
      ensures PlainRecord(db.records[id])
    {
      assert Index(rows)[id] in rows;
    }
    forall t | t in db.operations
      ensures Time.Plain(db.operations[t].recordedAt)
    {
      assert OperationIndex(history)[t] in history;
    }
    ok := CheckGraph(db.records, db.operations);
  }

  lemma RowIsStored(records: RecordMap, rows: seq<Record>, i: nat)
    requires UniqueIds(rows) && Index(rows) == records && i < |rows|
    ensures rows[i].id in records && records[rows[i].id] == rows[i]
  {
    hide Index, UniqueIds;
    assert rows[i] in rows;
    IndexAt(rows, rows[i]);
  }

  lemma OperationIsStored(operations: OperationMap, rows: seq<Operation>, i: nat)
    requires UniqueTriples(rows) && OperationIndex(rows) == operations && i < |rows|
    ensures rows[i].triple in operations && operations[rows[i].triple] == rows[i]
  {
    hide OperationIndex, UniqueTriples;
    assert rows[i] in rows;
    OperationIndexAt(rows, rows[i]);
  }

  // ---------- The input of an append ----------

  function Items(body: Body): seq<Record>
    requires body.AppendBody?
  {
    body.roots + body.blobs + body.manifests + body.links
  }

  ghost predicate InputFits(call: Call)
    requires call.request.body.AppendBody?
  {
    var b := call.request.body;
    && UniqueIds(Items(b)) && b.version.id !in Index(Items(b))
    && SuppliedBounded(call.supplied)
    && forall id :: id in call.supplied && id in Index(Items(b)) ==> Matches(Index(Items(b))[id], call.supplied[id])
  }

  /** The items under their identities; refused if one is repeated. */
  method IndexOnce(items: seq<Record>) returns (ok: bool, incoming: RecordMap)
    ensures ok <==> UniqueIds(items)
    ensures ok ==> incoming == Index(items)
  {
    hide *;
    incoming := map[];
    NoneIndexed();
    NoneOwned(items);
    for i := 0 to |items|
      invariant UniqueIds(items[..i]) && incoming == Index(items[..i])
    {
      NextOwned(items, i);
      if items[i].id in incoming {
        return false, incoming;
      }
      incoming := incoming[items[i].id := items[i]];
    }
    assert items[..|items|] == items;
    return true, incoming;
  }

  method CheckInput(call: Call) returns (ok: bool)
    requires call.request.body.AppendBody?
    ensures ok <==> InputFits(call)
  {
    hide Matches, SuppliedBounded, Index, UniqueIds, Items;
    var b := call.request.body;
    ok := CheckSupplied(call.supplied);
    if !ok {
      return;
    }
    var incoming;
    ok, incoming := IndexOnce(Items(b));
    ok := ok && b.version.id !in incoming
          && forall id :: id in call.supplied && id in incoming ==> Matches(incoming[id], call.supplied[id]);
  }

  // ---------- The content closure ----------

  /** Root and target of a version's content, and the blobs below them; nothing if one is missing. */
  method Closure(objects: RecordMap, root: Id) returns (ok: bool, identities: set<Id>, blobs: set<Id>)
    ensures ok <==> ClosureResolves(objects, root)
    ensures ok ==> identities == ClosureIds(objects, root) && blobs == BlobsBelow(objects, root)
  {
    identities, blobs := {}, {};
    if !Resolves(objects, root, ContentRootKind) {
      return false, identities, blobs;
    }
    var target := objects[root].target;
    if !Resolves(objects, target.ref, target.TargetKind()) {
      return false, identities, blobs;
    }
    identities, blobs := {root, target.ref}, {target.ref};
    if target.ManifestTarget? {
      blobs := set e | e in objects[target.ref].entries :: e.blobRef;
      identities := identities + blobs;
    }
    ok := forall b :: b in blobs ==> Resolves(objects, b, BlobKind);
  }

  predicate ClosureResolves(objects: RecordMap, root: Id) {
    && Resolves(objects, root, ContentRootKind)
    && Resolves(objects, objects[root].target.ref, objects[root].target.TargetKind())
    && forall b :: b in BlobsBelow(objects, root) ==> Resolves(objects, b, BlobKind)
  }

  function BlobsBelow(objects: RecordMap, root: Id): set<Id>
    requires Resolves(objects, root, ContentRootKind)
    requires Resolves(objects, objects[root].target.ref, objects[root].target.TargetKind())
  {
    match objects[root].target
    case BlobTarget(ref) => {ref}
    case ManifestTarget(ref) => set e | e in objects[ref].entries :: e.blobRef
  }

  /** Everything that the content of a version consists of. */
  function ClosureIds(objects: RecordMap, root: Id): set<Id>
    requires ClosureResolves(objects, root)
  {
    {root, objects[root].target.ref} + BlobsBelow(objects, root)
  }

  lemma BelowIsClosure(objects: RecordMap, version: Record)
    requires version.Version? && ClosureResolves(objects, version.contentRootRef)
    ensures BlobsBelow(objects, version.contentRootRef) == ClosureBlobs(objects, version)
  {
  }

  lemma ResolvedClosure(objects: RecordMap, version: Record)
    requires version.Version? && AllResolve(objects) && RefsResolve(objects, version)
    ensures ClosureResolves(objects, version.contentRootRef)
  {
    var root := version.contentRootRef;
    assert RefsResolve(objects, objects[root]);
    if objects[root].target.ManifestTarget? {
      assert RefsResolve(objects, objects[objects[root].target.ref]);
    }
  }

  /** Asking whether all announced content lies in the closure is asking kind by kind. */
  lemma UsedByKind(objects: RecordMap, b: Body)
    requires b.AppendBody? && Shaped(b) && ClosureResolves(objects, b.version.contentRootRef)
    requires forall r :: r in b.roots + b.blobs + b.manifests ==> r.id in objects && objects[r.id] == r
    ensures var root := b.version.contentRootRef;
            var used := ClosureIds(objects, root);
            (forall r :: r in b.roots + b.blobs + b.manifests ==> r.id in used)
            <==> (forall r :: r in b.roots ==> r.id == root)
                 && (forall r :: r in b.manifests ==> RootTargets(objects, root, r.id))
                 && (forall r :: r in b.blobs ==> r.id in BlobsBelow(objects, root))
  {
    var root := b.version.contentRootRef;
    var used := ClosureIds(objects, root);
    if forall r :: r in b.roots + b.blobs + b.manifests ==> r.id in used {
      forall r | r in b.roots
        ensures r.id == root
      {
        assert r in b.roots + b.blobs + b.manifests && r.Kind() == ContentRootKind;
      }
      forall r | r in b.manifests
        ensures RootTargets(objects, root, r.id)
      {
        assert r in b.roots + b.blobs + b.manifests && r.Kind() == ManifestKind;
      }
      forall r | r in b.blobs
        ensures r.id in BlobsBelow(objects, root)
      {
        assert r in b.roots + b.blobs + b.manifests && r.Kind() == BlobKind;
      }
    }
  }

  // ---------- Convergence with what is stored ----------

  predicate Converges(db: Db, r: Record) { r.id in db.records ==> db.records[r.id] == r }

  /** Everything announced may be added: new, or stored unchanged if it is content. */
  method Converge(db: Db, call: Call) returns (ok: bool, additions: seq<Record>)
    requires call.request.body.AppendBody? && Shaped(call.request.body)
    ensures ok <==>
            && (forall r :: r in Announced(call) ==> Reusable(db, r))
            && LinksOwn(call)
    ensures ok ==> additions == Announced(call)
  {
    hide Shaped;
    var b := call.request.body;
    AppendBodyKinds(b);
    var version := Stamped(b.version, call.now);
    var content := b.roots + b.blobs + b.manifests;
    var links := StampedAll(b.links, call.now);
    assert Announced(call) == [version] + content + links;
    if version.id in db.records {
      assert version in Announced(call) && !Reusable(db, version);
      return false, [];
    }
    additions := [version];
    for i := 0 to |content|
      invariant additions == [version] + content[..i]
      invariant forall k :: 0 <= k < i ==> Converges(db, content[k])
    {
      if !Converges(db, content[i]) {
        assert content[i] in Announced(call) && !Reusable(db, content[i]);
        return false, additions;
      }
      additions := additions + [content[i]];
    }
    assert content[..|content|] == content;
    for i := 0 to |b.links|
      invariant additions == [version] + content + links[..i]
      invariant forall k :: 0 <= k < i ==> b.links[k].id !in db.records && b.links[k].subject == b.version.id
    {
      var link := links[i];
      if b.links[i].id in db.records {
        assert link in links && link in Announced(call) && !Reusable(db, link);
        return false, additions;
      }
      if b.links[i].subject != b.version.id {
        return false, additions;
      }
      additions := additions + [link];
    }
    assert links[..|links|] == links;
    forall r | r in Announced(call)
      ensures Reusable(db, r)
    {
      ContentOnly(b, r);
    }
    return true, additions;
  }

  lemma AppendBodyKinds(b: Body)
    requires b.AppendBody? && Shaped(b)
    ensures b.version.Version? && Untimed(b.version)
    ensures forall i :: 0 <= i < |b.links| ==> b.links[i].Provenance? && Untimed(b.links[i])
  {
  }

  lemma ContentOnly(b: Body, r: Record)
    requires b.AppendBody? && Shaped(b)
    ensures r in b.roots + b.blobs + b.manifests ==> !r.Version? && !r.Provenance?
  {
  }

  /** Adding everything announced, or only what is new, gives the same records. */
  lemma SameUnion(db: Db, announced: seq<Record>)
    requires UniqueIds(announced) && forall r :: r in announced ==> Reusable(db, r)
    ensures db.records + Index(announced) == db.records + Index(Fresh(db, announced))
  {
    hide *;
    FreshIndex(db, announced);
    forall id | id in Index(announced) && id in db.records
      ensures db.records[id] == Index(announced)[id]
    {
      ReusableMeans(db, Index(announced)[id]);
    }
  }

  // ---------- The combined graph ----------

  lemma ShapesOfUnion(db: Db, announced: seq<Record>)
    requires WellShaped(db.records) && forall r :: r in announced ==> RecordOk(r)
    ensures WellShaped(db.records + Index(announced))
  {
    hide RecordOk;
  }

  lemma AnnouncedShapes(call: Call)
    requires CallOk(call) && call.request.body.AppendBody?
    ensures forall r :: r in Announced(call) ==> RecordOk(r)
  {
    var b := call.request.body;
    AnnouncedParts(call);
    hide Shape, RecordOk, SuppliedBounded, NamesOk, Matches, Index, WithTime;
    var links := StampedAll(b.links, call.now);
    StampedOk(b.version, call.now);
    forall r | r in Announced(call)
      ensures RecordOk(r)
    {
      if r in links {
        var i :| 0 <= i < |links| && links[i] == r;
        StampedOk(b.links[i], call.now);
      } else if r in b.roots + b.blobs + b.manifests {
        ContentOk(r);
      }
    }
  }

  lemma AnnouncedParts(call: Call)
    requires CallOk(call) && call.request.body.AppendBody?
    ensures var b := call.request.body;
            && Shape(b.version) && Untimed(b.version)
            && (forall i :: 0 <= i < |b.links| ==> Shape(b.links[i]) && Untimed(b.links[i]))
            && (forall r :: r in b.roots + b.blobs + b.manifests ==> Shape(r) && !Timed(r))
  {
    hide Shape, SuppliedBounded, NamesOk, Matches, Index;
  }

  lemma StampedOk(r: Record, now: Time.Moment)
    requires Shape(r) && Untimed(r)
    ensures RecordOk(Stamped(r, now))
  {
    hide StableId, AllStable, AllOpaque, OpaqueOk, TypeOk, Time.TimeOk, Distinct;
  }

  lemma ContentOk(r: Record)
    requires Shape(r) && !Timed(r)
    ensures RecordOk(r)
  {
    hide Shape;
  }

  /** Only one version is new, so only its own bytes have to be counted. */
  lemma BoundedUnion(db: Db, added: RecordMap, version: Record)
    requires Valid(db.records) && Agree(db.records, added) && version.Version?
    requires forall id :: id in added && added[id].Version? ==> added[id] == version
    requires TotalLength(db.records + added, ClosureBlobs(db.records + added, version)) <= MAX_PAYLOAD
    ensures ClosuresBounded(db.records + added)
  {
    hide RefsResolve, ClosureBlobs, Shape;
    var u := db.records + added;
    forall v | v in u && u[v].Version?
      ensures TotalLength(u, ClosureBlobs(u, u[v])) <= MAX_PAYLOAD
    {
      if v !in added {
        ClosureStays(db.records, u, v);
      }
    }
  }

  lemma OneVersion(call: Call)
    requires call.request.body.AppendBody? && Shaped(call.request.body)
    ensures forall r :: r in Announced(call) && r.Version? ==> r == Stamped(call.request.body.version, call.now)
  {
    var b := call.request.body;
    var links := StampedAll(b.links, call.now);
    forall i | 0 <= i < |links|
      ensures links[i].Provenance?
    {
      assert links[i].Kind() == b.links[i].Kind() == ProvenanceKind;
    }
    assert OfKind(b.roots, ContentRootKind) && OfKind(b.blobs, BlobKind) && OfKind(b.manifests, ManifestKind);
  }

  /** B's graph check, which has no byte bound, decides the whole validity of the combined records. */
  lemma GraphDecides(db: Db, call: Call, combined: RecordMap)
    requires Stored(db) && CallOk(call) && call.request.body.AppendBody?
    requires UniqueIds(Announced(call)) && forall r :: r in Announced(call) ==> Reusable(db, r)
    requires combined == db.records + Index(Announced(call))
    requires TotalLength(combined, ClosureBlobs(combined, Stamped(call.request.body.version, call.now))) <= MAX_PAYLOAD
    ensures Valid(combined) <==> GraphOk(combined)
    ensures WellShaped(combined)
  {
    hide Shape, RefsResolve, Shaped, Announced, Index, UniqueIds, ClosureBlobs, Resolves, Reusable;
    var announced := Announced(call);
    AnnouncedShapes(call);
    ShapesOfUnion(db, announced);
    CallOkShaped(call);
    OneVersion(call);
    assert Agree(db.records, Index(announced)) by {
      forall id | id in Index(announced) && id in db.records
        ensures db.records[id] == Index(announced)[id]
      {
        ReusableMeans(db, Index(announced)[id]);
      }
    }
    BoundedUnion(db, Index(announced), Stamped(call.request.body.version, call.now));
  }

  lemma ReusableMeans(db: Db, r: Record)
    requires Reusable(db, r)
    ensures r.id in db.records ==> db.records[r.id] == r
  {
  }

  // ---------- The same decision ----------

  /** The shape of an append request, without its payloads. */
  predicate AppendShaped(call: Call) {
    var b := call.request.body;
    && b.AppendBody? && Shaped(b) && NamesOk(call)
    && Shape(b.version) && AllShaped(b.roots) && AllShaped(b.blobs) && AllShaped(b.manifests) && AllShaped(b.links)
    && (call.claimed.Some? ==> call.claimed.value == call.fingerprint)
  }

  /** What A does with such a request. */
  ghost function AcceptedByA(db: Db, call: Call): Option<Plan>
    requires AppendShaped(call)
  {
    if CallOk(call) then AppendPlan(db, call) else None
  }

  lemma SameIdentities(call: Call)
    requires AppendShaped(call)
    ensures UniqueIds(Announced(call)) <==>
            UniqueIds(Items(call.request.body)) && call.request.body.version.id !in Index(Items(call.request.body))
  {
    hide Index, Shape, AllShaped;
    var b := call.request.body;
    var items, announced := Items(b), Announced(call);
    forall k | 0 <= k < |items|
      ensures announced[k + 1].id == items[k].id
    {
    }
    if UniqueIds(announced) {
      forall i, j | 0 <= i < j < |items|
        ensures items[i].id != items[j].id
      {
        assert announced[i + 1].id != announced[j + 1].id;
      }
      forall r | r in items
        ensures r.id != b.version.id
      {
        var k :| 0 <= k < |items| && items[k] == r;
        assert announced[0].id != announced[k + 1].id;
      }
    }
    if UniqueIds(items) && b.version.id !in Index(items) {
      forall i, j | 0 <= i < j < |announced|
        ensures announced[i].id != announced[j].id
      {
        assert items[j - 1] in items;
        assert i > 0 ==> items[i - 1].id != items[j - 1].id;
      }
    }
  }

  /** A request that A accepts passes B's input checks. */
  lemma InputNotRefused(db: Db, call: Call)
    requires AppendShaped(call) && CallOk(call) && AppendAllowed(db, call)
    ensures InputFits(call)
  {
    hide Shape, AllShaped, Shaped, Matches, Index, ClosureBlobs, TotalLength, Valid, UniqueIds, Reusable, SuppliedBounded, RootTargets,
         Resolves;
    var b := call.request.body;
    SameIdentities(call);
    forall id | id in call.supplied && id in Index(Items(b))
      ensures Matches(Index(Items(b))[id], call.supplied[id])
    {
      var r := Index(Items(b))[id];
      assert BytesAvailable(db, AppendRecords(db, call), call.supplied, id);
      ItemInCombined(db, call, r);
      MatchesBlob(AppendRecords(db, call)[id], call.supplied[id]);
    }
  }

  lemma ItemInCombined(db: Db, call: Call, r: Record)
    requires AppendShaped(call) && AppendAllowed(db, call) && r in Items(call.request.body)
    ensures r.id in AppendRecords(db, call)
    ensures AppendRecords(db, call)[r.id].Blob? ==> AppendRecords(db, call)[r.id] == r
  {
    hide Shape, AllShaped, Index, ClosureBlobs, TotalLength, Valid, UniqueIds, Reusable, Matches, AppendRecords;
    var b := call.request.body;
    if r in b.links {
      var i :| 0 <= i < |b.links| && b.links[i] == r;
      var link := StampedAll(b.links, call.now)[i];
      assert link in StampedAll(b.links, call.now) && link in Announced(call);
      InCombined(db, call, link);
      assert link.Kind() == r.Kind() == ProvenanceKind;
    } else {
      assert r in Announced(call);
      InCombined(db, call, r);
    }
  }

  lemma ContentInUnion(db: Db, call: Call, combined: RecordMap)
    requires call.request.body.AppendBody? && Shaped(call.request.body) && UniqueIds(Announced(call))
    requires combined == db.records + Index(Announced(call))
    ensures var b := call.request.body;
            forall r :: r in b.roots + b.blobs + b.manifests ==> r.id in combined && combined[r.id] == r
    ensures combined[call.request.body.version.id] == Stamped(call.request.body.version, call.now)
  {
    hide *;
    var b := call.request.body;
    AnnouncedHas(call);
    forall r | r in b.roots + b.blobs + b.manifests
      ensures r.id in combined && combined[r.id] == r
    {
      IndexAt(Announced(call), r);
    }
    StampedContent(call);
    IndexAt(Announced(call), Stamped(b.version, call.now));
  }

  /** The parts of A's decision. */
  lemma AppendParts(db: Db, call: Call)
    requires call.request.body.AppendBody? && Shaped(call.request.body)
    ensures AppendAllowed(db, call) <==>
            && Resolves(db.records, call.request.body.version.artifactId, ArtifactKind) && LinksOwn(call)
            && UniqueIds(Announced(call)) && (forall r :: r in Announced(call) ==> Reusable(db, r))
            && Valid(AppendRecords(db, call)) && OperationsOk(AppendRecords(db, call), db.operations) && BelongsTo(db, call)
            && forall ref :: ref in AppendRefs(db, call) ==> BytesAvailable(db, AppendRecords(db, call), call.supplied, ref)
  {
    hide Shaped, Valid, Announced, UniqueIds, BytesAvailable, Resolves, RootTargets, TotalLength, Reusable, OperationsOk, AppendRefs,
         AppendRecords;
  }

  /** The parts of A's decision once the announced records converge. */
  lemma DecisionParts(db: Db, call: Call, combined: RecordMap)
    requires AppendShaped(call) && Stored(db) && UniqueIds(Announced(call))
    requires forall r :: r in Announced(call) ==> Reusable(db, r)
    requires combined == db.records + Index(Announced(call))
    requires Resolves(db.records, call.request.body.version.artifactId, ArtifactKind)
    requires LinksOwn(call)
    ensures combined == AppendRecords(db, call)
    ensures AppendAllowed(db, call) <==>
            && Valid(combined) && OperationsOk(combined, db.operations)
            && BelongsTo(db, call)
            && (forall ref :: ref in AppendRefs(db, call) ==> BytesAvailable(db, combined, call.supplied, ref))
  {
    hide *;
    AppendShapedMeans(call);
    AppendParts(db, call);
    SameUnion(db, Announced(call));
    AppendRecordsAre(db, call);
  }

  lemma AppendRecordsAre(db: Db, call: Call)
    requires call.request.body.AppendBody? && Shaped(call.request.body)
    ensures AppendRecords(db, call) == db.records + Index(Fresh(db, Announced(call)))
  {
    hide Shaped, Announced, Index, Fresh;
  }

  lemma BelongsByUse(db: Db, call: Call, combined: RecordMap)
    requires AppendShaped(call) && UniqueIds(Announced(call)) && combined == db.records + Index(Announced(call))
    requires combined == AppendRecords(db, call) && ClosureResolves(combined, call.request.body.version.contentRootRef)
    ensures var b := call.request.body;
            var root := b.version.contentRootRef;
            var blobs := BlobsBelow(combined, root);
            && AppendRefs(db, call) == blobs
            && (BelongsTo(db, call) <==>
                && (forall r :: r in b.roots + b.blobs + b.manifests ==> r.id in ClosureIds(combined, root))
                && call.supplied.Keys <= blobs && TotalLength(combined, blobs) <= MAX_PAYLOAD)
  {
    hide *;
    var b := call.request.body;
    AppendShapedMeans(call);
    ResolvesMeans(combined, b.version.contentRootRef);
    ContentInUnion(db, call, combined);
    StampedContent(call);
    BelowIsClosure(combined, Stamped(b.version, call.now));
    RefsOfClosure(db, call, combined);
    UsedByKind(combined, b);
    BelongsMeans(db, call);
  }

  lemma ResolvesMeans(objects: RecordMap, root: Id)
    requires ClosureResolves(objects, root)
    ensures Resolves(objects, root, ContentRootKind)
    ensures Resolves(objects, objects[root].target.ref, objects[root].target.TargetKind())
    ensures objects[root].ContentRoot?
  {
  }

  lemma BelongsMeans(db: Db, call: Call)
    requires call.request.body.AppendBody? && Shaped(call.request.body)
    ensures var b := call.request.body;
            BelongsTo(db, call) <==>
            && (forall r :: r in b.roots ==> r.id == b.version.contentRootRef)
            && (forall r :: r in b.manifests ==> RootTargets(AppendRecords(db, call), b.version.contentRootRef, r.id))
            && (forall r :: r in b.blobs ==> r.id in AppendRefs(db, call))
            && call.supplied.Keys <= AppendRefs(db, call)
            && TotalLength(AppendRecords(db, call), AppendRefs(db, call)) <= MAX_PAYLOAD
  {
    hide AppendRecords, AppendRefs, RootTargets, TotalLength, Shaped;
  }

  lemma StampedContent(call: Call)
    requires call.request.body.AppendBody? && Shaped(call.request.body)
    ensures Untimed(call.request.body.version)
    ensures Stamped(call.request.body.version, call.now).Version?
    ensures Stamped(call.request.body.version, call.now).id == call.request.body.version.id
    ensures Stamped(call.request.body.version, call.now).contentRootRef == call.request.body.version.contentRootRef
  {
  }

  lemma ValidClosure(db: Db, call: Call, combined: RecordMap)
    requires AppendShaped(call) && UniqueIds(Announced(call)) && combined == db.records + Index(Announced(call)) && Valid(combined)
    ensures ClosureResolves(combined, call.request.body.version.contentRootRef)
  {
    hide Shape, AllShaped, Index, Announced, UniqueIds, Shaped, RefsResolve;
    ContentInUnion(db, call, combined);
    StampedContent(call);
    var version := Stamped(call.request.body.version, call.now);
    UnionHas(db, call, combined);
    assert RefsResolve(combined, combined[version.id]);
    ResolvedClosure(combined, version);
  }

  lemma UnionHas(db: Db, call: Call, combined: RecordMap)
    requires call.request.body.AppendBody? && Shaped(call.request.body) && combined == db.records + Index(Announced(call))
    ensures call.request.body.version.id in combined
  {
    assert Announced(call)[0] == Stamped(call.request.body.version, call.now);
  }

  lemma ResultsWithOwn(combined: RecordMap, operations: OperationMap, op: Operation)
    requires op.triple !in operations && OperationOk(combined, op)
    ensures OperationsOk(combined, operations[op.triple := op]) <==> OperationsOk(combined, operations)
  {
    hide OperationOk;
    var after := operations[op.triple := op];
    if OperationsOk(combined, after) {
      forall t | t in operations
        ensures operations[t].triple == t && OperationOk(combined, operations[t])
      {
        assert after[t] == operations[t];
      }
    }
  }

  /** B's graph check over tables. */
  method CheckGraph(objects: RecordMap, operations: OperationMap) returns (ok: bool)
    requires WellShaped(objects) && forall t :: t in operations ==> OperationShape(operations[t])
    ensures ok <==> GraphOk(objects) && OperationsOk(objects, operations)
  {
    hide *;
    KeyedByShape(objects);
    var rows, history;
    ok, rows := LoadRecords(objects);
    IndexIsTable(rows);
    ok, history := LoadOperations(operations);
    if !ok {
      UnkeyedOperations(objects, operations);
      return;
    }
    TimesOfRows(operations, history);
    ok := Graph(objects, rows, history);
  }

  lemma TimesOfRows(operations: OperationMap, rows: seq<Operation>)
    requires UniqueTriples(rows) && OperationIndex(rows) == operations
    requires forall t :: t in operations ==> OperationShape(operations[t])
    ensures forall o :: o in rows ==> OperationShape(o)
  {
    hide OperationShape, OperationIndex, UniqueTriples;
    forall o | o in rows
      ensures OperationShape(o)
    {
      OperationIndexAt(rows, o);
    }
  }

  lemma TimesOfUnion(operations: OperationMap, op: Operation, after: OperationMap)
    requires forall t :: t in operations ==> OperationShape(operations[t])
    requires OperationShape(op) && after == operations[op.triple := op]
    ensures forall t :: t in after ==> OperationShape(after[t])
  {
    hide OperationShape;
  }

  lemma KeyedByShape(objects: RecordMap)
    requires WellShaped(objects)
    ensures forall id :: id in objects ==> objects[id].id == id
  {
  }

  lemma UnkeyedOperations(objects: RecordMap, operations: OperationMap)
    ensures OperationsOk(objects, operations) ==> forall t :: t in operations ==> operations[t].triple == t
  {
  }

  /** The additions that are inserted. */
  method NotStored(db: Db, additions: seq<Record>) returns (rows: seq<Record>)
    ensures rows == Fresh(db, additions)
  {
    hide Fresh;
    rows := [];
    NothingFresh(db);
    for i := 0 to |additions|
      invariant rows == Fresh(db, additions[..i])
    {
      FreshPrefix(db, additions, i);
      if additions[i].id !in db.records {
        rows := rows + [additions[i]];
      }
    }
    assert additions[..|additions|] == additions;
  }

  /** B's append, from the request on: the same plan as A's, or the same refusal, unless a stored time is
      not plain. */
  method AppendLikeA(db: Db, call: Call) returns (plan: Option<Plan>)
    requires Stored(db) && AppendShaped(call) && call.request.Triple() !in db.operations
    ensures plan == if PlainTables(db) then AcceptedByA(db, call) else None
  {
    hide *;
    AppendShapedMeans(call);
    DecisionMeans(db, call);
    var ok := CheckInput(call);
    if !ok {
      if CallOk(call) && AppendAllowed(db, call) {
        InputNotRefused(db, call);
      }
      return None;
    }
    ok := ReadTables(db);
    if !ok {
      return None;
    }
    plan := AppendBranch(db, call);
  }

  /** The append branch itself, after the input and the stored state have been checked. */
  method AppendBranch(db: Db, call: Call) returns (plan: Option<Plan>)
    requires Stored(db) && AppendShaped(call) && InputFits(call) && call.request.Triple() !in db.operations
    ensures plan == AcceptedByA(db, call)
  {
    hide *;
    var b := call.request.body;
    var ok;
    AppendShapedMeans(call);
    DecisionMeans(db, call);
    SameIdentities(call);
    StoredRecordsOk(db);
    InputMeans(call);
    if !Resolves(db.records, b.version.artifactId, ArtifactKind) {
      return None;
    }
    var additions;
    ok, additions := Converge(db, call);
    if !ok {
      return None;
    }
    CallOkFromParts(call);
    var combined := db.records + Index(additions);
    DecisionParts(db, call, combined);
    var identities, blobs;
    ok, identities, blobs := Closure(combined, b.version.contentRootRef);
    if !ok {
      if Valid(combined) {
        ValidClosure(db, call, combined);
      }
      return None;
    }
    BelongsByUse(db, call, combined);
    var content := b.roots + b.blobs + b.manifests;
    if !(forall r :: r in content ==> r.id in identities) || !(call.supplied.Keys <= blobs) {
      return None;
    }
    var total := SumLengths(combined, blobs);
    if total > MAX_PAYLOAD {
      return None;
    }
    if !(forall ref :: ref in blobs ==> BytesAvailable(db, combined, call.supplied, ref)) {
      return None;
    }
    RefsOfClosure(db, call, combined);
    GraphDecides(db, call, combined);
    var op := Operation(call.request.Triple(), call.fingerprint, b.version.id, call.now);
    OwnResult(db, call, combined, op);
    ResultsWithOwn(combined, db.operations, op);
    var after := db.operations[op.triple := op];
    TimesOfUnion(db.operations, op, after);
    ok := CheckGraph(combined, after);
    if !ok {
      return None;
    }
    var rows := NotStored(db, additions);
    var payloads := BytesOf(rows, call.supplied);
    NewBlobsGiven(db, call);
    BytesOfNew(db, rows, call.supplied);
    return Some(Plan(rows, payloads, [], b.version.id));
  }

  function BytesOf(rows: seq<Record>, supplied: map<Id, Bytes>): map<Id, Bytes> {
    map id | id in supplied && id in BlobIds(Index(rows)) :: supplied[id]
  }

  lemma BytesOfNew(db: Db, rows: seq<Record>, supplied: map<Id, Bytes>)
    requires NewPayloads(db, supplied).Keys == BlobIds(Index(rows))
    ensures BytesOf(rows, supplied) == NewPayloads(db, supplied)
  {
    hide BlobIds, Index;
  }

  lemma AppendShapedMeans(call: Call)
    requires AppendShaped(call)
    ensures call.request.body.AppendBody? && Shaped(call.request.body)
  {
  }

  lemma DecisionMeans(db: Db, call: Call)
    requires AppendShaped(call)
    ensures AcceptedByA(db, call) ==
            if CallOk(call) && AppendAllowed(db, call)
            then Some(Plan(Fresh(db, Announced(call)), NewPayloads(db, call.supplied), [], call.request.body.version.id)) else None
    ensures AppendAllowed(db, call) ==>
            && Resolves(db.records, call.request.body.version.artifactId, ArtifactKind)
            && LinksOwn(call)
            && UniqueIds(Announced(call)) && (forall r :: r in Announced(call) ==> Reusable(db, r))
  {
    hide Shape, AllShaped, Valid, Matches, Fresh, ClosureBlobs, Announced, AppendAllowed, CallOk;
    AllowedMeans(db, call);
  }

  lemma InputMeans(call: Call)
    requires AppendShaped(call) && InputFits(call)
    ensures UniqueIds(Items(call.request.body)) && call.request.body.version.id !in Index(Items(call.request.body))
  {
  }

  lemma CallOkFromParts(call: Call)
    requires AppendShaped(call) && InputFits(call)
    requires LinksOwn(call)
    ensures CallOk(call)
  {
    hide Shape, AllShaped, Shaped, Matches, SuppliedBounded, UniqueIds;
    var b := call.request.body;
    forall id | id in call.supplied && id in Index(b.blobs)
      ensures Matches(Index(b.blobs)[id], call.supplied[id])
    {
      var r := Index(b.blobs)[id];
      assert r in Items(b);
      IndexAt(Items(b), r);
    }
  }

  lemma RefsOfClosure(db: Db, call: Call, combined: RecordMap)
    requires AppendShaped(call) && combined == AppendRecords(db, call)
    ensures AppendRefs(db, call) == ClosureBlobs(combined, Stamped(call.request.body.version, call.now))
  {
  }

  lemma VersionIsStable(call: Call)
    requires AppendShaped(call)
    ensures StableId(call.request.body.version.id)
  {
    hide StableId, AllShaped, Shaped, AllStable, AllOpaque, OpaqueOk;
  }

  lemma OwnResult(db: Db, call: Call, combined: RecordMap, op: Operation)
    requires AppendShaped(call) && UniqueIds(Announced(call)) && combined == db.records + Index(Announced(call))
    requires op.triple == call.request.Triple() && op.resultRef == call.request.body.version.id && op.recordedAt == call.now
    ensures OperationOk(combined, op) && OperationShape(op)
  {
    VersionIsStable(call);
    hide Shape, AllShaped, Shaped, Index, Announced, StableId, TripleOk, Time.TimeOk;
    UnionHas(db, call, combined);
    ContentInUnion(db, call, combined);
    StampedContent(call);
  }

  // ---------- Import ----------

  /** The stored and the supplied bytes of no known blob are different bytes with the same digest. */
  ghost predicate NoKnownCollision(db: Db, supplied: map<Id, Bytes>) {
    forall id :: id in supplied && id in db.payloads ==>
      Sha256(db.payloads[id]) == Sha256(supplied[id]) ==> db.payloads[id] == supplied[id]
  }

  /** B only checks that the stored bytes of a known blob are intact; A also compares them with the
      supplied ones. Without a collision this is the same. */
  lemma IntactMeansEqual(db: Db, call: Call)
    requires BundleOk(call.bundle, call.supplied) && NoKnownCollision(db, call.supplied)
    requires RecordsAgree(db, Index(call.bundle.records))
    ensures KnownBytesAgree(db, call.supplied) <==> forall id :: id in call.supplied && id in db.records ==> BlobIntact(db, id)
  {
    hide Index, ValidDocument, SuppliedBounded;
    forall id | id in call.supplied && id in db.records && BlobIntact(db, id)
      ensures db.payloads[id] == call.supplied[id]
    {
      assert id in BlobIds(Index(call.bundle.records));
      assert Matches(Index(call.bundle.records)[id], call.supplied[id]) && Matches(db.records[id], db.payloads[id]);
    }
  }

  lemma SameOperations(db: Db, call: Call)
    requires call.request.body.ImportBody? && UniqueTriples(call.bundle.operations)
    requires OperationsAgree(db, call.bundle.operations, call.request.Triple())
    ensures db.operations + OperationIndex(call.bundle.operations) == ImportOperations(db, call)
  {
    hide *;
    var all, added := OperationIndex(call.bundle.operations), OperationIndex(FreshOperations(db, call.bundle.operations));
    ImportOperationsAre(db, call);
    OperationsAgreeMeans(db, call);
    forall t | t in added
      ensures t !in db.operations && t in all && added[t] == all[t]
    {
      OperationIndexAt(call.bundle.operations, added[t]);
    }
    forall t | t in all && t !in db.operations
      ensures t in added
    {
      assert all[t] in FreshOperations(db, call.bundle.operations);
    }
  }

  lemma OperationsAgreeMeans(db: Db, call: Call)
    requires OperationsAgree(db, call.bundle.operations, call.request.Triple())
    ensures var all := OperationIndex(call.bundle.operations);
            forall t :: t in all && t in db.operations ==> db.operations[t] == all[t]
  {
    hide OperationIndex;
  }

  lemma FreshWithReceipt(db: Db, call: Call)
    requires call.request.body.ImportBody? && call.request.body.receiptId !in db.records
    ensures Fresh(db, call.bundle.records + [ImportReceipt(call)]) == ImportAdditions(db, call)
  {
    hide ImportReceipt;
    ReceiptId(call);
    var all := call.bundle.records + [ImportReceipt(call)];
    FreshPrefix(db, all, |call.bundle.records|);
    assert all[..|call.bundle.records|] == call.bundle.records && all[..|call.bundle.records| + 1] == all;
  }

  lemma MergedTables(db: Db, call: Call)
    requires call.request.body.ImportBody? && NamesOk(call) && Stored(db) && ValidDocument(call.bundle) && NoConflict(db, call)
    ensures db.records + Index(call.bundle.records)[call.request.body.receiptId := ImportReceipt(call)] == ImportRecords(db, call)
    ensures Valid(ImportRecords(db, call)) && OperationsOk(ImportRecords(db, call), ImportOperations(db, call))
    ensures Resolves(ImportRecords(db, call), call.request.body.receiptId, ReceiptKind)
  {
    hide *;
    NoConflictFits(db, call);
    ImportRecordsAre(db, call);
    StoredMeans(db);
    ImportMergeIsValid(db, call);
    AddLast(db.records, Index(call.bundle.records), call.request.body.receiptId, ImportReceipt(call));
  }

  lemma BundleTimes(call: Call)
    requires BundleOk(call.bundle, call.supplied)
    ensures forall t :: t in OperationIndex(call.bundle.operations) ==> OperationShape(OperationIndex(call.bundle.operations)[t])
  {
    hide Valid, Index, OperationIndex, Matches, SuppliedBounded, UniqueIds, UniqueTriples, OperationShape;
    forall t | t in OperationIndex(call.bundle.operations)
      ensures OperationShape(OperationIndex(call.bundle.operations)[t])
    {
      assert OperationOk(Index(call.bundle.records), OperationIndex(call.bundle.operations)[t]);
    }
  }

  lemma TimesOfMerge(a: OperationMap, b: OperationMap, merged: OperationMap)
    requires forall t :: t in a ==> OperationShape(a[t])
    requires forall t :: t in b ==> OperationShape(b[t])
    requires merged == a + b
    ensures forall t :: t in merged ==> OperationShape(merged[t])
  {
    hide OperationShape;
  }

  /** What A does with a bundle of which everything else has been checked. */
  ghost function ImportedByA(db: Db, call: Call): Option<Plan>
    requires call.request.body.ImportBody?
  {
    if NamesOk(call) && BundleOk(call.bundle, call.supplied) then ImportPlan(db, call) else None
  }

  /** B's import, from the decoded bundle on: the same plan as A's, or the same refusal, unless a time in
      the bundle or in the stored state is not plain. */
  method ImportLikeA(db: Db, call: Call) returns (plan: Option<Plan>)
    requires Stored(db) && call.request.body.ImportBody?
    requires NoKnownCollision(db, call.supplied) && call.request.Triple() !in db.operations
    ensures plan == if PlainTables(db) && PlainDocument(call.bundle) then ImportedByA(db, call) else None
  {
    hide *;
    BundlesAgree(call.bundle, call.supplied);
    ImportedMeans(db, call);
    if !NamesOk(call) {
      return None;
    }
    var ok := CheckBundleB(call.bundle, call.supplied);
    if !ok {
      return None;
    }
    ok := ReadTables(db);
    if !ok {
      return None;
    }
    plan := ImportBranch(db, call);
  }

  lemma ImportedMeans(db: Db, call: Call)
    requires call.request.body.ImportBody?
    ensures ImportedByA(db, call) == if NamesOk(call) && BundleOk(call.bundle, call.supplied) then ImportPlan(db, call) else None
  {
    hide NamesOk, BundleOk, ImportPlan;
  }

  /** The import branch itself. */
  method ImportBranch(db: Db, call: Call) returns (plan: Option<Plan>)
    requires Stored(db) && call.request.body.ImportBody? && NamesOk(call) && BundleOk(call.bundle, call.supplied)
    requires NoKnownCollision(db, call.supplied) && call.request.Triple() !in db.operations
    ensures plan == ImportPlan(db, call)
  {
    hide *;
    var receiptId := call.request.body.receiptId;
    var incoming := Index(call.bundle.records);
    BundleMeans(call);
    ConflictParts(db, call);
    ImportDecidedByConflicts(db, call);
    ImportPlanMeans(db, call);
    if receiptId in db.records || receiptId in incoming {
      return None;
    }
    StoredRecordsOk(db);
    BundleTimes(call);
    KeyedByShape(db.records);
    KeyedMeans(db.records);
    var ok := ConvergeIncoming(db, call.bundle);
    if RecordsAgree(db, incoming) {
      IntactMeansEqual(db, call);
    }
    if !ok {
      return None;
    }
    ok := OperationsConverge(db, call.bundle.operations, call.request.Triple());
    if !ok {
      return None;
    }
    var receipt := ImportReceipt(call);
    var combined := db.records + incoming[receiptId := receipt];
    var op := Operation(call.request.Triple(), call.fingerprint, receiptId, call.now);
    MergedTables(db, call);
    SameOperations(db, call);
    NotAnOldTriple(db, call, op);
    ReceiptIsResult(db, call, op);
    ResultsWithOwn(combined, ImportOperations(db, call), op);
    ValidIsGraphOk(combined);
    TimesOfMerge(db.operations, OperationIndex(call.bundle.operations), db.operations + OperationIndex(call.bundle.operations));
    var after := (db.operations + OperationIndex(call.bundle.operations))[op.triple := op];
    TimesOfUnion(db.operations + OperationIndex(call.bundle.operations), op, after);
    ok := CheckGraph(combined, after);
    if !ok {
      return None;
    }
    FreshWithReceipt(db, call);
    var rows := NotStored(db, call.bundle.records + [receipt]);
    var history := OperationsNotStored(db, call.bundle.operations);
    var payloads := BytesOf(rows, call.supplied);
    NoConflictFits(db, call);
    ImportedBytes(db, call);
    BytesOfNew(db, rows, call.supplied);
    return Some(Plan(rows, payloads, history, receiptId));
  }

  lemma KeyedMeans(objects: RecordMap)
    requires forall id :: id in objects ==> objects[id].id == id
    ensures Keyed(objects)
  {
  }

  lemma BundleMeans(call: Call)
    requires BundleOk(call.bundle, call.supplied)
    ensures ValidDocument(call.bundle) && UniqueIds(call.bundle.records) && UniqueTriples(call.bundle.operations)
    ensures call.supplied.Keys == BlobIds(Index(call.bundle.records))
    ensures forall id :: id in call.supplied ==> id in Index(call.bundle.records) && Matches(Index(call.bundle.records)[id], call.supplied[id])
  {
    hide Valid, Index, Matches, OperationsOk, UniqueIds, UniqueTriples, OperationIndex;
    BlobsAreIn(Index(call.bundle.records));
  }

  lemma ImportPlanMeans(db: Db, call: Call)
    requires call.request.body.ImportBody?
    ensures ImportPlan(db, call) ==
            if ImportAllowed(db, call) then
              Some(Plan(ImportAdditions(db, call), NewPayloads(db, call.supplied),
                        FreshOperations(db, call.bundle.operations), call.request.body.receiptId))
            else None
  {
    hide ImportAllowed;
  }

  lemma NotAnOldTriple(db: Db, call: Call, op: Operation)
    requires OperationsAgree(db, call.bundle.operations, call.request.Triple()) && call.request.Triple() !in db.operations
    requires op.triple == call.request.Triple()
    ensures op.triple !in ImportOperations(db, call)
  {
  }

  lemma ReceiptIsResult(db: Db, call: Call, op: Operation)
    requires call.request.body.ImportBody? && op.triple == call.request.Triple() && op.resultRef == call.request.body.receiptId
    requires op.recordedAt == call.now && NamesOk(call) && Resolves(ImportRecords(db, call), call.request.body.receiptId, ReceiptKind)
    ensures OperationOk(ImportRecords(db, call), op) && OperationShape(op)
  {
    hide ImportRecords, StableId, TripleOk, Time.TimeOk;
  }

  lemma ValidIsGraphOk(db: RecordMap)
    requires Valid(db)
    ensures GraphOk(db) && WellShaped(db)
  {
  }

  // ---------- Replay ----------

  /** `_check_replay_records`: the stored records are those of the original request. */
  method CheckReplayRecords(db: Db, call: Call, op: Operation) returns (ok: bool)
    requires Shaped(call.request.body) && op.triple == call.request.Triple()
    ensures ok <==> RequestStored(db, call, op)
  {
    hide HasRecord, HasUntimed, IdOrder.SortIds, ArtifactIds;
    match call.request.body
    case CreateBody(artifact) =>
      ok := HasUntimed(db, artifact) && op.resultRef == artifact.id;
    case AppendBody(version, roots, blobs, manifests, links) =>
      if !HasUntimed(db, version) || op.resultRef != version.id {
        return false;
      }
      var content := roots + blobs + manifests;
      for i := 0 to |content|
        invariant forall k :: 0 <= k < i ==> HasRecord(db, content[k])
      {
        if !HasRecord(db, content[i]) {
          assert content[i] in content;
          return false;
        }
      }
      for i := 0 to |links|
        invariant forall k :: 0 <= k < i ==> HasUntimed(db, links[k])
      {
        if !HasUntimed(db, links[i]) {
          return false;
        }
      }
      return true;
    case ImportBody(receiptId) =>
      if !Resolves(db.records, receiptId, ReceiptKind)
         || db.records[receiptId].importedArtifacts != IdOrder.SortIds(ArtifactIds(call.bundle.records))
         || op.resultRef != receiptId {
        return false;
      }
      var records, operations := call.bundle.records, call.bundle.operations;
      for i := 0 to |records|
        invariant forall k :: 0 <= k < i ==> HasRecord(db, records[k])
      {
        if !HasRecord(db, records[i]) {
          assert records[i] in records;
          return false;
        }
      }
      ok := forall o :: o in operations ==> o.triple in db.operations && db.operations[o.triple] == o;
  }

  /** The blobs that B looks at are those that A looks at. */
  method ReplayedBlobs(db: Db, call: Call, op: Operation) returns (refs: set<Id>)
    requires CallOk(call) && Stored(db) && RequestStored(db, call, op)
    ensures refs == ReplayRefs(db, call, op)
  {
    hide Stored, CallOk, Index, BlobIds, ClosureBlobs, BlobsBelow, ClosureResolves, Shape, BundleOk;
    CallOkShaped(call);
    match call.request.body
    case CreateBody(_) => refs := {};
    case AppendBody(version, _, _, _, _) =>
      StoredVersion(db, call, op);
      var ok, _, blobs := Closure(db.records, version.contentRootRef);
      BelowIsClosure(db.records, db.records[op.resultRef]);
      refs := blobs;
    case ImportBody(_) =>
      ImportedBlobs(call);
      refs := call.supplied.Keys;
  }

  lemma StoredVersion(db: Db, call: Call, op: Operation)
    requires call.request.body.AppendBody? && Shaped(call.request.body) && Stored(db) && RequestStored(db, call, op)
    ensures op.resultRef in db.records && db.records[op.resultRef].Version?
    ensures db.records[op.resultRef].contentRootRef == call.request.body.version.contentRootRef
    ensures ClosureResolves(db.records, call.request.body.version.contentRootRef)
  {
    hide RefsResolve, ClosureResolves, AllReferences, ClosuresBounded, OperationsOk;
    assert HasUntimed(db, call.request.body.version);
    assert RefsResolve(db.records, db.records[op.resultRef]);
    ResolvedClosure(db.records, db.records[op.resultRef]);
  }

  lemma ImportedBlobs(call: Call)
    requires CallOk(call) && call.request.body.ImportBody?
    ensures call.supplied.Keys == BlobIds(Index(call.bundle.records))
  {
    hide ValidDocument, SuppliedBounded, Index, BlobIds;
  }

  /** What B answers to a repeated request: nothing but a refusal if the stored operation itself does not
      pass its check, since the commit is not yet taken as known; and then a verdict. If all stored times
      are plain it is one that A may give. */
  method ReplayLikeA(db: Db, call: Call, op: Operation) returns (verdict: Option<ReplayVerdict>)
    requires CallOk(call) && Stored(db) && op.triple == call.request.Triple()
    requires op.triple in db.operations && db.operations[op.triple] == op
    ensures Shaped(call.request.body)
    ensures verdict.None? <==> !Time.Plain(op.recordedAt)
    ensures verdict.Some? && PlainTables(db) ==> MayAnswer(db, call, op, verdict.value)
    ensures verdict.Some? && !PlainTables(db) ==> verdict.value == Damaged
  {
    hide *;
    CallOkShaped(call);
    StoredRecordsOk(db);
    var ok := CheckOperationB(op);
    if !ok {
      return None;
    }
    ok := ReadTables(db);
    if !ok {
      return Some(Damaged);
    }
    var answer := ReplayBranch(db, call, op);
    return Some(answer);
  }

  /** The verdict, after the stored state has been read: all supplied bytes are compared before any stored
      ones are read. */
  method ReplayBranch(db: Db, call: Call, op: Operation) returns (verdict: ReplayVerdict)
    requires CallOk(call) && Stored(db) && op.triple == call.request.Triple()
    requires op.triple in db.operations && db.operations[op.triple] == op
    ensures Shaped(call.request.body) && MayAnswer(db, call, op, verdict)
  {
    hide Stored, CallOk, RequestStored, ReplayRefs, Shaped, SuppliedWrong, BlobIntact;
    CallOkShaped(call);
    ResultIsStored(db, op);
    var ok;
    ok := CheckReplayRecords(db, call, op);
    if !ok {
      return Damaged;
    }
    var refs := ReplayedBlobs(db, call, op);
    if !(call.supplied.Keys <= refs) {
      return BadInput;
    }
    if exists ref :: ref in refs && SuppliedWrong(db, call.supplied, ref) {
      return BadInput;
    }
    if exists ref :: ref in refs && !BlobIntact(db, ref) {
      return Damaged;
    }
    return Confirmed;
  }

  // ---------- Create ----------

  lemma CreatedIsValid(db: Db, call: Call, r: Record, op: Operation)
    requires Stored(db) && call.request.body.CreateBody? && CallOk(call) && call.request.Triple() !in db.operations
    requires r == Stamped(call.request.body.artifact, call.now) && r.id !in db.records
    requires op == Operation(call.request.Triple(), call.fingerprint, r.id, call.now)
    ensures WellShaped(db.records[r.id := r]) && GraphOk(db.records[r.id := r])
    ensures OperationsOk(db.records[r.id := r], db.operations[op.triple := op]) && OperationShape(op)
  {
    hide *;
    var plan := Plan([r], map[], [], r.id);
    CreateMeans(db, call);
    CreateSound(db, call, plan, op);
    SoundGraph(db, plan, op);
    SingleIndex(r);
    assert db.records + map[r.id := r] == db.records[r.id := r];
    ValidIsGraphOk(db.records[r.id := r]);
  }

  lemma CreateMeans(db: Db, call: Call)
    requires call.request.body.CreateBody? && CallOk(call)
    ensures Shaped(call.request.body) && Untimed(call.request.body.artifact)
    ensures var r := Stamped(call.request.body.artifact, call.now);
            CreatePlan(db, call) == if r.id in db.records then None else Some(Plan([r], map[], [], r.id))
    ensures forall plan: Plan :: OperationOf(call, plan) == Operation(call.request.Triple(), call.fingerprint, plan.resultRef, call.now)
  {
    hide Stamped, Shape;
  }

  lemma ResultShape(records: RecordMap, op: Operation)
    ensures OperationOk(records, op) ==> OperationShape(op)
  {
    hide OperationShape;
  }

  lemma SoundGraph(db: Db, plan: Plan, op: Operation)
    requires Stored(db) && Sound(db, plan, op) && plan.history == []
    ensures Valid(db.records + Index(plan.additions)) && OperationShape(op)
    ensures OperationsOk(db.records + Index(plan.additions), db.operations[op.triple := op])
  {
    ResultShape(db.records + Index(plan.additions), op);
    hide Valid, AllReferences, OperationOk, OperationsOk, BlobIds, Matches, Index, UniqueIds, UniqueTriples;
    UnionWithin(db, plan.additions);
    ResultsStillResolve(db.records, db.records + Index(plan.additions), db.operations);
    OperationsAfter(db, plan, op, db.records + Index(plan.additions));
    assert OperationIndex(plan.history) == map[];
    assert db.operations + map[] == db.operations;
  }

  /** B's creation: the same plan as A's, or the same refusal, unless a stored time is not plain. */
  method CreateLikeA(db: Db, call: Call) returns (plan: Option<Plan>)
    requires Stored(db) && call.request.body.CreateBody? && CallOk(call) && call.request.Triple() !in db.operations
    ensures Shaped(call.request.body) && plan == if PlainTables(db) then CreatePlan(db, call) else None
  {
    hide *;
    CreateMeans(db, call);
    var ok := ReadTables(db);
    if !ok {
      return None;
    }
    plan := CreateBranch(db, call);
  }

  method CreateBranch(db: Db, call: Call) returns (plan: Option<Plan>)
    requires Stored(db) && call.request.body.CreateBody? && CallOk(call) && call.request.Triple() !in db.operations
    ensures Shaped(call.request.body) && plan == CreatePlan(db, call)
  {
    hide *;
    var ok;
    CreateMeans(db, call);
    StoredRecordsOk(db);
    var r := Stamped(call.request.body.artifact, call.now);
    if r.id in db.records {
      return None;
    }
    var op := Operation(call.request.Triple(), call.fingerprint, r.id, call.now);
    CreatedIsValid(db, call, r, op);
    var after := db.operations[op.triple := op];
    TimesOfUnion(db.operations, op, after);
    ok := CheckGraph(db.records[r.id := r], after);
    if !ok {
      return None;
    }
    return Some(Plan([r], map[], [], r.id));
  }

  // ---------- B stores only plain times ----------

  lemma IndexPlain(records: seq<Record>)
    requires forall r :: r in records ==> PlainRecord(r)
    ensures forall id :: id in Index(records) ==> PlainRecord(Index(records)[id])
  {
    hide Index, PlainRecord;
  }

  lemma AnnouncedPlain(call: Call)
    requires call.request.body.AppendBody? && Shaped(call.request.body)
    ensures forall r :: r in Announced(call) ==> PlainRecord(r)
  {
    hide Time.Plain;
    var links := StampedAll(call.request.body.links, call.now);
    forall r | r in Announced(call)
      ensures PlainRecord(r)
    {
      if r in links {
        var i :| 0 <= i < |links| && links[i] == r;
      }
    }
  }

  lemma AppliedPlain(db: Db, plan: Plan, op: Operation)
    requires PlainTables(db) && Time.Plain(op.recordedAt)
    requires forall r :: r in plan.additions ==> PlainRecord(r)
    requires forall o :: o in plan.history ==> Time.Plain(o.recordedAt)
    ensures PlainTables(Apply(db, plan, op))
  {
    hide Index, OperationIndex, PlainRecord, Time.Plain, RowsOf;
    IndexPlain(plan.additions);
    var history := OperationIndex(plan.history);
    forall t | t in history
      ensures Time.Plain(history[t].recordedAt)
    {
      assert history[t] in plan.history;
    }
  }

  /** An append that B carries out leaves only plain times. */
  lemma AppendKeepsPlain(db: Db, call: Call, plan: Plan)
    requires PlainTables(db) && AppendShaped(call) && AcceptedByA(db, call) == Some(plan)
    ensures PlainTables(Apply(db, plan, OperationOf(call, plan)))
  {
    hide PlainTables, PlainRecord, Time.Plain, Apply, Shape, AllShaped, AppendAllowed, CallOk, Announced;
    AnnouncedPlain(call);
    AppliedPlain(db, plan, OperationOf(call, plan));
  }

  /** So does an import of a bundle that B lets through. */
  lemma ImportKeepsPlain(db: Db, call: Call, plan: Plan)
    requires PlainTables(db) && call.request.body.ImportBody? && PlainDocument(call.bundle)
    requires ImportedByA(db, call) == Some(plan)
    ensures PlainTables(Apply(db, plan, OperationOf(call, plan)))
  {
    hide PlainTables, Time.Plain, Apply, ImportAllowed, BundleOk;
    AppliedPlain(db, plan, OperationOf(call, plan));
  }

  /** And a creation, which both implementations carry out if the identity is new. */
  lemma CreateKeepsPlain(db: Db, call: Call, plan: Plan)
    requires PlainTables(db) && call.request.body.CreateBody? && Shaped(call.request.body)
    requires CreatePlan(db, call) == Some(plan)
    ensures PlainTables(Apply(db, plan, OperationOf(call, plan)))
  {
    hide PlainTables, Time.Plain, Apply;
    AppliedPlain(db, plan, OperationOf(call, plan));
  }
}
