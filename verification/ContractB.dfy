/** Implementation B's validator: its own check of single records, then one pass over all objects, one
    set of used identities, and a search for cycles that visits the newest ready version first. */
module ContractB {
  import opened Records
  import opened ParentGraph
  import opened Validity
  import opened Validation
  import opened Merge
  import RecordJson
  import Time

  // ---------- Single records ----------

  /** The time of the record, if it has one, is one that B's library calendar can represent. */
  predicate PlainRecord(r: Record) { Timed(r) ==> Time.Plain(r.recordedAt) }

  /** B's `record`: what A accepts, unless its time is a leap second or lies in the year 0. */
  method CheckRecordB(r: Record) returns (ok: bool)
    ensures ok <==> RecordOk(r) && PlainRecord(r)
  {
    hide Time.StampOk, Time.ReadStamp, Distinct, DistinctKeys, RecordJson.ManifestDigest, FieldsOk;
    if !FieldsOk(r) {
      return false;
    }
    if Timed(r) {
      ok := Time.CheckTimestampB(r.recordedAt);
      if !ok {
        return;
      }
    }
    match r {
      case Version(_, _, _, parents, sources, captures, _, policies, _) =>
        var a := Unique(parents);
        var b := Unique(sources);
        var c := Unique(captures);
        var d := Unique(policies);
        return a && b && c && d;
      case Manifest(_, digest, entries) =>
        ok := UniqueKeys(entries);
        return ok && entries != [] && digest == RecordJson.ManifestDigest(entries);
      case Receipt(_, imported, _) => ok := Unique(imported);
      case _ => return true;
    }
  }

  /** B's objects, checked and entered one by one. */
  method CollectB(records: seq<Record>) returns (ok: bool, objects: RecordMap)
    ensures ok <==> UniqueIds(records) && forall r :: r in records ==> RecordOk(r) && PlainRecord(r)
    ensures ok ==> objects == Index(records)
  {
    hide *;
    objects := map[];
    NoneOwned(records);
    for i := 0 to |records|
      invariant UniqueIds(records[..i]) && objects == Index(records[..i])
      invariant forall k :: 0 <= k < i ==> RecordOk(records[k]) && PlainRecord(records[k])
    {
      var r := records[i];
      assert r in records;
      ok := CheckRecordB(r);
      if !ok {
        return;
      }
      NextOwned(records, i);
      if r.id in objects {
        return false, objects;
      }
      objects := objects[r.id := r];
    }
    assert records[..|records|] == records;
    return true, objects;
  }

  /** B's `operation`. */
  method CheckOperationB(o: Operation) returns (ok: bool)
    ensures ok <==> OperationShape(o) && Time.Plain(o.recordedAt)
  {
    hide Time.TimeOk, Time.Plain, TripleOk, StableId;
    ok := TripleOk(o.triple) && StableId(o.resultRef);
    if ok {
      ok := Time.CheckTimestampB(o.recordedAt);
    }
  }

  /** B's operations: each by itself, and no triple twice. */
  method CollectOperationsB(operations: seq<Operation>) returns (ok: bool)
    ensures ok <==> UniqueTriples(operations) && forall o :: o in operations ==> OperationShape(o) && Time.Plain(o.recordedAt)
  {
    hide OperationShape, Time.Plain;
    for i := 0 to |operations|
      invariant forall k :: 0 <= k < i ==> OperationShape(operations[k]) && Time.Plain(operations[k].recordedAt)
    {
      var o := operations[i];
      assert o in operations;
      ok := CheckOperationB(o);
      if !ok {
        return;
      }
    }
    ok := UniqueOperations(operations);
  }

  method CheckResultsB(db: RecordMap, operations: seq<Operation>) returns (ok: bool)
    requires UniqueTriples(operations) && forall o :: o in operations ==> OperationShape(o)
    ensures ok <==> OperationsOk(db, OperationIndex(operations))
  {
    hide OperationShape, UniqueTriples;
    for i := 0 to |operations|
      invariant forall k :: 0 <= k < i ==> OperationOk(db, operations[k])
    {
      var o := operations[i];
      assert o in operations;
      OperationIndexAt(operations, o);
      if !Resolves(db, o.resultRef, o.triple.kind.ResultKind()) {
        return false;
      }
    }
    return true;
  }

  // ---------- The graph ----------

  /** The content identities that a record keeps in use. */
  function UsesOf(r: Record): (ids: set<Id>)
    ensures forall id :: id in ids <==> Uses(r, id)
  {
    match r
    case Version(_, _, root, _, _, _, _, _, _) => {root}
    case ContentRoot(_, target) => {target.ref}
    case Manifest(_, _, entries) => BlobsOfEntries(entries)
    case _ => {}
  }

  ghost function UsedIds(records: seq<Record>): set<Id> {
    set r, id | r in records && id in UsesOf(r) :: id
  }

  ghost predicate RecordsResolve(db: RecordMap, records: seq<Record>) {
    forall r :: r in records ==> RefsResolve(db, r)
  }

  /** The state after the first `i` objects. */
  ghost predicate Passed(db: RecordMap, records: seq<Record>, i: nat, links: Parents, used: set<Id>,
                         indegrees: map<Id, int>, children: map<Id, seq<Id>>) {
    && i <= |records|
    && RecordsResolve(db, records[..i])
    && used == UsedIds(records[..i])
    && LinksOf(links, db, records[..i]) && TurnsAround(links, children)
    && Counts(links, indegrees, {})
  }

  lemma PassOther(db: RecordMap, records: seq<Record>, i: nat, links: Parents, used: set<Id>,
                  indegrees: map<Id, int>, children: map<Id, seq<Id>>)
    requires Passed(db, records, i, links, used, indegrees, children)
    requires i < |records| && !records[i].Version? && RefsResolve(db, records[i])
    ensures Passed(db, records, i + 1, links, used + UsesOf(records[i]), indegrees, children)
  {
    hide TurnsAround, Counts, RefsResolve, UsesOf;
    assert records[..i + 1] == records[..i] + [records[i]];
  }

  lemma PassVersion(db: RecordMap, records: seq<Record>, i: nat, links: Parents, used: set<Id>,
                    indegrees: map<Id, int>, children: map<Id, seq<Id>>, linked: map<Id, seq<Id>>)
    requires Table(db, records) && Passed(db, records, i, links, used, indegrees, children)
    requires i < |records| && records[i].Version? && RefsResolve(db, records[i])
    requires TurnsAround(links[records[i].id := records[i].parents], linked)
    ensures var r := records[i];
            Passed(db, records, i + 1, links[r.id := r.parents], used + {r.contentRootRef}, indegrees[r.id := |r.parents|], linked)
  {
    hide TurnsAround, RefsResolve, Counts, LinksOf, Table;
    var r := records[i];
    assert records[..i + 1] == records[..i] + [r];
    assert UsesOf(r) == {r.contentRootRef};
    CountsMore(links, indegrees, r.id, r.parents);
    LinksMore(db, records, i, links);
  }

  /** Nothing has been visited yet, so a version counts all its parents. */
  lemma CountsMore(links: Parents, indegrees: map<Id, int>, id: Id, parents: seq<Id>)
    requires Counts(links, indegrees, {})
    ensures Counts(links[id := parents], indegrees[id := |parents|], {})
  {
    UnvisitedNone(parents);
  }

  lemma LinksMore(db: RecordMap, records: seq<Record>, i: nat, links: Parents)
    requires Table(db, records) && i < |records| && records[i].Version?
    requires LinksOf(links, db, records[..i])
    ensures LinksOf(links[records[i].id := records[i].parents], db, records[..i] + [records[i]])
  {
    assert records[i] in records;
  }

  lemma NothingPassed(db: RecordMap, records: seq<Record>)
    ensures Passed(db, records, 0, map[], {}, map[], map[])
  {
  }

  lemma AllPassed(db: RecordMap, records: seq<Record>, links: Parents, used: set<Id>, indegrees: map<Id, int>, children: map<Id, seq<Id>>)
    requires Table(db, records) && Passed(db, records, |records|, links, used, indegrees, children)
    ensures AllResolve(db) && links == VersionParents(db)
    ensures TurnsAround(VersionParents(db), children) && Counts(VersionParents(db), indegrees, {})
    ensures forall id :: id in used <==> Used(db, id)
  {
    assert records[..|records|] == records;
    AllLinked(db, records, links);
    forall id | id in db
      ensures RefsResolve(db, db[id])
    {
      assert db[id] in records;
    }
    forall id | id in used
      ensures Used(db, id)
    {
      var r :| r in records && id in UsesOf(r);
      assert db[r.id] == r && Uses(db[r.id], id);
    }
    forall id | Used(db, id)
      ensures id in used
    {
      var u :| u in db && Uses(db[u], id);
      assert db[u] in records && id in UsesOf(db[u]);
    }
  }

  /** Every content object is in use. */
  method AllContentUsed(db: RecordMap, records: seq<Record>, used: set<Id>) returns (ok: bool)
    requires Table(db, records)
    ensures ok <==> forall id :: id in db && IsContent(db[id]) ==> id in used
  {
    for i := 0 to |records|
      invariant forall k :: 0 <= k < i && IsContent(records[k]) ==> records[k].id in used
    {
      if IsContent(records[i]) && records[i].id !in used {
        assert records[i] in records;
        assert db[records[i].id] == records[i];
        return false;
      }
    }
    forall id | id in db && IsContent(db[id])
      ensures id in used
    {
      assert db[id] in records;
    }
    return true;
  }

  /** `graph`: accepts exactly if references resolve, there is no parent cycle, no content is
      unused and every operation has a result of its kind. */
  method Graph(objects: RecordMap, records: seq<Record>, operations: seq<Operation>) returns (ok: bool)
    requires Table(objects, records) && WellShaped(objects) && UniqueTriples(operations)
    requires forall o :: o in operations ==> OperationShape(o)
    ensures ok <==> GraphOk(objects) && OperationsOk(objects, OperationIndex(operations))
  {
    hide *;
    assert GraphOk(objects) <==> AllResolve(objects) && !HasCycle(VersionParents(objects)) && AllUsed(objects) by { GraphOkMeans(objects); }
    var used: set<Id>, indegrees: map<Id, int>, children: map<Id, seq<Id>> := {}, map[], map[];
    ghost var links: Parents := map[];
    NothingPassed(objects, records);
    for i := 0 to |records|
      invariant Passed(objects, records, i, links, used, indegrees, children)
    {
      var r := records[i];
      InTable(objects, records, i);
      if r.Version? {
        PassedMeans(objects, records, i, links, used, indegrees, children);
        NewInTable(objects, records, i, links);
        VersionResolves(objects, r);
        if !Resolves(objects, r.artifactId, ArtifactKind) || !Resolves(objects, r.contentRootRef, ContentRootKind) {
          return false;
        }
        var parentsOk, linked := LinkParents(objects, r, children, links);
        if !parentsOk {
          return false;
        }
        PassVersion(objects, records, i, links, used, indegrees, children, linked);
        used := used + {r.contentRootRef};
        indegrees, children := indegrees[r.id := |r.parents|], linked;
        links := links[r.id := r.parents];
      } else {
        if !RefsResolve(objects, r) {
          return false;
        }
        PassOther(objects, records, i, links, used, indegrees, children);
        used := used + UsesOf(r);
      }
    }
    AllPassed(objects, records, links, used, indegrees, children);
    CountsKeys(VersionParents(objects), indegrees);
    var ready := Sources(records, indegrees, objects);
    ParentsWellFormed(objects);
    var visited := CountVisitedLifo(VersionParents(objects), indegrees, children, ready);
    if visited != |indegrees| {
      return false;
    }
    var content := AllContentUsed(objects, records, used);
    AllUsedMeans(objects, used);
    if !content {
      return false;
    }
    ok := CheckResultsB(objects, operations);
  }

  lemma GraphOkMeans(db: RecordMap)
    ensures GraphOk(db) <==> AllResolve(db) && !HasCycle(VersionParents(db)) && AllUsed(db)
  {
  }

  lemma AllUsedMeans(db: RecordMap, used: set<Id>)
    requires forall id :: id in used <==> Used(db, id)
    ensures AllUsed(db) <==> forall id :: id in db && IsContent(db[id]) ==> id in used
  {
  }

  lemma InTable(db: RecordMap, records: seq<Record>, i: nat)
    requires Table(db, records) && WellShaped(db) && i < |records|
    ensures records[i].Version? ==> Distinct(records[i].parents)
    ensures AllResolve(db) ==> RefsResolve(db, records[i])
  {
    assert records[i] in records;
    assert db[records[i].id] == records[i] && Shape(records[i]);
  }

  lemma PassedMeans(db: RecordMap, records: seq<Record>, i: nat, links: Parents, used: set<Id>,
                    indegrees: map<Id, int>, children: map<Id, seq<Id>>)
    requires Passed(db, records, i, links, used, indegrees, children)
    ensures LinksOf(links, db, records[..i]) && TurnsAround(links, children)
  {
  }

  lemma VersionResolves(db: RecordMap, r: Record)
    requires r.Version?
    ensures RefsResolve(db, r) <==>
            Resolves(db, r.artifactId, ArtifactKind) && Resolves(db, r.contentRootRef, ContentRootKind) && ParentsOk(db, r)
  {
  }

  // ---------- Whole documents ----------

  /** Every time in the document is one that B's library calendar can represent. */
  predicate PlainDocument(d: Document) {
    && (forall r :: r in d.records ==> PlainRecord(r))
    && (forall o :: o in d.operations ==> Time.Plain(o.recordedAt))
  }

  /** What B accepts: A's conditions without the byte bound, and only plain times. */
  ghost predicate ValidForB(d: Document) {
    && UniqueIds(d.records) && UniqueTriples(d.operations) && WellShaped(Index(d.records))
    && GraphOk(Index(d.records)) && OperationsOk(Index(d.records), OperationIndex(d.operations))
    && PlainDocument(d)
  }

  lemma ForBMeans(d: Document)
    ensures ValidForB(d) <==>
            && UniqueIds(d.records) && UniqueTriples(d.operations) && WellShaped(Index(d.records))
            && GraphOk(Index(d.records)) && OperationsOk(Index(d.records), OperationIndex(d.operations))
            && (forall r :: r in d.records ==> PlainRecord(r))
            && (forall o :: o in d.operations ==> Time.Plain(o.recordedAt))
  {
  }

  lemma TimesOfOperations(db: RecordMap, operations: seq<Operation>)
    requires UniqueTriples(operations) && OperationsOk(db, OperationIndex(operations))
    ensures forall o :: o in operations ==> OperationShape(o)
  {
    hide OperationShape, UniqueTriples;
    forall o | o in operations
      ensures OperationShape(o)
    {
      OperationIndexAt(operations, o);
      assert OperationOk(db, OperationIndex(operations)[o.triple]);
    }
  }

  /** `metadata`: B's check of a whole document. */
  method Metadata(d: Document) returns (ok: bool)
    ensures ok <==> ValidForB(d)
  {
    hide *;
    ForBMeans(d);
    var shaped, objects := CollectB(d.records);
    if UniqueIds(d.records) {
      IndexIsTable(d.records);
      ShapesOfTable(Index(d.records), d.records);
    }
    if !shaped {
      return false;
    }
    if UniqueTriples(d.operations) && OperationsOk(objects, OperationIndex(d.operations)) {
      TimesOfOperations(objects, d.operations);
    }
    ok := CollectOperationsB(d.operations);
    if ok {
      ok := Graph(objects, d.records, d.operations);
    }
  }

  /** The two validators agree on every document whose versions stay within the payload limit, which B
      does not check, and whose times are plain, which A does not ask. */
  method ValidatorsAgree(d: Document) returns (a: bool, b: bool)
    ensures b && ClosuresBounded(Index(d.records)) <==> a && PlainDocument(d)
  {
    hide *;
    a := ValidateMetadata(d);
    b := Metadata(d);
    ValidMeans(d);
    ForBMeans(d);
    PlainMeans(d);
    GraphOkMeans(Index(d.records));
  }

  lemma PlainMeans(d: Document)
    ensures PlainDocument(d) <==>
            (forall r :: r in d.records ==> PlainRecord(r)) && (forall o :: o in d.operations ==> Time.Plain(o.recordedAt))
  {
  }

  /** A document with one artifact of a given time. */
  function OneArtifact(time: string): Document {
    Document([Artifact(Id("artifact:1"), "namespace:1", TypeRef("n", "t", "1"), time)], [])
  }

  lemma OneArtifactIsValid(time: string)
    requires Time.TimeOk(time)
    ensures ValidDocument(OneArtifact(time))
    ensures PlainDocument(OneArtifact(time)) <==> Time.Plain(time)
  {
    hide Time.TimeOk, Time.Plain, Valid;
    var d := OneArtifact(time);
    var r := d.records[0];
    assert d.records[..0] == [] && r in d.records;
    assert Index(d.records) == map[][r.id := r] && OperationIndex(d.operations) == map[];
    NothingIsValid();
    AddIsolated(map[], r);
  }

  lemma NothingIsValid()
    ensures Valid(map[])
  {
    forall path: seq<Id> | |path| >= 2
      ensures !Ancestry(map[], path)
    {
      assert !IsParent(map[], path[1], path[0]);
    }
    assert VersionParents(map[]) == map[];
  }

  /** Documents that A accepts and B refuses: an artifact recorded in a leap second, or in the year 0. */
  lemma OnlyAAccepts()
    ensures ValidDocument(OneArtifact("2016-12-31T23:59:60Z")) && !ValidForB(OneArtifact("2016-12-31T23:59:60Z"))
    ensures ValidDocument(OneArtifact("0000-02-29T00:00:00Z")) && !ValidForB(OneArtifact("0000-02-29T00:00:00Z"))
  {
    hide ValidDocument, PlainDocument, OneArtifact, Time.TimeOk, Time.Plain, Time.WriteStamp;
    Time.LeapSecond();
    Time.LeapSecondText();
    Time.YearZero();
    Time.YearZeroText();
    OneArtifactIsValid("2016-12-31T23:59:60Z");
    OneArtifactIsValid("0000-02-29T00:00:00Z");
  }
}
