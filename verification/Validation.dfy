/** Implementation A's `validate_metadata`: loops over the collections of a document. */
module Validation {
  import opened Records
  import opened ParentGraph
  import opened Validity
  import RecordJson
  import Time

  /** `db` is the identity table of exactly these records. */
  ghost predicate Table(db: RecordMap, records: seq<Record>) {
    && UniqueIds(records)
    && (forall r :: r in records ==> r.id in db && db[r.id] == r)
    && (forall id :: id in db ==> db[id] in records && db[id].id == id)
  }

  lemma IndexIsTable(records: seq<Record>)
    requires UniqueIds(records)
    ensures Table(Index(records), records)
  {
    forall r | r in records
      ensures r.id in Index(records) && Index(records)[r.id] == r
    {
      IndexAt(records, r);
    }
  }

  lemma {:induction false} ElementsCount<T>(s: seq<T>)
    ensures |set x | x in s| <= |s|
    ensures |set x | x in s| == |s| <==> Distinct(s)
  {
    if s != [] {
      var rest, last := s[..|s| - 1], s[|s| - 1];
      ElementsCount(rest);
      assert s == rest + [last];
      var fewer := set x | x in rest;
      assert (set x | x in s) == fewer + {last};
      if last in rest {
        var k :| 0 <= k < |rest| && rest[k] == last;
        assert s[k] == s[|s| - 1];
      } else if Distinct(rest) {
        forall i, j | 0 <= i < j < |s|
          ensures s[i] != s[j]
        {
          assert j < |rest| || s[i] == rest[i];
        }
      } else {
        var i, j :| 0 <= i < j < |rest| && rest[i] == rest[j];
        assert s[i] == s[j];
      }
    }
  }

  /** `len(set(values)) == len(values)`. */
  method Unique<T(==)>(values: seq<T>) returns (ok: bool)
    ensures ok <==> Distinct(values)
  {
    ElementsCount(values);
    return |set x | x in values| == |values|;
  }

  method UniqueKeys(entries: seq<Entry>) returns (ok: bool)
    ensures ok <==> DistinctKeys(entries)
  {
    var keys: set<string> := {};
    for i := 0 to |entries|
      invariant DistinctKeys(entries[..i])
      invariant forall key :: key in keys <==> exists k :: 0 <= k < i && entries[k].entryKey == key
    {
      if entries[i].entryKey in keys {
        return false;
      }
      keys := keys + {entries[i].entryKey};
    }
    assert entries[..|entries|] == entries;
    return true;
  }

  /** `validate_record`. */
  method CheckRecord(r: Record) returns (ok: bool)
    ensures ok <==> RecordOk(r)
  {
    hide Time.TimeOk, Distinct, DistinctKeys, RecordJson.ManifestDigest, FieldsOk;
    if Timed(r) {
      ok := Time.CheckTimestamp(r.recordedAt);
      if !ok {
        return;
      }
    }
    if !FieldsOk(r) {
      return false;
    }
    match r {
      case Version(_, _, _, parents, sources, captures, _, policies, _) =>
        ok := Unique(parents);
        if ok {
          ok := Unique(sources);
        }
        if ok {
          ok := Unique(captures);
        }
        if ok {
          ok := Unique(policies);
        }
      case Manifest(_, digest, entries) =>
        if entries == [] {
          return false;
        }
        ok := UniqueKeys(entries);
        ok := ok && digest == RecordJson.ManifestDigest(entries);
      case Receipt(_, imported, _) => ok := Unique(imported);
      case _ => return true;
    }
  }

  /** Checks every record by itself and that no identity is owned twice. */
  method CollectOwned(records: seq<Record>) returns (ok: bool, owned: RecordMap)
    ensures ok <==> UniqueIds(records) && forall r :: r in records ==> RecordOk(r)
    ensures ok ==> owned == Index(records)
  {
    hide *;
    owned := map[];
    NoneOwned(records);
    for i := 0 to |records|
      invariant UniqueIds(records[..i]) && owned == Index(records[..i])
      invariant forall k :: 0 <= k < i ==> RecordOk(records[k])
    {
      var r := records[i];
      assert r in records;
      var good := CheckRecord(r);
      if !good {
        return false, owned;
      }
      NextOwned(records, i);
      if r.id in owned {
        return false, owned;
      }
      owned := owned[r.id := r];
    }
    assert records[..|records|] == records;
    return true, owned;
  }

  lemma NoneOwned(records: seq<Record>)
    ensures UniqueIds(records[..0]) && Index(records[..0]) == map[]
  {
  }

  lemma NextOwned(records: seq<Record>, i: nat)
    requires i < |records| && UniqueIds(records[..i])
    ensures Index(records[..i + 1]) == Index(records[..i])[records[i].id := records[i]]
    ensures if records[i].id in Index(records[..i]) then !UniqueIds(records) else UniqueIds(records[..i + 1])
  {
    hide Index;
    assert records[..i + 1] == records[..i] + [records[i]];
    IndexMore(records[..i], records[i]);
    if records[i].id in Index(records[..i]) {
      var r :| r in records[..i] && r.id == records[i].id;
      var k :| 0 <= k < i && records[k] == r;
    } else {
      forall k | 0 <= k < i
        ensures records[k].id != records[i].id
      {
        assert records[k] in records[..i];
      }
    }
  }

  method UniqueOperations(operations: seq<Operation>) returns (ok: bool)
    ensures ok <==> UniqueTriples(operations)
  {
    var seen: set<Triple> := {};
    for i := 0 to |operations|
      invariant UniqueTriples(operations[..i])
      invariant forall t :: t in seen <==> exists k :: 0 <= k < i && operations[k].triple == t
    {
      if operations[i].triple in seen {
        return false;
      }
      seen := seen + {operations[i].triple};
    }
    assert operations[..|operations|] == operations;
    return true;
  }

  ghost predicate ParentsOk(db: RecordMap, r: Record)
    requires r.Version?
  {
    forall p :: p in r.parents ==> Resolves(db, p, VersionKind) && db[p].artifactId == r.artifactId
  }

  /** One more link from a version to a parent. */
  lemma AddLink(links: Parents, children: map<Id, seq<Id>>, c: Id, done: seq<Id>, p: Id)
    requires TurnsAround(links[c := done], children) && p !in done
    ensures TurnsAround(links[c := done + [p]], children[p := Children(children, p) + [c]])
  {
    var more := children[p := Children(children, p) + [c]];
    var g, g' := links[c := done], links[c := done + [p]];
    assert g[c] == done && g'[c] == done + [p];
    assert c !in Children(children, p);
    AppendNew(Children(children, p), c);
    forall v
      ensures Distinct(Children(more, v))
    {
      assert v != p ==> Children(more, v) == Children(children, v);
    }
    forall v, d
      ensures d in Children(more, v) <==> d in g' && v in g'[d]
    {
      assert d in Children(children, v) <==> d in g && v in g[d];
    }
  }

  method LinkParents(db: RecordMap, r: Record, before: map<Id, seq<Id>>, ghost links: Parents)
    returns (ok: bool, children: map<Id, seq<Id>>)
    requires r.Version? && Distinct(r.parents) && r.id !in links && TurnsAround(links, before)
    ensures ok <==> ParentsOk(db, r)
    ensures ok ==> TurnsAround(links[r.id := r.parents], children)
  {
    children := before;
    var ps := r.parents;
    for k := 0 to |ps|
      invariant TurnsAround(links[r.id := ps[..k]], children)
      invariant forall i :: 0 <= i < k ==> Resolves(db, ps[i], VersionKind) && db[ps[i]].artifactId == r.artifactId
    {
      var p := ps[k];
      assert p in ps;
      if !Resolves(db, p, VersionKind) || db[p].artifactId != r.artifactId {
        return false, children;
      }
      NotEarlier(ps, k);
      AddLink(links, children, r.id, ps[..k], p);
      assert ps[..k + 1] == ps[..k] + [p];
      children := children[p := Children(children, p) + [r.id]];
    }
    assert ps[..|ps|] == ps;
    return true, children;
  }

  /** The parent lists of the versions among these records. */
  ghost predicate LinksOf(links: Parents, db: RecordMap, records: seq<Record>) {
    && (forall r :: r in records && r.Version? ==> r.id in links)
    && (forall v :: v in links ==> v in db && db[v].Version? && db[v] in records && links[v] == db[v].parents)
  }

  ghost predicate VersionsOk(db: RecordMap, records: seq<Record>) {
    forall r :: r in records && r.Version? ==> RefsResolve(db, r)
  }

  ghost function RootsUsed(records: seq<Record>): set<Id> {
    set r | r in records && r.Version? :: r.contentRootRef
  }

  /** The state after the first `i` records have been looked at. */
  ghost predicate Resolved(db: RecordMap, records: seq<Record>, i: nat, links: Parents, usedRoots: set<Id>,
                           indegree: map<Id, int>, children: map<Id, seq<Id>>) {
    && i <= |records|
    && VersionsOk(db, records[..i])
    && usedRoots == RootsUsed(records[..i])
    && LinksOf(links, db, records[..i]) && TurnsAround(links, children)
    && Counts(links, indegree, {})
  }

  lemma SkipRecord(db: RecordMap, records: seq<Record>, i: nat, links: Parents, usedRoots: set<Id>,
                   indegree: map<Id, int>, children: map<Id, seq<Id>>)
    requires Resolved(db, records, i, links, usedRoots, indegree, children) && i < |records| && !records[i].Version?
    ensures Resolved(db, records, i + 1, links, usedRoots, indegree, children)
  {
    hide TurnsAround, Counts, RefsResolve;
    assert records[..i + 1] == records[..i] + [records[i]];
  }

  lemma AddVersion(db: RecordMap, records: seq<Record>, i: nat, links: Parents, usedRoots: set<Id>,
                   indegree: map<Id, int>, children: map<Id, seq<Id>>, linked: map<Id, seq<Id>>)
    requires Table(db, records) && Resolved(db, records, i, links, usedRoots, indegree, children)
    requires i < |records| && records[i].Version? && RefsResolve(db, records[i])
    requires TurnsAround(links[records[i].id := records[i].parents], linked)
    ensures var r := records[i];
            Resolved(db, records, i + 1, links[r.id := r.parents], usedRoots + {r.contentRootRef}, indegree[r.id := |r.parents|], linked)
  {
    hide TurnsAround, RefsResolve, RootsUsed, WellShaped;
    var r := records[i];
    assert records[..i + 1] == records[..i] + [r];
    assert r in records;
    UnvisitedNone(r.parents);
    MoreRoots(records, i);
  }

  lemma MoreRoots(records: seq<Record>, i: nat)
    requires i < |records|
    ensures RootsUsed(records[..i + 1]) == RootsUsed(records[..i]) + if records[i].Version? then {records[i].contentRootRef} else {}
  {
    assert records[..i + 1] == records[..i] + [records[i]];
  }

  lemma AllLinked(db: RecordMap, records: seq<Record>, links: Parents)
    requires Table(db, records) && LinksOf(links, db, records)
    ensures links == VersionParents(db)
  {
  }

  /** Resolves the references of every version and prepares the search for cycles. */
  method ResolveVersions(db: RecordMap, records: seq<Record>)
    returns (ok: bool, usedRoots: set<Id>, indegree: map<Id, int>, children: map<Id, seq<Id>>)
    requires Table(db, records) && WellShaped(db)
    ensures ok <==> VersionsOk(db, records)
    ensures ok ==> usedRoots == RootsUsed(records)
    ensures ok ==> TurnsAround(VersionParents(db), children) && Counts(VersionParents(db), indegree, {})
  {
    hide LinksOf, TurnsAround, Counts, VersionParents, RootsUsed;
    usedRoots, indegree, children := {}, map[], map[];
    ghost var links: Parents := map[];
    NothingResolved(db, records);
    for i := 0 to |records|
      invariant Resolved(db, records, i, links, usedRoots, indegree, children)
    {
      var r := records[i];
      assert r in records && r.id in db && db[r.id] == r && Shape(r);
      if !r.Version? {
        SkipRecord(db, records, i, links, usedRoots, indegree, children);
        continue;
      }
      if !Resolves(db, r.artifactId, ArtifactKind) || !Resolves(db, r.contentRootRef, ContentRootKind) {
        return false, usedRoots, indegree, children;
      }
      NewInTable(db, records, i, links);
      var parentsOk, linked := LinkParents(db, r, children, links);
      if !parentsOk {
        return false, usedRoots, indegree, children;
      }
      AddVersion(db, records, i, links, usedRoots, indegree, children, linked);
      usedRoots := usedRoots + {r.contentRootRef};
      indegree, children := indegree[r.id := |r.parents|], linked;
      links := links[r.id := r.parents];
    }
    assert records[..|records|] == records;
    AllLinked(db, records, links);
    return true, usedRoots, indegree, children;
  }

  lemma NothingResolved(db: RecordMap, records: seq<Record>)
    ensures Resolved(db, records, 0, map[], {}, map[], map[])
  {
  }

  lemma NewInTable(db: RecordMap, records: seq<Record>, i: nat, links: Parents)
    requires Table(db, records) && i < |records| && LinksOf(links, db, records[..i])
    ensures records[i].id !in links
  {
    forall v | v in links
      ensures v != records[i].id
    {
      var k :| 0 <= k < i && records[..i][k] == db[v];
      assert records[k].id == v;
    }
  }

  /** The versions without parents, in the order of the collection. */
  method Sources(records: seq<Record>, indegree: map<Id, int>, ghost db: RecordMap) returns (sources: seq<Id>)
    requires Table(db, records) && indegree.Keys == VersionParents(db).Keys
    ensures Distinct(sources) && forall v :: v in sources <==> v in indegree && indegree[v] == 0
  {
    sources := [];
    for i := 0 to |records|
      invariant Distinct(sources)
      invariant forall v :: v in sources <==> v in indegree && indegree[v] == 0 && exists k :: 0 <= k < i && records[k].id == v
    {
      var r := records[i];
      assert r in records;
      if r.Version? && indegree[r.id] == 0 {
        forall k | 0 <= k < i
          ensures records[k].id != r.id
        {
        }
        assert r.id !in sources;
        sources := sources + [r.id];
      }
    }
    forall v | v in indegree && indegree[v] == 0
      ensures v in sources
    {
      assert db[v] in records;
      var k :| 0 <= k < |records| && records[k] == db[v];
      assert records[k].id == v;
    }
  }

  // ---------- Unreachable content, as three sets of uses ----------

  ghost function ManifestsUsed(records: seq<Record>): set<Id> {
    set r | r in records && r.ContentRoot? && r.target.ManifestTarget? :: r.target.ref
  }

  ghost function BlobsOfRoots(records: seq<Record>): set<Id> {
    set r | r in records && r.ContentRoot? && r.target.BlobTarget? :: r.target.ref
  }

  function BlobsOfEntries(entries: seq<Entry>): set<Id> {
    set e | e in entries :: e.blobRef
  }

  ghost function BlobsOfManifests(records: seq<Record>): set<Id> {
    set r, b | r in records && r.Manifest? && b in BlobsOfEntries(r.entries) :: b
  }

  function IdsOf(records: seq<Record>, kind: Kind): set<Id> {
    set r | r in records && r.Kind() == kind :: r.id
  }

  ghost predicate KindResolves(db: RecordMap, records: seq<Record>, kind: Kind) {
    forall r :: r in records && r.Kind() == kind ==> RefsResolve(db, r)
  }

  method CollectTargets(db: RecordMap, records: seq<Record>) returns (ok: bool, usedManifests: set<Id>, usedBlobs: set<Id>)
    ensures ok <==> KindResolves(db, records, ContentRootKind)
    ensures ok ==> usedManifests == ManifestsUsed(records) && usedBlobs == BlobsOfRoots(records)
  {
    usedManifests, usedBlobs := {}, {};
    for i := 0 to |records|
      invariant KindResolves(db, records[..i], ContentRootKind)
      invariant usedManifests == ManifestsUsed(records[..i]) && usedBlobs == BlobsOfRoots(records[..i])
    {
      var r := records[i];
      assert r in records;
      assert records[..i + 1] == records[..i] + [r];
      if r.ContentRoot? {
        if !Resolves(db, r.target.ref, r.target.TargetKind()) {
          assert !RefsResolve(db, r);
          return false, usedManifests, usedBlobs;
        }
        if r.target.BlobTarget? {
          usedBlobs := usedBlobs + {r.target.ref};
        } else {
          usedManifests := usedManifests + {r.target.ref};
        }
      }
    }
    assert records[..|records|] == records;
    return true, usedManifests, usedBlobs;
  }

  method CollectEntries(db: RecordMap, entries: seq<Entry>) returns (ok: bool, blobs: set<Id>)
    ensures ok <==> forall e :: e in entries ==> Resolves(db, e.blobRef, BlobKind)
    ensures ok ==> blobs == BlobsOfEntries(entries)
  {
    blobs := {};
    for k := 0 to |entries|
      invariant forall e :: e in entries[..k] ==> Resolves(db, e.blobRef, BlobKind)
      invariant blobs == BlobsOfEntries(entries[..k])
    {
      var e := entries[k];
      assert e in entries;
      assert entries[..k + 1] == entries[..k] + [e];
      if !Resolves(db, e.blobRef, BlobKind) {
        return false, blobs;
      }
      blobs := blobs + {e.blobRef};
    }
    assert entries[..|entries|] == entries;
    return true, blobs;
  }

  method CollectManifests(db: RecordMap, records: seq<Record>) returns (ok: bool, usedBlobs: set<Id>)
    ensures ok <==> KindResolves(db, records, ManifestKind)
    ensures ok ==> usedBlobs == BlobsOfManifests(records)
  {
    usedBlobs := {};
    for i := 0 to |records|
      invariant KindResolves(db, records[..i], ManifestKind)
      invariant usedBlobs == BlobsOfManifests(records[..i])
    {
      var r := records[i];
      assert r in records;
      assert records[..i + 1] == records[..i] + [r];
      if r.Manifest? {
        var entriesOk, blobs := CollectEntries(db, r.entries);
        if !entriesOk {
          assert !RefsResolve(db, r);
          return false, usedBlobs;
        }
        usedBlobs := usedBlobs + blobs;
      }
    }
    assert records[..|records|] == records;
    return true, usedBlobs;
  }

  ghost predicate ContentResolves(db: RecordMap, records: seq<Record>) {
    VersionsOk(db, records) && KindResolves(db, records, ContentRootKind) && KindResolves(db, records, ManifestKind)
  }

  ghost predicate SetsAgree(records: seq<Record>) {
    && IdsOf(records, ContentRootKind) == RootsUsed(records)
    && IdsOf(records, ManifestKind) == ManifestsUsed(records)
    && IdsOf(records, BlobKind) == BlobsOfRoots(records) + BlobsOfManifests(records)
  }

  /** The identities named by a record that resolve as they should are content of that kind. */
  lemma UsedAreContent(db: RecordMap, records: seq<Record>)
    requires Table(db, records) && ContentResolves(db, records)
    ensures RootsUsed(records) <= IdsOf(records, ContentRootKind)
    ensures ManifestsUsed(records) <= IdsOf(records, ManifestKind)
    ensures BlobsOfRoots(records) + BlobsOfManifests(records) <= IdsOf(records, BlobKind)
  {
    forall id | id in RootsUsed(records)
      ensures id in IdsOf(records, ContentRootKind)
    {
      var r :| r in records && r.Version? && r.contentRootRef == id;
      assert RefsResolve(db, r) && db[id] in records;
    }
    forall id | id in ManifestsUsed(records)
      ensures id in IdsOf(records, ManifestKind)
    {
      var r :| r in records && r.ContentRoot? && r.target.ManifestTarget? && r.target.ref == id;
      assert RefsResolve(db, r) && db[id] in records;
    }
    forall id | id in BlobsOfRoots(records)
      ensures id in IdsOf(records, BlobKind)
    {
      var r :| r in records && r.ContentRoot? && r.target.BlobTarget? && r.target.ref == id;
      assert RefsResolve(db, r) && db[id] in records;
    }
    forall id | id in BlobsOfManifests(records)
      ensures id in IdsOf(records, BlobKind)
    {
      var r :| r in records && r.Manifest? && id in BlobsOfEntries(r.entries);
      var e :| e in r.entries && e.blobRef == id;
      assert RefsResolve(db, r) && db[id] in records;
    }
  }

  /** The user of a content record is found in the set for its kind. */
  lemma UserIsCounted(db: RecordMap, records: seq<Record>, id: Id)
    requires Table(db, records) && ContentResolves(db, records) && id in db
    requires Used(db, id)
    ensures db[id].ContentRoot? ==> id in RootsUsed(records)
    ensures db[id].Manifest? ==> id in ManifestsUsed(records)
    ensures db[id].Blob? ==> id in BlobsOfRoots(records) + BlobsOfManifests(records)
  {
    var u :| u in db && Uses(db[u], id);
    var r := db[u];
    assert r in records && RefsResolve(db, r);
    if r.Manifest? {
      var e :| e in r.entries && e.blobRef == id;
      assert id in BlobsOfEntries(r.entries);
    }
  }

  /** A content record in the set for its kind has a user. */
  lemma CountedIsUsed(db: RecordMap, records: seq<Record>, id: Id)
    requires Table(db, records) && id in db
    requires db[id].ContentRoot? ==> id in RootsUsed(records)
    requires db[id].Manifest? ==> id in ManifestsUsed(records)
    requires db[id].Blob? ==> id in BlobsOfRoots(records) + BlobsOfManifests(records)
    ensures IsContent(db[id]) ==> Used(db, id)
  {
    if db[id].ContentRoot? {
      var r :| r in records && r.Version? && r.contentRootRef == id;
      assert Uses(db[r.id], id);
    } else if db[id].Manifest? {
      var r :| r in records && r.ContentRoot? && r.target.ManifestTarget? && r.target.ref == id;
      assert Uses(db[r.id], id);
    } else if db[id].Blob? {
      if id in BlobsOfRoots(records) {
        var r :| r in records && r.ContentRoot? && r.target.BlobTarget? && r.target.ref == id;
        assert Uses(db[r.id], id);
      } else {
        var r :| r in records && r.Manifest? && id in BlobsOfEntries(r.entries);
        assert Uses(db[r.id], id);
      }
    }
  }

  /** The three set comparisons find exactly the content that nothing uses. */
  lemma SetsDecideUse(db: RecordMap, records: seq<Record>)
    requires Table(db, records) && ContentResolves(db, records)
    ensures SetsAgree(records) <==> AllUsed(db)
  {
    hide RootsUsed, ManifestsUsed, BlobsOfRoots, BlobsOfManifests, Used, VersionsOk, KindResolves, Uses, RefsResolve;
    UsedAreContent(db, records);
    if AllUsed(db) {
      forall id | id in db && IsContent(db[id])
        ensures db[id].ContentRoot? ==> id in RootsUsed(records)
        ensures db[id].Manifest? ==> id in ManifestsUsed(records)
        ensures db[id].Blob? ==> id in BlobsOfRoots(records) + BlobsOfManifests(records)
      {
        UserIsCounted(db, records, id);
      }
    }
    if SetsAgree(records) {
      forall id | id in db && IsContent(db[id])
        ensures Used(db, id)
      {
        assert db[id] in records && id in IdsOf(records, db[id].Kind());
        CountedIsUsed(db, records, id);
      }
    }
  }

  // ---------- The byte bound, links, receipts and results ----------

  method SumLengths(db: RecordMap, ids: set<Id>) returns (total: nat)
    ensures total == TotalLength(db, ids)
  {
    total := 0;
    var rest := ids;
    while rest != {}
      invariant rest <= ids
      invariant total + TotalLength(db, rest) == TotalLength(db, ids)
    {
      var id :| id in rest;
      TotalLengthRemove(db, rest, id);
      total := total + Length(db, id);
      rest := rest - {id};
    }
  }

  method BoundClosures(db: RecordMap, records: seq<Record>) returns (ok: bool)
    requires Table(db, records)
    ensures ok <==> ClosuresBounded(db)
  {
    for i := 0 to |records|
      invariant forall k :: 0 <= k < i && records[k].Version? ==> TotalLength(db, ClosureBlobs(db, records[k])) <= MAX_PAYLOAD
    {
      var r := records[i];
      assert r in records;
      if r.Version? {
        var total := SumLengths(db, ClosureBlobs(db, r));
        if total > MAX_PAYLOAD {
          assert db[r.id] == r;
          return false;
        }
      }
    }
    forall v | v in db && db[v].Version?
      ensures TotalLength(db, ClosureBlobs(db, db[v])) <= MAX_PAYLOAD
    {
      assert db[v] in records;
    }
    return true;
  }

  /** Checks the references of the records of one kind. */
  method CheckReferences(db: RecordMap, records: seq<Record>, kind: Kind) returns (ok: bool)
    ensures ok <==> KindResolves(db, records, kind)
  {
    for i := 0 to |records|
      invariant forall k :: 0 <= k < i && records[k].Kind() == kind ==> RefsResolve(db, records[k])
    {
      if records[i].Kind() == kind && !RefsResolve(db, records[i]) {
        assert records[i] in records;
        return false;
      }
    }
    return true;
  }

  /** `validate_record` of an operation. */
  method CheckOperation(o: Operation) returns (ok: bool)
    ensures ok <==> OperationShape(o)
  {
    ok := TripleOk(o.triple) && StableId(o.resultRef);
    if ok {
      ok := Time.CheckTimestamp(o.recordedAt);
    }
  }

  method CheckResults(db: RecordMap, operations: seq<Operation>) returns (ok: bool)
    requires UniqueTriples(operations)
    ensures ok <==> OperationsOk(db, OperationIndex(operations))
  {
    hide OperationShape, UniqueTriples;
    for i := 0 to |operations|
      invariant forall k :: 0 <= k < i ==> OperationOk(db, operations[k])
    {
      var o := operations[i];
      assert o in operations;
      OperationIndexAt(operations, o);
      var shaped := CheckOperation(o);
      if !shaped || !Resolves(db, o.resultRef, o.triple.kind.ResultKind()) {
        return false;
      }
    }
    return true;
  }

  ghost predicate AllKindsResolve(db: RecordMap, records: seq<Record>) {
    ContentResolves(db, records) && KindResolves(db, records, ProvenanceKind) && KindResolves(db, records, ReceiptKind)
  }

  lemma KindsCoverAll(db: RecordMap, records: seq<Record>)
    requires Table(db, records)
    ensures AllKindsResolve(db, records) <==> AllResolve(db)
  {
    if AllKindsResolve(db, records) {
      forall id | id in db
        ensures RefsResolve(db, db[id])
      {
        assert db[id] in records;
      }
    }
    if AllResolve(db) {
      forall r | r in records
        ensures RefsResolve(db, r)
      {
        assert db[r.id] == r;
      }
    }
  }

  lemma ShapesOfTable(db: RecordMap, records: seq<Record>)
    requires Table(db, records)
    ensures WellShaped(db) <==> forall r :: r in records ==> RecordOk(r)
  {
    if WellShaped(db) {
      forall r | r in records
        ensures RecordOk(r)
      {
        assert db[r.id] == r;
      }
    }
  }

  lemma VersionsWellFormed(db: RecordMap, records: seq<Record>)
    requires Table(db, records) && WellShaped(db) && VersionsOk(db, records)
    ensures WellFormed(VersionParents(db))
  {
    hide Shape, RefsResolve;
    var g := VersionParents(db);
    forall v | v in g
      ensures Distinct(g[v]) && forall p :: p in g[v] ==> p in g
    {
      assert db[v] in records && Shape(db[v]) && RefsResolve(db, db[v]);
      ParentsOfVersion(db, db[v]);
    }
  }

  lemma ParentsOfVersion(db: RecordMap, r: Record)
    requires r.Version? && Shape(r) && RefsResolve(db, r)
    ensures Distinct(r.parents) && forall p :: p in r.parents ==> p in db && db[p].Version?
  {
  }

  /** `validate_metadata`: accepts exactly the consistent documents. */
  method ValidateMetadata(d: Document) returns (ok: bool)
    ensures ok <==> ValidDocument(d)
  {
    hide *;
    var records := d.records;
    var shaped, db := CollectOwned(records);
    assert ValidDocument(d) ==> shaped by { ValidMeans(d); }
    if !shaped {
      return false;
    }
    IndexIsTable(records);
    ShapesOfTable(db, records);
    ValidMeans(d);
    KindsCoverAll(db, records);
    AllKindsMeans(db, records);
    ok := UniqueOperations(d.operations);
    if !ok {
      return;
    }
    var usedRoots, indegree, children;
    ok, usedRoots, indegree, children := ResolveVersions(db, records);
    if !ok {
      return;
    }
    CountsKeys(VersionParents(db), indegree);
    var sources := Sources(records, indegree, db);
    VersionsWellFormed(db, records);
    var visited := CountVisitedFifo(VersionParents(db), indegree, children, sources);
    if visited != |indegree| {
      return false;
    }
    var usedManifests, rootBlobs, entryBlobs;
    ok, usedManifests, rootBlobs := CollectTargets(db, records);
    if !ok {
      return;
    }
    ok, entryBlobs := CollectManifests(db, records);
    if !ok {
      return;
    }
    SetsDecideUse(db, records);
    SetsAgreeMeans(records);
    if IdsOf(records, ContentRootKind) != usedRoots || IdsOf(records, ManifestKind) != usedManifests
       || IdsOf(records, BlobKind) != rootBlobs + entryBlobs {
      return false;
    }
    ok := BoundClosures(db, records);
    if !ok {
      return;
    }
    ok := CheckReferences(db, records, ProvenanceKind);
    if !ok {
      return;
    }
    ok := CheckReferences(db, records, ReceiptKind);
    if !ok {
      return;
    }
    ok := CheckResults(db, d.operations);
  }

  lemma ValidMeans(d: Document)
    ensures ValidDocument(d) <==>
            && UniqueIds(d.records) && UniqueTriples(d.operations)
            && WellShaped(Index(d.records))
            && AllResolve(Index(d.records)) && !HasCycle(VersionParents(Index(d.records))) && AllUsed(Index(d.records))
            && ClosuresBounded(Index(d.records))
            && OperationsOk(Index(d.records), OperationIndex(d.operations))
    ensures ValidDocument(d) ==> forall r :: r in d.records ==> RecordOk(r)
  {
    if ValidDocument(d) {
      IndexIsTable(d.records);
      ShapesOfTable(Index(d.records), d.records);
    }
  }

  lemma AllKindsMeans(db: RecordMap, records: seq<Record>)
    ensures AllKindsResolve(db, records) <==>
            && VersionsOk(db, records) && KindResolves(db, records, ContentRootKind) && KindResolves(db, records, ManifestKind)
            && KindResolves(db, records, ProvenanceKind) && KindResolves(db, records, ReceiptKind)
    ensures ContentResolves(db, records) <==>
            VersionsOk(db, records) && KindResolves(db, records, ContentRootKind) && KindResolves(db, records, ManifestKind)
  {
  }

  lemma SetsAgreeMeans(records: seq<Record>)
    ensures SetsAgree(records) <==>
            && IdsOf(records, ContentRootKind) == RootsUsed(records)
            && IdsOf(records, ManifestKind) == ManifestsUsed(records)
            && IdsOf(records, BlobKind) == BlobsOfRoots(records) + BlobsOfManifests(records)
  {
  }

  lemma CountsKeys(g: Parents, indegree: map<Id, int>)
    requires Counts(g, indegree, {})
    ensures indegree.Keys == g.Keys && |indegree| == |g|
  {
    assert |indegree.Keys| == |g.Keys|;
  }
}
