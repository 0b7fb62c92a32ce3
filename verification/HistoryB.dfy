/** Implementation B's complete histories, two sorted lists for an artifact, and its conflict checks. */
module HistoryB {
  import opened Records
  import opened Validity
  import opened LedgerState
  import opened Importing
  import opened Export
  import opened IdOrder
  import opened Packing
  import Order

  datatype Lists = Lists(versions: seq<Record>, links: seq<Record>)

  /** Records stored under their own identities. */
  predicate Keyed(objects: RecordMap) { forall id :: id in objects ==> objects[id].id == id }

  predicate IsVersionOf(objects: RecordMap, id: Id, artifact: Id) {
    id in objects && objects[id].Version? && objects[id].artifactId == artifact
  }

  predicate IsLinkOf(objects: RecordMap, id: Id, versions: set<Id>) {
    id in objects && objects[id].Provenance? && objects[id].subject in versions
  }

  function VersionsIn(objects: RecordMap, ids: seq<Id>, artifact: Id): (rs: seq<Record>)
    ensures forall r :: r in rs <==> exists id :: id in ids && IsVersionOf(objects, id, artifact) && objects[id] == r
  {
    if ids == [] then []
    else
      var n := |ids| - 1;
      assert ids == ids[..n] + [ids[n]];
      VersionsIn(objects, ids[..n], artifact) + if IsVersionOf(objects, ids[n], artifact) then [objects[ids[n]]] else []
  }

  function LinksIn(objects: RecordMap, ids: seq<Id>, versions: set<Id>): (rs: seq<Record>)
    ensures forall r :: r in rs <==> exists id :: id in ids && IsLinkOf(objects, id, versions) && objects[id] == r
  {
    if ids == [] then []
    else
      var n := |ids| - 1;
      assert ids == ids[..n] + [ids[n]];
      LinksIn(objects, ids[..n], versions) + if IsLinkOf(objects, ids[n], versions) then [objects[ids[n]]] else []
  }

  function IdsOfRecords(rs: seq<Record>): set<Id> { set r | r in rs :: r.id }

  /** The lists of an artifact over ascending identities. */
  ghost function ListsOf(objects: RecordMap, artifact: Id): Lists {
    var ids := AscendingIds(objects.Keys);
    var versions := VersionsIn(objects, ids, artifact);
    Lists(versions, LinksIn(objects, ids, IdsOfRecords(versions)))
  }

  /** `_history`. */
  method History(objects: RecordMap, artifact: Id) returns (lists: Lists)
    ensures lists == ListsOf(objects, artifact)
  {
    hide VersionsIn, LinksIn, AscendingIds, IsVersionOf, IsLinkOf;
    var ids := ListIds(objects.Keys);
    var versions: seq<Record>, links: seq<Record> := [], [];
    NothingListed(objects, artifact, {});
    for i := 0 to |ids|
      invariant versions == VersionsIn(objects, ids[..i], artifact)
    {
      NextListed(objects, ids, i, artifact, {});
      if IsVersionOf(objects, ids[i], artifact) {
        versions := versions + [objects[ids[i]]];
      }
    }
    assert ids[..|ids|] == ids;
    var own := IdsOfRecords(versions);
    NothingListed(objects, artifact, own);
    for i := 0 to |ids|
      invariant links == LinksIn(objects, ids[..i], own)
    {
      NextListed(objects, ids, i, artifact, own);
      if IsLinkOf(objects, ids[i], own) {
        links := links + [objects[ids[i]]];
      }
    }
    return Lists(versions, links);
  }

  lemma NothingListed(objects: RecordMap, artifact: Id, versions: set<Id>)
    ensures VersionsIn(objects, [], artifact) == [] && LinksIn(objects, [], versions) == []
  {
  }

  lemma NextListed(objects: RecordMap, ids: seq<Id>, i: nat, artifact: Id, versions: set<Id>)
    requires i < |ids|
    ensures VersionsIn(objects, ids[..i + 1], artifact)
            == VersionsIn(objects, ids[..i], artifact) + if IsVersionOf(objects, ids[i], artifact) then [objects[ids[i]]] else []
    ensures LinksIn(objects, ids[..i + 1], versions)
            == LinksIn(objects, ids[..i], versions) + if IsLinkOf(objects, ids[i], versions) then [objects[ids[i]]] else []
    ensures IsVersionOf(objects, ids[i], artifact) || IsLinkOf(objects, ids[i], versions) ==> ids[i] in objects
  {
    assert ids[..i + 1][..i] == ids[..i];
  }

  // ---------- Lists in ascending order ----------

  lemma AscendingPrefix(ids: seq<Id>, n: nat)
    requires Order.Ascending(IdKey, ids) && n <= |ids|
    ensures Order.Ascending(IdKey, ids[..n])
  {
  }

  /** Adding the record of a later identity keeps a list ascending. */
  lemma AscendingMore(rs: seq<Record>, r: Record)
    requires Order.Ascending(RecordKey, rs) && forall s :: s in rs ==> Order.KeyLess(RecordKey(s), RecordKey(r))
    ensures Order.Ascending(RecordKey, rs + [r])
  {
    hide Order.KeyLess;
    var all := rs + [r];
    forall i, j | 0 <= i < j < |all|
      ensures Order.KeyLess(RecordKey(all[i]), RecordKey(all[j]))
    {
      assert i < |rs| && rs[i] in rs;
    }
  }

  lemma SameKeys(r: Record)
    ensures RecordKey(r) == IdKey(r.id)
  {
  }

  /** Records that come from earlier identities stand before the next one. */
  lemma EarlierKeys(objects: RecordMap, ids: seq<Id>, rs: seq<Record>)
    requires Keyed(objects) && Order.Ascending(IdKey, ids) && ids != [] && ids[|ids| - 1] in objects
    requires forall r :: r in rs ==> exists id :: id in ids[..|ids| - 1] && id in objects && objects[id] == r
    ensures forall r :: r in rs ==> Order.KeyLess(RecordKey(r), RecordKey(objects[ids[|ids| - 1]]))
  {
    hide Order.KeyLess, RecordKey, IdKey;
    var n := |ids| - 1;
    forall r | r in rs
      ensures Order.KeyLess(RecordKey(r), RecordKey(objects[ids[n]]))
    {
      var id :| id in ids[..n] && id in objects && objects[id] == r;
      var i :| 0 <= i < n && ids[i] == id;
      SameKeys(r);
      SameKeys(objects[ids[n]]);
    }
  }

  lemma {:induction false} VersionsAscend(objects: RecordMap, ids: seq<Id>, artifact: Id)
    requires Keyed(objects) && Order.Ascending(IdKey, ids)
    ensures Order.Ascending(RecordKey, VersionsIn(objects, ids, artifact))
  {
    hide Order.KeyLess, RecordKey, IdKey;
    if ids != [] {
      var n := |ids| - 1;
      AscendingPrefix(ids, n);
      VersionsAscend(objects, ids[..n], artifact);
      if IsVersionOf(objects, ids[n], artifact) {
        EarlierKeys(objects, ids, VersionsIn(objects, ids[..n], artifact));
        AscendingMore(VersionsIn(objects, ids[..n], artifact), objects[ids[n]]);
      }
    }
  }

  lemma {:induction false} LinksAscend(objects: RecordMap, ids: seq<Id>, versions: set<Id>)
    requires Keyed(objects) && Order.Ascending(IdKey, ids)
    ensures Order.Ascending(RecordKey, LinksIn(objects, ids, versions))
  {
    hide Order.KeyLess, RecordKey, IdKey;
    if ids != [] {
      var n := |ids| - 1;
      AscendingPrefix(ids, n);
      LinksAscend(objects, ids[..n], versions);
      if IsLinkOf(objects, ids[n], versions) {
        EarlierKeys(objects, ids, LinksIn(objects, ids[..n], versions));
        AscendingMore(LinksIn(objects, ids[..n], versions), objects[ids[n]]);
      }
    }
  }

  // ---------- Lists and maps say the same ----------

  /** What the lists hold, without their order. */
  lemma ListsHold(objects: RecordMap, artifact: Id)
    requires Keyed(objects)
    ensures var l, h := ListsOf(objects, artifact), HistoryOf(objects, artifact);
            && Order.Ascending(RecordKey, l.versions) && Order.Ascending(RecordKey, l.links)
            && (forall r :: r in l.versions <==> r.id in h.versions && h.versions[r.id] == r)
            && (forall r :: r in l.links <==> r.id in h.provenance && h.provenance[r.id] == r)
            && (forall id :: id in h.versions ==> h.versions[id].id == id)
            && (forall id :: id in h.provenance ==> h.provenance[id].id == id)
  {
    hide Order.KeyLess, RecordKey, IdKey, VersionsIn, LinksIn;
    var ids := AscendingIds(objects.Keys);
    SortIdsAscends(Enumerate(objects.Keys));
    var l, h := ListsOf(objects, artifact), HistoryOf(objects, artifact);
    VersionsAscend(objects, ids, artifact);
    LinksAscend(objects, ids, IdsOfRecords(l.versions));
    forall r
      ensures r in l.versions <==> r.id in h.versions && h.versions[r.id] == r
    {
      if r.id in h.versions && h.versions[r.id] == r {
        assert r.id in ids && IsVersionOf(objects, r.id, artifact);
      }
    }
    assert IdsOfRecords(l.versions) == h.versions.Keys by {
      forall id | id in h.versions
        ensures id in IdsOfRecords(l.versions)
      {
        assert h.versions[id] in l.versions;
      }
    }
    forall r
      ensures r in l.links <==> r.id in h.provenance && h.provenance[r.id] == r
    {
      if r.id in h.provenance && h.provenance[r.id] == r {
        assert r.id in ids && IsLinkOf(objects, r.id, h.versions.Keys);
      }
    }
  }

  lemma MapsEqual(a: RecordMap, b: RecordMap, x: seq<Record>, y: seq<Record>)
    requires forall r :: r in x <==> r.id in a && a[r.id] == r
    requires forall r :: r in y <==> r.id in b && b[r.id] == r
    requires (forall id :: id in a ==> a[id].id == id) && forall id :: id in b ==> b[id].id == id
    ensures (forall r :: r in x <==> r in y) <==> a == b
  {
    if forall r :: r in x <==> r in y {
      forall id | id in a
        ensures id in b && b[id] == a[id]
      {
        assert a[id] in x;
      }
      forall id | id in b
        ensures id in a
      {
        assert b[id] in y;
      }
    }
  }

  /** B's sorted lists of two ledgers are equal exactly if the complete histories are. */
  lemma ListsDecide(a: RecordMap, b: RecordMap, artifact: Id)
    requires Keyed(a) && Keyed(b)
    ensures ListsOf(a, artifact) == ListsOf(b, artifact) <==> HistoryOf(a, artifact) == HistoryOf(b, artifact)
  {
    hide ListsOf, HistoryOf, Order.Ascending, RecordKey, Keyed;
    ListsHold(a, artifact);
    ListsHold(b, artifact);
    var x, y := ListsOf(a, artifact), ListsOf(b, artifact);
    var g, h := HistoryOf(a, artifact), HistoryOf(b, artifact);
    MapsEqual(g.versions, h.versions, x.versions, y.versions);
    MapsEqual(g.provenance, h.provenance, x.links, y.links);
    if g == h {
      Order.AscendingUnique(RecordKey, x.versions, y.versions);
      Order.AscendingUnique(RecordKey, x.links, y.links);
    }
  }

  // ---------- The conflict checks of an import ----------

  /** The loop over everything that comes in: it converges with what is stored, repeated artifacts have
      the same complete history, and the bytes of repeated blobs are intact. */
  method ConvergeIncoming(db: Db, bundle: Document) returns (ok: bool)
    requires UniqueIds(bundle.records) && Keyed(db.records)
    ensures ok <==>
            && RecordsAgree(db, Index(bundle.records)) && HistoriesAgree(db, Index(bundle.records))
            && forall id :: id in BlobIds(Index(bundle.records)) && id in db.records ==> BlobIntact(db, id)
  {
    hide Index, UniqueIds, ListsOf, HistoryOf, Keyed, BlobIntact;
    var incoming := Index(bundle.records);
    IndexIsKeyed(bundle.records);
    for i := 0 to |bundle.records|
      invariant forall k :: 0 <= k < i ==> Converged(db, incoming, bundle.records[k])
    {
      var r := bundle.records[i];
      IndexAt(bundle.records, r);
      if r.id in db.records {
        if db.records[r.id] != r {
          return false;
        }
        if r.Artifact? {
          ListsDecide(db.records, incoming, r.id);
          var stored := History(db.records, r.id);
          var brought := History(incoming, r.id);
          if stored != brought {
            return false;
          }
        }
        if r.Blob? && !BlobIntact(db, r.id) {
          return false;
        }
      }
    }
    forall id | id in incoming
      ensures Converged(db, incoming, incoming[id])
    {
      assert incoming[id] in bundle.records;
    }
    return true;
  }

  ghost predicate Converged(db: Db, incoming: RecordMap, r: Record) {
    r.id in db.records ==>
      && db.records[r.id] == r
      && (r.Artifact? ==> HistoryOf(db.records, r.id) == HistoryOf(incoming, r.id))
      && (r.Blob? ==> BlobIntact(db, r.id))
  }

  lemma IndexIsKeyed(records: seq<Record>)
    ensures Keyed(Index(records))
  {
  }

  /** The historical operations: none claims the key of this import, and those that are stored are the same. */
  method OperationsConverge(db: Db, operations: seq<Operation>, own: Triple) returns (ok: bool)
    requires UniqueTriples(operations)
    ensures ok <==> OperationsAgree(db, operations, own)
  {
    hide OperationIndex, UniqueTriples;
    var incoming := OperationIndex(operations);
    if own in incoming {
      return false;
    }
    for i := 0 to |operations|
      invariant forall k :: 0 <= k < i && operations[k].triple in db.operations ==> db.operations[operations[k].triple] == operations[k]
    {
      var o := operations[i];
      if o.triple in db.operations && db.operations[o.triple] != o {
        assert o in operations;
        return false;
      }
    }
    forall o | o in operations
      ensures o.triple != own
    {
      OperationIndexAt(operations, o);
    }
    return true;
  }

  /** The operations that are inserted. */
  method OperationsNotStored(db: Db, operations: seq<Operation>) returns (rows: seq<Operation>)
    ensures rows == FreshOperations(db, operations)
  {
    hide FreshOperations;
    rows := [];
    NoFreshOperations(db);
    for i := 0 to |operations|
      invariant rows == FreshOperations(db, operations[..i])
    {
      FreshOperationsPrefix(db, operations, i);
      if operations[i].triple !in db.operations {
        rows := rows + [operations[i]];
      }
    }
    assert operations[..|operations|] == operations;
  }
}
