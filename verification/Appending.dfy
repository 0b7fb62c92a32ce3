/** Deciding an append against the stored state. */
module Appending {
  import opened Records
  import opened Validity
  import opened Validation
  import opened Requests
  import opened LedgerState
  import opened LedgerTheory
  import opened Store
  import opened Reading
  import opened Inserting

  lemma {:induction false} IndexConcat(a: seq<Record>, b: seq<Record>)
    ensures Index(a + b) == Index(a) + Index(b)
  {
    hide Index;
    if b == [] {
      NoneIndexed();
      assert a + b == a;
    } else {
      var n := |b| - 1;
      IndexConcat(a, b[..n]);
      IndexMore(a + b[..n], b[n]);
      IndexMore(b[..n], b[n]);
      assert a + b == a + b[..n] + [b[n]] && b == b[..n] + [b[n]];
      AddLast(Index(a), Index(b[..n]), b[n].id, b[n]);
    }
  }

  lemma {:induction false} OperationIndexConcat(a: seq<Operation>, b: seq<Operation>)
    ensures OperationIndex(a + b) == OperationIndex(a) + OperationIndex(b)
  {
    hide OperationIndex;
    if b == [] {
      NoneIndexed();
      assert a + b == a;
    } else {
      var n := |b| - 1;
      OperationIndexConcat(a, b[..n]);
      OperationIndexMore(a + b[..n], b[n]);
      OperationIndexMore(b[..n], b[n]);
      assert a + b == a + b[..n] + [b[n]] && b == b[..n] + [b[n]];
      AddLast(OperationIndex(a), OperationIndex(b[..n]), b[n].triple, b[n]);
    }
  }

  /** Adding new rows to the stored document gives the document of the combined tables. */
  lemma CombinedDocument(d: Document, db: Db, additions: seq<Record>, history: seq<Operation>)
    requires Describes(d, db)
    requires UniqueIds(additions) && AllFresh(db, additions)
    requires UniqueTriples(history) && forall o :: o in history ==> o.triple !in db.operations
    ensures var combined := Document(d.records + additions, d.operations + history);
            && UniqueIds(combined.records) && UniqueTriples(combined.operations)
            && Index(combined.records) == db.records + Index(additions)
            && OperationIndex(combined.operations) == db.operations + OperationIndex(history)
  {
    IndexConcat(d.records, additions);
    OperationIndexConcat(d.operations, history);
    var records, operations := d.records + additions, d.operations + history;
    forall i, j | 0 <= i < j < |records|
      ensures records[i].id != records[j].id
    {
      if i < |d.records| <= j {
        assert d.records[i] in d.records && additions[j - |d.records|] in additions;
        assert d.records[i].id in db.records;
      }
    }
    forall i, j | 0 <= i < j < |operations|
      ensures operations[i].triple != operations[j].triple
    {
      if i < |d.operations| <= j {
        assert d.operations[i] in d.operations && history[j - |d.operations|] in history;
        assert d.operations[i].triple in db.operations;
      }
    }
  }

  lemma {:induction false} FreshPrefix(db: Db, records: seq<Record>, i: nat)
    requires i < |records|
    ensures Fresh(db, records[..i + 1]) == Fresh(db, records[..i]) + if records[i].id in db.records then [] else [records[i]]
  {
    var s := records[..i + 1];
    assert s[..|s| - 1] == records[..i] && s[|s| - 1] == records[i];
  }

  /** The announced records that are new; refused if one is repeated or differs from what is stored. */
  method Accept(db: Db, announced: seq<Record>) returns (ok: bool, accepted: seq<Record>)
    ensures ok <==> UniqueIds(announced) && forall r :: r in announced ==> Reusable(db, r)
    ensures ok ==> accepted == Fresh(db, announced)
  {
    hide Fresh, Reusable;
    accepted := [];
    var seen: set<Id> := {};
    NothingFresh(db);
    for i := 0 to |announced|
      invariant UniqueIds(announced[..i])
      invariant forall id :: id in seen <==> exists k :: 0 <= k < i && announced[k].id == id
      invariant forall k :: 0 <= k < i ==> Reusable(db, announced[k])
      invariant accepted == Fresh(db, announced[..i])
    {
      var r := announced[i];
      if r.id in seen {
        return false, accepted;
      }
      seen := seen + {r.id};
      if !Reusable(db, r) {
        return false, accepted;
      }
      FreshPrefix(db, announced, i);
      if r.id !in db.records {
        accepted := accepted + [r];
      }
    }
    assert announced[..|announced|] == announced;
    return true, accepted;
  }

  lemma NothingFresh(db: Db)
    ensures Fresh(db, []) == []
  {
  }

  // ---------- The bytes of the closure ----------

  /** Part of the closure has been looked at. */
  ghost predicate Collected(db: Db, combined: RecordMap, supplied: map<Id, Bytes>, seen: set<Id>, payloads: map<Id, Bytes>) {
    && (forall ref :: ref in seen ==> BytesAvailable(db, combined, supplied, ref))
    && payloads == map id | id in seen && id in supplied && id !in db.records :: supplied[id]
  }

  lemma CollectedMore(db: Db, combined: RecordMap, supplied: map<Id, Bytes>, seen: set<Id>, payloads: map<Id, Bytes>, ref: Id)
    requires Collected(db, combined, supplied, seen, payloads) && BytesAvailable(db, combined, supplied, ref)
    ensures Collected(db, combined, supplied, seen + {ref},
                      if ref in db.records then payloads else payloads[ref := supplied[ref]])
  {
    hide BytesAvailable;
    AvailableMeans(db, combined, supplied, ref);
  }

  lemma AvailableMeans(db: Db, combined: RecordMap, supplied: map<Id, Bytes>, ref: Id)
    requires BytesAvailable(db, combined, supplied, ref)
    ensures ref in db.records || ref in supplied
  {
  }

  /** Compares supplied bytes, reads known ones and collects new ones. */
  method CollectBytes(store: Handle, db: Db, combined: RecordMap, supplied: map<Id, Bytes>, refs: set<Id>)
    returns (ok: bool, payloads: map<Id, Bytes>)
    requires store.inTransaction && store.pending == db && supplied.Keys <= refs
    modifies store
    ensures OnlyReads(store, ok)
    ensures ok ==> (forall ref :: ref in refs ==> BytesAvailable(db, combined, supplied, ref))
    ensures ok ==> payloads == NewPayloads(db, supplied)
    ensures old(store.Faultless()) && (forall ref :: ref in refs ==> BytesAvailable(db, combined, supplied, ref)) ==> ok
  {
    hide Matches, Collected;
    payloads := map[];
    var todo := refs;
    ghost var seen: set<Id> := {};
    assert Collected(db, combined, supplied, {}, map[]) by { NothingCollected(db, combined, supplied); }
    while todo != {}
      invariant OnlyReads(store, true)
      invariant todo <= refs && seen == refs - todo
      invariant Collected(db, combined, supplied, seen, payloads)
    {
      var ref :| ref in todo;
      if ref in supplied && !(ref in combined && Matches(combined[ref], supplied[ref])) {
        assert !BytesAvailable(db, combined, supplied, ref);
        return false, payloads;
      }
      if ref in db.records {
        assert BytesAvailable(db, combined, supplied, ref) ==> BlobIntact(db, ref);
        ok := BlobReads(store, db, ref);
        if !ok {
          return;
        }
      } else if ref !in supplied {
        assert !BytesAvailable(db, combined, supplied, ref);
        return false, payloads;
      }
      CollectedMore(db, combined, supplied, seen, payloads, ref);
      if ref !in db.records {
        payloads := payloads[ref := supplied[ref]];
      }
      todo, seen := todo - {ref}, seen + {ref};
    }
    assert seen == refs;
    CollectedAll(db, combined, supplied, refs, payloads);
    return true, payloads;
  }

  lemma NothingCollected(db: Db, combined: RecordMap, supplied: map<Id, Bytes>)
    ensures Collected(db, combined, supplied, {}, map[])
  {
  }

  lemma CollectedAll(db: Db, combined: RecordMap, supplied: map<Id, Bytes>, refs: set<Id>, payloads: map<Id, Bytes>)
    requires Collected(db, combined, supplied, refs, payloads) && supplied.Keys <= refs
    ensures forall ref :: ref in refs ==> BytesAvailable(db, combined, supplied, ref)
    ensures payloads == NewPayloads(db, supplied)
  {
    hide BytesAvailable;
  }

  // ---------- The decision ----------

  /** The content announced with a version belongs to it, and its closure is not too large. */
  ghost predicate BelongsTo(db: Db, call: Call)
    requires call.request.body.AppendBody? && Shaped(call.request.body)
  {
    var b := call.request.body;
    var combined := AppendRecords(db, call);
    var refs := AppendRefs(db, call);
    && (forall r :: r in b.roots ==> r.id == b.version.contentRootRef)
    && (forall r :: r in b.manifests ==> RootTargets(combined, b.version.contentRootRef, r.id))
    && (forall r :: r in b.blobs ==> r.id in refs)
    && call.supplied.Keys <= refs
    && TotalLength(combined, refs) <= MAX_PAYLOAD
  }

  /** Every announced link is about the new version. */
  predicate LinksOwn(call: Call)
    requires call.request.body.AppendBody? && Shaped(call.request.body)
  {
    forall i :: 0 <= i < |call.request.body.links| ==> call.request.body.links[i].subject == call.request.body.version.id
  }

  lemma AllowedFromParts(db: Db, call: Call, d: Document, combined: Document)
    requires call.request.body.AppendBody? && Shaped(call.request.body)
    requires Describes(d, db)
    requires combined == Document(d.records + Fresh(db, Announced(call)), d.operations)
    requires UniqueIds(Announced(call))
    ensures Index(combined.records) == AppendRecords(db, call)
    ensures AppendAllowed(db, call) <==>
            && Resolves(db.records, call.request.body.version.artifactId, ArtifactKind)
            && LinksOwn(call)
            && (forall r :: r in Announced(call) ==> Reusable(db, r))
            && ValidDocument(combined) && BelongsTo(db, call)
            && (forall ref :: ref in AppendRefs(db, call) ==> BytesAvailable(db, AppendRecords(db, call), call.supplied, ref))
  {
    hide Valid, Shaped, Announced, Matches, Fresh, Index, OperationIndex, ClosureBlobs, Resolves, RootTargets, Reusable, BytesAvailable,
         UniqueIds, UniqueTriples, OperationsOk;
    FreshUnique(db, Announced(call));
    NoTriples();
    CombinedDocument(d, db, Fresh(db, Announced(call)), []);
    assert d.operations + [] == d.operations;
  }

  lemma NoTriples()
    ensures UniqueTriples([])
  {
  }

  /** The plan of an append, or a refusal. */
  method Append(store: Handle, db: Db, d: Document, call: Call) returns (plan: Option<Plan>)
    requires call.request.body.AppendBody? && Shaped(call.request.body)
    requires store.inTransaction && store.pending == db && Describes(d, db)
    modifies store
    ensures OnlyReads(store, plan.Some?)
    ensures plan.Some? ==> plan == AppendPlan(db, call)
    ensures old(store.Faultless()) ==> plan == AppendPlan(db, call)
  {
    hide Valid, ValidDocument, Matches, Fresh, Index, ClosureBlobs, Reusable, BytesAvailable, UniqueIds, AppendAllowed, Describes,
         Announced, NewPayloads, AppendRecords, AppendRefs;
    var b := call.request.body;
    var version := Stamped(b.version, call.now);
    AllowedMeans(db, call);
    if !Resolves(db.records, b.version.artifactId, ArtifactKind) {
      return None;
    }
    if !LinksOwn(call) {
      return None;
    }
    var ok, accepted := Accept(db, Announced(call));
    if !ok {
      return None;
    }
    var combined := Document(d.records + accepted, d.operations);
    AllowedFromParts(db, call, d, combined);
    ok := ValidateMetadata(combined);
    if !ok {
      return None;
    }
    var all := Index(combined.records);
    var refs := ClosureBlobs(all, version);
    AppendRefsAre(db, call);
    if !(forall r :: r in b.roots ==> r.id == b.version.contentRootRef) {
      return None;
    }
    if !(forall r :: r in b.manifests ==> RootTargets(all, b.version.contentRootRef, r.id)) {
      return None;
    }
    if !(forall r :: r in b.blobs ==> r.id in refs) || !(call.supplied.Keys <= refs) {
      return None;
    }
    var total := SumLengths(all, refs);
    if total > MAX_PAYLOAD {
      return None;
    }
    var payloads;
    ok, payloads := CollectBytes(store, db, all, call.supplied, refs);
    if !ok {
      return None;
    }
    return Some(Plan(accepted, payloads, [], b.version.id));
  }

  lemma AllowedMeans(db: Db, call: Call)
    requires call.request.body.AppendBody? && Shaped(call.request.body)
    ensures AppendAllowed(db, call) ==>
            && Resolves(db.records, call.request.body.version.artifactId, ArtifactKind)
            && LinksOwn(call)
            && UniqueIds(Announced(call)) && (forall r :: r in Announced(call) ==> Reusable(db, r))
  {
    hide Valid, Matches, Fresh, ClosureBlobs;
  }

  lemma AppendRefsAre(db: Db, call: Call)
    requires call.request.body.AppendBody? && Shaped(call.request.body)
    ensures AppendRefs(db, call) == ClosureBlobs(AppendRecords(db, call), Stamped(call.request.body.version, call.now))
  {
  }
}
