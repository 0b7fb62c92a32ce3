/** What `execute` checks before it opens a transaction. */
module CallChecks {
  import opened Records
  import opened Validity
  import opened Validation
  import opened Requests
  import opened LedgerState
  import opened Replay

  lemma {:induction false} TotalSizePart(data: map<Id, Bytes>, part: set<Id>, ids: set<Id>)
    requires part <= ids <= data.Keys
    ensures TotalSize(data, part) <= TotalSize(data, ids)
    decreases |ids|
  {
    if ids - part == {} {
      assert part == ids;
    } else {
      var id :| id in ids - part;
      TotalSizeRemove(data, ids, id);
      TotalSizePart(data, part, ids - {id});
    }
  }

  /** The declared length of some blobs is the size of their bytes. */
  lemma {:induction false} LengthIsSize(db: RecordMap, data: map<Id, Bytes>, ids: set<Id>)
    requires ids <= data.Keys && forall id :: id in data ==> id in db && Matches(db[id], data[id])
    ensures TotalLength(db, ids) == TotalSize(data, ids)
    decreases |ids|
  {
    if ids != {} {
      var id :| id in ids;
      TotalLengthRemove(db, ids, id);
      TotalSizeRemove(data, ids, id);
      LengthIsSize(db, data, ids - {id});
    }
  }

  /** Each payload and their sum stay within the limits; the sum is refused as soon as it is too large. */
  method CheckSupplied(data: map<Id, Bytes>) returns (ok: bool)
    ensures ok <==> SuppliedBounded(data)
  {
    var todo, total := data.Keys, 0;
    ghost var seen: set<Id> := {};
    while todo != {}
      invariant seen == data.Keys - todo && todo <= data.Keys
      invariant total == TotalSize(data, seen) <= MAX_PAYLOAD
      invariant forall id :: id in seen ==> |data[id]| <= MAX_BLOB
    {
      var id :| id in todo;
      TotalSizeRemove(data, seen + {id}, id);
      assert seen + {id} - {id} == seen;
      TotalSizePart(data, seen + {id}, data.Keys);
      total := total + |data[id]|;
      if |data[id]| > MAX_BLOB || total > MAX_PAYLOAD {
        return false;
      }
      todo, seen := todo - {id}, seen + {id};
    }
    assert seen == data.Keys;
    return true;
  }

  /** A decoded bundle: valid metadata, and the right bytes for exactly its blobs. */
  method CheckBundle(bundle: Document, data: map<Id, Bytes>) returns (ok: bool)
    ensures ok <==> BundleOk(bundle, data)
  {
    hide ValidDocument, SuppliedBounded, BlobIds, Matches;
    ok := ValidateMetadata(bundle);
    if !ok {
      return;
    }
    var records := Index(bundle.records);
    if data.Keys != BlobIds(records) {
      return false;
    }
    BlobsAreIn(records);
    if !(forall id :: id in data ==> Matches(records[id], data[id])) {
      return false;
    }
    ok := CheckSupplied(data);
  }

  method CheckCall(call: Call) returns (ok: bool)
    ensures ok <==> CallOk(call)
  {
    hide SuppliedBounded, BundleOk, Matches;
    if !Shaped(call.request.body) || !NamesOk(call) {
      return false;
    }
    if call.claimed.Some? && call.claimed.value != call.fingerprint {
      return false;
    }
    match call.request.body
    case CreateBody(artifact) =>
      ok := Shape(artifact) && call.supplied == map[];
    case AppendBody(version, roots, blobs, manifests, links) =>
      if !(Shape(version) && AllShaped(roots) && AllShaped(blobs) && AllShaped(manifests) && AllShaped(links)) {
        return false;
      }
      if !(forall i :: 0 <= i < |links| ==> links[i].subject == version.id) {
        return false;
      }
      ok := CheckSupplied(call.supplied);
      var announced := Index(blobs);
      ok := ok && forall id :: id in call.supplied && id in announced ==> Matches(announced[id], call.supplied[id]);
    case ImportBody(_) =>
      ok := CheckBundle(call.bundle, call.supplied);
  }
}
