/** The order in which a bundle lists what it carries. */
module ExportOrder {
  import opened Records
  import opened Canonical
  import opened RecordJson
  import opened Export
  import opened Portable
  import IdOrder
  import Order

  /** Operations are listed by scope, then by kind, then by key. */
  predicate ListedBefore(s: Triple, t: Triple) {
    || Less(s.scope.text, t.scope.text)
    || (s.scope.text == t.scope.text && Less(OperationKindText(s.kind), OperationKindText(t.kind)))
    || (s.scope.text == t.scope.text && s.kind == t.kind && Less(s.key.text, t.key.text))
  }

  lemma OneTextKey(a: string, b: string)
    ensures Order.KeyLess([a], [b]) <==> Less(a, b)
  {
    hide Less;
    assert [a][1..] == [] && [b][1..] == [];
  }

  lemma ThreeTextKeys(a: string, b: string, c: string, x: string, y: string, z: string)
    ensures Order.KeyLess([a, b, c], [x, y, z]) <==> Less(a, x) || (a == x && (Less(b, y) || (b == y && Less(c, z))))
  {
    hide Less;
    assert [a, b, c][1..] == [b, c] && [x, y, z][1..] == [y, z];
    assert [b, c][1..] == [c] && [y, z][1..] == [z];
    OneTextKey(c, z);
  }

  lemma KindsByText(k: OperationKind, l: OperationKind)
    ensures OperationKindText(k) == OperationKindText(l) <==> k == l
  {
  }

  /** The operations of an exported document stand in this order. */
  lemma OperationsListed(d: Document)
    requires UniqueIds(d.records) && UniqueTriples(d.operations)
    ensures var os := Ordered(d).operations;
            && (forall o :: o in os <==> o in d.operations) && |os| == |d.operations|
            && forall i, j :: 0 <= i < j < |os| ==> ListedBefore(os[i].triple, os[j].triple)
  {
    hide Less, OperationKindText, Order.KeyLess, Order.Sort, UniqueIds, UniqueTriples;
    OrderedAscends(d);
    var os := Ordered(d).operations;
    forall i, j | 0 <= i < j < |os|
      ensures ListedBefore(os[i].triple, os[j].triple)
    {
      var s, t := os[i].triple, os[j].triple;
      ThreeTextKeys(s.scope.text, OperationKindText(s.kind), s.key.text, t.scope.text, OperationKindText(t.kind), t.key.text);
      KindsByText(s.kind, t.kind);
    }
  }

  /** The records of each kind stand in the order of their identities. */
  lemma RecordsListed(d: Document, kind: Kind)
    requires UniqueIds(d.records) && UniqueTriples(d.operations)
    ensures var rs := Collection(Ordered(d).records, kind);
            && (forall r :: r in rs <==> r in d.records && r.Kind() == kind)
            && forall i, j :: 0 <= i < j < |rs| ==> Less(rs[i].id.text, rs[j].id.text)
  {
    hide Less, Order.KeyLess, Order.Sort, UniqueIds, UniqueTriples;
    OrderedAscends(d);
    CollectionAscends(Ordered(d).records, kind);
  }

  lemma {:induction false} CollectionAscends(records: seq<Record>, kind: Kind)
    requires Order.Ascending(RecordKey, records)
    ensures var rs := Collection(records, kind);
            && (forall r :: r in rs <==> r in records && r.Kind() == kind)
            && forall i, j :: 0 <= i < j < |rs| ==> Less(rs[i].id.text, rs[j].id.text)
  {
    hide Less, Order.KeyLess;
    if records != [] {
      Order.RestOfAscending(RecordKey, records);
      CollectionAscends(records[1..], kind);
      var rest := Collection(records[1..], kind);
      forall j | 0 <= j < |rest|
        ensures Less(records[0].id.text, rest[j].id.text)
      {
        assert rest[j] in records[1..];
        var k :| 0 <= k < |records[1..]| && records[1..][k] == rest[j];
        assert records[k + 1] == rest[j];
        OneTextKey(records[0].id.text, rest[j].id.text);
      }
    }
  }

  /** The payload entries stand in the order of their blobs. */
  lemma PayloadsListed(payloads: map<Id, Bytes>)
    ensures var es := EntriesOf(AscendingIds(payloads.Keys), payloads);
            && (forall id :: id in payloads <==> exists e :: e in es && e.ref == id)
            && forall i, j :: 0 <= i < j < |es| ==> Less(es[i].ref.text, es[j].ref.text)
  {
    hide Less, Order.KeyLess, AscendingIds, EntryOf;
    var ids := AscendingIds(payloads.Keys);
    var es := EntriesOf(ids, payloads);
    AscendingTexts(payloads.Keys);
    forall i | 0 <= i < |es|
      ensures es[i].ref == ids[i]
    {
      EntryRef(ids[i], payloads[ids[i]]);
    }
    forall id | id in payloads
      ensures exists e :: e in es && e.ref == id
    {
      var i :| 0 <= i < |ids| && ids[i] == id;
      assert es[i] in es;
    }
  }

  lemma EntryRef(id: Id, raw: Bytes)
    ensures EntryOf(id, raw).ref == id
  {
  }

  lemma AscendingTexts(keys: set<Id>)
    ensures var ids := AscendingIds(keys); forall i, j :: 0 <= i < j < |ids| ==> Less(ids[i].text, ids[j].text)
  {
    hide Less, Order.KeyLess;
    var ids := AscendingIds(keys);
    IdOrder.SortIdsAscends(Enumerate(keys));
    forall i, j | 0 <= i < j < |ids|
      ensures Less(ids[i].text, ids[j].text)
    {
      OneTextKey(ids[i].text, ids[j].text);
    }
  }
}
