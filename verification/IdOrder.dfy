/** Identities in ascending order. */
module IdOrder {
  import opened Records
  import Order

  function IdKey(id: Id): seq<string> { [id.text] }

  function SortIds(ids: seq<Id>): (r: seq<Id>)
    ensures |r| == |ids| && forall x :: x in r <==> x in ids
  {
    Order.Sort(IdKey, ids)
  }

  /** Distinct identities are brought into ascending order, and stay distinct. */
  lemma SortIdsAscends(ids: seq<Id>)
    requires Distinct(ids)
    ensures Order.Ascending(IdKey, SortIds(ids)) && Distinct(SortIds(ids))
  {
    forall i, j | 0 <= i < j < |ids|
      ensures IdKey(ids[i]) != IdKey(ids[j])
    {
      assert IdKey(ids[i])[0] == ids[i].text && IdKey(ids[j])[0] == ids[j].text;
    }
    Order.SortAscends(IdKey, ids);
    forall i, j | 0 <= i < j < |ids|
      ensures SortIds(ids)[i] != SortIds(ids)[j]
    {
      Order.AscendingKeysDiffer(IdKey, SortIds(ids), i, j);
    }
  }
}
