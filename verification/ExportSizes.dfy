/** The encoded length of metadata does not depend on the order of keys or collections, so the length
    that is checked before an export is that of the exported metadata. */
module ExportSizes {
  import opened Records
  import opened JsonText
  import opened Canonical
  import opened RecordJson
  import opened Export
  import Order
  import Utf8

  function TextSize(s: string): nat { |Utf8.Encode(s)| }

  /** The encoded length of a value, counted part by part: an item or field brings its own comma or
      closing bracket. */
  function Size(j: Json): nat
    decreases j, 1
  {
    match j
    case JArray(items) => if items == [] then 2 else 1 + ItemsSize(items)
    case JObject(fields) => if fields == [] then 2 else 1 + FieldsSize(fields)
    case _ => TextSize(Dump(j))
  }

  function ItemsSize(items: seq<Json>): nat
    decreases items, 0
  {
    if items == [] then 0 else Size(items[0]) + 1 + ItemsSize(items[1..])
  }

  function FieldsSize(fields: seq<Field>): nat
    decreases fields, 0
  {
    if fields == [] then 0
    else TextSize(StringDump(fields[0].key)) + 1 + Size(fields[0].value) + 1 + FieldsSize(fields[1..])
  }

  lemma SizeConcat(s: string, t: string)
    ensures TextSize(s + t) == TextSize(s) + TextSize(t)
  {
    Utf8.EncodeConcat(s, t);
  }

  lemma PunctuationSize()
    ensures TextSize("[") == TextSize("]") == TextSize("{") == TextSize("}") == TextSize(",") == TextSize(":") == 1
    ensures TextSize("[]") == TextSize("{}") == 2
  {
    SizeConcat("[", "]");
    SizeConcat("{", "}");
    assert "[" + "]" == "[]" && "{" + "}" == "{}";
  }

  lemma {:induction false} SizeOfDump(j: Json)
    ensures TextSize(Dump(j)) == Size(j)
    decreases j, 1
  {
    hide TextSize;
    PunctuationSize();
    match j
    case JArray(items) =>
      if items != [] {
        SizeOfItems(items);
        SizeConcat("[", ItemsDump(items));
      }
    case JObject(fields) =>
      if fields != [] {
        SizeOfFields(fields);
        SizeConcat("{", FieldsDump(fields));
      }
    case _ =>
  }

  lemma {:induction false} SizeOfItems(items: seq<Json>)
    requires items != []
    ensures TextSize(ItemsDump(items)) == ItemsSize(items)
    decreases items, 0
  {
    hide TextSize, Dump;
    PunctuationSize();
    SizeOfDump(items[0]);
    if |items| == 1 {
      SizeConcat(Dump(items[0]), "]");
    } else {
      SizeOfItems(items[1..]);
      SizeConcat(",", ItemsDump(items[1..]));
      SizeConcat(Dump(items[0]), "," + ItemsDump(items[1..]));
    }
  }

  lemma {:induction false} SizeOfFields(fields: seq<Field>)
    requires fields != []
    ensures TextSize(FieldsDump(fields)) == FieldsSize(fields)
    decreases fields, 0
  {
    hide TextSize, Dump, StringDump;
    PunctuationSize();
    SizeOfDump(fields[0].value);
    var key, value := StringDump(fields[0].key), Dump(fields[0].value);
    var rest := if |fields| == 1 then "}" else "," + FieldsDump(fields[1..]);
    if |fields| > 1 {
      SizeOfFields(fields[1..]);
      SizeConcat(",", FieldsDump(fields[1..]));
    }
    SizeConcat(key, ":");
    SizeConcat(key + ":", value);
    SizeConcat(key + ":" + value, rest);
  }

  // ---------- The order of keys ----------

  lemma {:induction false} InsertSize(f: Field, fields: seq<Field>)
    ensures FieldsSize(Canonical.Insert(f, fields)) == TextSize(StringDump(f.key)) + 1 + Size(f.value) + 1 + FieldsSize(fields)
  {
    hide TextSize, Size, StringDump, Less;
    if fields == [] || !Less(fields[0].key, f.key) {
      assert ([f] + fields)[1..] == fields;
    } else {
      InsertSize(f, fields[1..]);
      assert Canonical.Insert(f, fields)[1..] == Canonical.Insert(f, fields[1..]);
    }
  }

  /** Sorting keys keeps the length. */
  lemma {:induction false} SortedSize(j: Json)
    ensures Size(Sorted(j)) == Size(j)
    decreases j, 1
  {
    match j
    case JArray(items) => SortedItemsSize(items);
    case JObject(fields) => SortedFieldsSize(fields);
    case _ =>
  }

  lemma {:induction false} SortedItemsSize(items: seq<Json>)
    ensures ItemsSize(SortedItems(items)) == ItemsSize(items)
    decreases items, 0
  {
    if items != [] {
      SortedSize(items[0]);
      SortedItemsSize(items[1..]);
      assert SortedItems(items)[1..] == SortedItems(items[1..]);
    }
  }

  lemma {:induction false} SortedFieldsSize(fields: seq<Field>)
    ensures FieldsSize(SortedFields(fields)) == FieldsSize(fields)
    decreases fields, 0
  {
    hide TextSize, StringDump;
    if fields != [] {
      SortedSize(fields[0].value);
      SortedFieldsSize(fields[1..]);
      InsertSize(Field(fields[0].key, Sorted(fields[0].value)), SortedFields(fields[1..]));
    }
  }

  // ---------- The order of collections ----------

  function RecordSize(kind: Kind): Record -> nat { (r: Record) => if r.Kind() == kind then Size(RecordJson.RecordJson(r)) + 1 else 0 }

  function OperationSize(): Operation -> nat { (o: Operation) => Size(OperationJson(o)) + 1 }

  lemma {:induction false} CollectionSize(records: seq<Record>, kind: Kind)
    ensures ItemsSize(RecordsJson(Collection(records, kind)).items) == Order.Total(RecordSize(kind), records)
  {
    hide Size, RecordJson.RecordJson;
    if records != [] {
      CollectionSize(records[1..], kind);
      var rest := Collection(records[1..], kind);
      if records[0].Kind() == kind {
        assert Collection(records, kind) == [records[0]] + rest;
        assert RecordsJson([records[0]] + rest).items[1..] == RecordsJson(rest).items;
      } else {
        assert Collection(records, kind) == rest;
      }
    }
  }

  lemma {:induction false} OperationsSize(operations: seq<Operation>)
    ensures ItemsSize(OperationsJson(operations).items) == Order.Total(OperationSize(), operations)
  {
    hide Size, OperationJson;
    if operations != [] {
      OperationsSize(operations[1..]);
      assert OperationsJson(operations).items[1..] == OperationsJson(operations[1..]).items;
    }
  }

  /** The size of an array depends only on the sum over its items, which is 0 only without items. */
  lemma ArraySize(a: Json, b: Json)
    requires a.JArray? && b.JArray? && ItemsSize(a.items) == ItemsSize(b.items)
    ensures Size(a) == Size(b)
  {
  }

  lemma CollectionOrder(d: Document, kind: Kind)
    ensures Size(RecordsJson(Collection(Ordered(d).records, kind))) == Size(RecordsJson(Collection(d.records, kind)))
  {
    hide Size, RecordsJson, Collection, Order.Sort, RecordKey, OperationKey, RecordSize;
    CollectionSize(d.records, kind);
    CollectionSize(Ordered(d).records, kind);
    Order.SortTotal(RecordKey, RecordSize(kind), d.records);
    ArraySize(RecordsJson(Collection(Ordered(d).records, kind)), RecordsJson(Collection(d.records, kind)));
  }

  lemma OperationsOrder(d: Document)
    ensures Size(OperationsJson(Ordered(d).operations)) == Size(OperationsJson(d.operations))
  {
    hide Size, OperationsJson, Order.Sort, RecordKey, OperationKey, OperationSize;
    OperationsSize(d.operations);
    OperationsSize(Ordered(d).operations);
    Order.SortTotal(OperationKey, OperationSize(), d.operations);
    ArraySize(OperationsJson(Ordered(d).operations), OperationsJson(d.operations));
  }

  lemma {:induction false} FieldsSameSize(a: seq<Field>, b: seq<Field>)
    requires |a| == |b| && forall i :: 0 <= i < |a| ==> a[i].key == b[i].key && Size(a[i].value) == Size(b[i].value)
    ensures FieldsSize(a) == FieldsSize(b)
  {
    hide Size, TextSize;
    if a != [] {
      FieldsSameSize(a[1..], b[1..]);
    }
  }

  lemma ObjectsSameSize(names: seq<string>, xs: seq<Json>, ys: seq<Json>)
    requires |names| == |xs| == |ys| && forall i :: 0 <= i < |xs| ==> Size(xs[i]) == Size(ys[i])
    ensures Size(Object(names, xs)) == Size(Object(names, ys))
  {
    FieldsSameSize(Object(names, xs).fields, Object(names, ys).fields);
  }

  lemma OrderedSize(d: Document)
    ensures Size(DocumentJson(Ordered(d))) == Size(DocumentJson(d))
  {
    hide Size, RecordsJson, OperationsJson, Collection, Ordered, Object;
    CollectionOrder(d, ArtifactKind);
    CollectionOrder(d, VersionKind);
    CollectionOrder(d, ContentRootKind);
    CollectionOrder(d, BlobKind);
    CollectionOrder(d, ManifestKind);
    CollectionOrder(d, ProvenanceKind);
    CollectionOrder(d, ReceiptKind);
    OperationsOrder(d);
    ObjectsSameSize(DOCUMENT_NAMES, DocumentValues(Ordered(d)), DocumentValues(d));
  }

  /** The length checked before an export, on metadata in any order, is that of the exported metadata. */
  lemma SameLength(d: Document)
    ensures |JsonBytes(Sorted(DocumentJson(d)))| == |JsonBytes(MetaJson(d))|
  {
    hide Size, Sorted, DocumentJson, Ordered, Dump;
    SizeOfDump(Sorted(DocumentJson(d)));
    SizeOfDump(MetaJson(d));
    SortedSize(DocumentJson(d));
    SortedSize(DocumentJson(Ordered(d)));
    OrderedSize(d);
  }
}
