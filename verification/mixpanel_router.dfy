/** The Funnels partition router: replays each parent stream slice by slice
    and turns every parent record whose key path resolves into one child
    partition, carrying the funnel's name and the parent slice's partition. */
module MixpanelRouter {
  import opened Wrappers
  import opened Dicts
  import opened Json
  import Text

  /** The Airbyte message types a parent read can emit. */
  datatype MessageType = RECORD | STATE | LOG | TRACE | CONTROL

  /** An item of a parent stream's read: an Airbyte message, a CDK `Record`
      object, or a plain mapping. */
  datatype ParentItem =
    | Message(kind: MessageType, data: Value)
    | RecordObject(data: Value)
    | Mapping(data: Value)

  /** A slice of the parent stream (`None` for an absent slice) and what
      reading it yields. */
  datatype ParentSlice = ParentSlice(partition: Option<Dict<Value>>, items: seq<ParentItem>)

  /** A parent stream config after interpolation: the parent key (a
      `/`-separated path), the output partition field, and the parent
      stream's slices. */
  datatype ParentConfig = ParentConfig(parentKey: string, partitionField: string, slices: seq<ParentSlice>)

  datatype StreamSlice = StreamSlice(partition: Dict<Value>, cursorSlice: Dict<Value>)

  /** The record data of an item, or `None` for a non-record message. */
  function RecordData(item: ParentItem): Option<Value>
  {
    match item
    case Message(kind, data) => if kind == RECORD then Some(data) else None
    case RecordObject(data) => Some(data)
    case Mapping(data) => Some(data)
  }

  /** The key segments `dpath.util.get` walks for a path: `"/"` names the
      record itself, and any other path loses its leading separators before
      it is split on `/`. */
  function KeyPath(parentKey: string): (r: seq<string>)
    ensures |r| == 0 <==> parentKey == "/"
    ensures '/' !in parentKey ==> r == [parentKey]
    ensures parentKey != "/" && (forall i :: 0 <= i < |parentKey| ==> parentKey[i] == '/') ==> r == [""]
  {
    if parentKey == "/" then []
    else
      var trimmed := Text.TrimLeft(parentKey, '/');
      if '/' !in parentKey then
        assert trimmed == parentKey;
        Text.SplitNoSeparator(parentKey, '/');
        Text.Split(trimmed, '/')
      else
        Text.Split(trimmed, '/')
  }

  /** Leading separators do not change the key path: `"/funnel_id"` and
      `"funnel_id"` name the same field. */
  lemma LeadingSeparatorIgnored(key: string)
    requires key != "" && key != "/"
    ensures KeyPath("/" + key) == KeyPath(key)
  {
    assert ("/" + key)[1..] == key;
  }

  /** A leading separator does not change which records resolve, nor the
      partitions they yield. */
  lemma LeadingSeparatorSameProjection(key: string, field: string, parent: Dict<Value>, item: ParentItem)
    requires key != "" && key != "/"
    ensures Project("/" + key, field, parent, item) == Project(key, field, parent, item)
  {
    LeadingSeparatorIgnored(key);
  }

  /** The path `"/"` resolves on every record, to the record itself. */
  lemma RootPathIsRecord(field: string, parent: Dict<Value>, item: ParentItem)
    requires RecordData(item).Some? && field != "funnel_name" && field != "parent_slice"
    ensures Project("/", field, parent, item).Some?
    ensures Get(Project("/", field, parent, item).value.partition, field) == RecordData(item)
  {
  }

  /** The partition one parent record projects to, if its key path resolves:
      `{field: value, "funnel_name": record.get("name"), "parent_slice": parent}`. */
  function Project(parentKey: string, field: string, parent: Dict<Value>, item: ParentItem): (r: Option<StreamSlice>)
    ensures r.Some? <==> RecordData(item).Some? && Lookup(RecordData(item).value, KeyPath(parentKey)).Some?
    ensures r.Some? ==>
      var data := RecordData(item).value;
      && r.value.cursorSlice == []
      && Get(r.value.partition, "parent_slice") == Some(JObj(parent))
      && Get(r.value.partition, "funnel_name") == Some(Field(data, "name").GetOr(JNull))
      && (field != "parent_slice" ==> Get(r.value.partition, field).Some?)
      && (field != "funnel_name" && field != "parent_slice" ==>
            Get(r.value.partition, field) == Lookup(data, KeyPath(parentKey)))
      && Keys(r.value.partition) == {field, "funnel_name", "parent_slice"}
  {
    Projected(parentKey, field, parent, item)
  }

  function Projected(parentKey: string, field: string, parent: Dict<Value>, item: ParentItem): Option<StreamSlice>
  {
    match RecordData(item)
    case None => None
    case Some(data) =>
      match Lookup(data, KeyPath(parentKey))
      case None => None
      case Some(value) =>
        var partition := Set(Set(Set([], field, value), "funnel_name", Field(data, "name").GetOr(JNull)), "parent_slice", JObj(parent));
        Some(StreamSlice(partition, []))
  }

  /** The partitions among a sequence of projection results, in order. */
  function Somes(os: seq<Option<StreamSlice>>): (r: seq<StreamSlice>)
    ensures |r| <= |os|
  {
    if |os| == 0 then []
    else (if os[0].Some? then [os[0].value] else []) + Somes(os[1..])
  }

  lemma {:induction false} SomesAppend(a: seq<Option<StreamSlice>>, b: seq<Option<StreamSlice>>)
    ensures Somes(a + b) == Somes(a) + Somes(b)
    decreases |a|
  {
    if |a| == 0 {
      assert a + b == b;
    } else {
      assert (a + b)[0] == a[0];
      assert (a + b)[1..] == a[1..] + b;
      SomesAppend(a[1..], b);
    }
  }

  function ItemResults(parentKey: string, field: string, parent: Dict<Value>, items: seq<ParentItem>): (r: seq<Option<StreamSlice>>)
    ensures |r| == |items|
    ensures forall i :: 0 <= i < |items| ==> r[i] == Projected(parentKey, field, parent, items[i])
  {
    if |items| == 0 then [] else [Projected(parentKey, field, parent, items[0])] + ItemResults(parentKey, field, parent, items[1..])
  }

  /** The partitions of one parent slice's items. */
  function ProjectItems(parentKey: string, field: string, parent: Dict<Value>, items: seq<ParentItem>): seq<StreamSlice>
  {
    Somes(ItemResults(parentKey, field, parent, items))
  }

  /** `parent_stream_slice.partition if parent_stream_slice else {}`. */
  function ParentPartition(slice: ParentSlice): Dict<Value>
  {
    slice.partition.GetOr([])
  }

  function ProjectSlices(parentKey: string, field: string, slices: seq<ParentSlice>): seq<StreamSlice>
  {
    if |slices| == 0 then []
    else ProjectItems(parentKey, field, ParentPartition(slices[0]), slices[0].items)
         + ProjectSlices(parentKey, field, slices[1..])
  }

  /** `FunnelsSubstreamPartitionRouter.stream_slices`: configs, then parent
      slices, then parent records, in order; nothing without configs. The
      nested enumeration is the flat projection of every (config, slice,
      item) visit in order: a skipped item never stops the enumeration of
      the items, slices and configs after it. */
  function StreamSlices(configs: seq<ParentConfig>): (r: seq<StreamSlice>)
    ensures r == ProjectVisits(Visits(configs))
    decreases |configs|
  {
    if |configs| == 0 then []
    else
      var c := configs[0];
      SlicesAreVisits(c.parentKey, c.partitionField, c.slices);
      ProjectVisitsAppend(VisitSlices(c.parentKey, c.partitionField, c.slices), Visits(configs[1..]));
      ProjectSlices(c.parentKey, c.partitionField, c.slices) + StreamSlices(configs[1..])
  }

  /** One visit of the nested enumeration: the config's key and field, the
      parent partition, and one parent item. */
  datatype Visit = Visit(parentKey: string, field: string, parent: Dict<Value>, item: ParentItem)

  function VisitItems(parentKey: string, field: string, parent: Dict<Value>, items: seq<ParentItem>): (r: seq<Visit>)
    ensures |r| == |items|
    ensures forall i :: 0 <= i < |r| ==> r[i] == Visit(parentKey, field, parent, items[i])
  {
    if |items| == 0 then [] else [Visit(parentKey, field, parent, items[0])] + VisitItems(parentKey, field, parent, items[1..])
  }

  function VisitSlices(parentKey: string, field: string, slices: seq<ParentSlice>): seq<Visit>
  {
    if |slices| == 0 then []
    else VisitItems(parentKey, field, ParentPartition(slices[0]), slices[0].items) + VisitSlices(parentKey, field, slices[1..])
  }

  /** Every (config, parent slice, parent item) triple in enumeration order. */
  function Visits(configs: seq<ParentConfig>): seq<Visit>
  {
    if |configs| == 0 then []
    else VisitSlices(configs[0].parentKey, configs[0].partitionField, configs[0].slices) + Visits(configs[1..])
  }

  function VisitResults(visits: seq<Visit>): (r: seq<Option<StreamSlice>>)
    ensures |r| == |visits|
    ensures forall i :: 0 <= i < |visits| ==> r[i] == Projected(visits[i].parentKey, visits[i].field, visits[i].parent, visits[i].item)
  {
    if |visits| == 0 then [] else [Projected(visits[0].parentKey, visits[0].field, visits[0].parent, visits[0].item)] + VisitResults(visits[1..])
  }

  /** The flat reference: project each visit, keeping those that resolve. */
  function ProjectVisits(visits: seq<Visit>): seq<StreamSlice>
  {
    Somes(VisitResults(visits))
  }

  /** Whether a visit yields a partition. */
  predicate Resolves(v: Visit)
  {
    Projected(v.parentKey, v.field, v.parent, v.item).Some?
  }

  function CountResolving(visits: seq<Visit>): nat
  {
    if |visits| == 0 then 0 else (if Resolves(visits[0]) then 1 else 0) + CountResolving(visits[1..])
  }

  lemma {:induction false} ProjectVisitsAppend(a: seq<Visit>, b: seq<Visit>)
    ensures ProjectVisits(a + b) == ProjectVisits(a) + ProjectVisits(b)
  {
    VisitResultsAppend(a, b);
    SomesAppend(VisitResults(a), VisitResults(b));
  }

  lemma {:induction false} VisitResultsAppend(a: seq<Visit>, b: seq<Visit>)
    ensures VisitResults(a + b) == VisitResults(a) + VisitResults(b)
    decreases |a|
  {
    if |a| == 0 {
      assert a + b == b;
    } else {
      assert (a + b)[0] == a[0];
      assert (a + b)[1..] == a[1..] + b;
      VisitResultsAppend(a[1..], b);
    }
  }

  lemma {:induction false} ItemResultsAppend(parentKey: string, field: string, parent: Dict<Value>,
                                             a: seq<ParentItem>, b: seq<ParentItem>)
    ensures ItemResults(parentKey, field, parent, a + b)
         == ItemResults(parentKey, field, parent, a) + ItemResults(parentKey, field, parent, b)
    decreases |a|
  {
    if |a| == 0 {
      assert a + b == b;
    } else {
      assert (a + b)[0] == a[0];
      assert (a + b)[1..] == a[1..] + b;
      ItemResultsAppend(parentKey, field, parent, a[1..], b);
    }
  }

  lemma ItemsAreVisits(parentKey: string, field: string, parent: Dict<Value>, items: seq<ParentItem>)
    ensures ProjectItems(parentKey, field, parent, items) == ProjectVisits(VisitItems(parentKey, field, parent, items))
  {
    assert ItemResults(parentKey, field, parent, items) == VisitResults(VisitItems(parentKey, field, parent, items));
  }

  lemma {:induction false} SlicesAreVisits(parentKey: string, field: string, slices: seq<ParentSlice>)
    ensures ProjectSlices(parentKey, field, slices) == ProjectVisits(VisitSlices(parentKey, field, slices))
    decreases |slices|
  {
    if |slices| > 0 {
      ItemsAreVisits(parentKey, field, ParentPartition(slices[0]), slices[0].items);
      SlicesAreVisits(parentKey, field, slices[1..]);
      ProjectVisitsAppend(VisitItems(parentKey, field, ParentPartition(slices[0]), slices[0].items),
                          VisitSlices(parentKey, field, slices[1..]));
    }
  }

  /** Exactly one partition per resolving record, and each is the
      projection of its visit. */
  lemma {:induction false} OnePartitionPerResolvingRecord(visits: seq<Visit>)
    ensures |ProjectVisits(visits)| == CountResolving(visits)
    decreases |visits|
  {
    if |visits| > 0 {
      var rs := VisitResults(visits);
      assert rs == [rs[0]] + VisitResults(visits[1..]);
      SomesAppend([rs[0]], VisitResults(visits[1..]));
      assert Somes([rs[0]]) == if rs[0].Some? then [rs[0].value] else [] by {
        assert [rs[0]][1..] == [];
      }
      OnePartitionPerResolvingRecord(visits[1..]);
    }
  }

  lemma ProjectItemsAppend(parentKey: string, field: string, parent: Dict<Value>, a: seq<ParentItem>, b: seq<ParentItem>)
    ensures ProjectItems(parentKey, field, parent, a + b)
         == ProjectItems(parentKey, field, parent, a) + ProjectItems(parentKey, field, parent, b)
  {
    ItemResultsAppend(parentKey, field, parent, a, b);
    SomesAppend(ItemResults(parentKey, field, parent, a), ItemResults(parentKey, field, parent, b));
  }

  lemma SkippedAlone(parentKey: string, field: string, parent: Dict<Value>, skipped: ParentItem)
    requires Project(parentKey, field, parent, skipped).None?
    ensures ProjectItems(parentKey, field, parent, [skipped]) == []
  {
    var rs := ItemResults(parentKey, field, parent, [skipped]);
    assert rs == [None];
    assert rs[1..] == [];
  }

  /** Removing an item that yields nothing (a non-record message or a
      record whose key path misses) leaves the partitions unchanged. */
  lemma SkippedItemChangesNothing(parentKey: string, field: string, parent: Dict<Value>,
                                  before: seq<ParentItem>, skipped: ParentItem, after: seq<ParentItem>)
    requires Project(parentKey, field, parent, skipped).None?
    ensures ProjectItems(parentKey, field, parent, before + [skipped] + after)
         == ProjectItems(parentKey, field, parent, before + after)
  {
    SkippedAlone(parentKey, field, parent, skipped);
    ProjectItemsAppend(parentKey, field, parent, before + [skipped], after);
    ProjectItemsAppend(parentKey, field, parent, before, [skipped]);
    ProjectItemsAppend(parentKey, field, parent, before, after);
  }
}
