/** The Revenue and Funnels extractors' post-processing: each extracted
    record maps dates to per-day figures, and every date becomes one output
    record holding the date next to that day's figures. */
module MixpanelExtractors {
  import opened Wrappers
  import opened Dicts
  import opened Json

  /** The key Revenue skips: the all-time total, not a day. */
  const Overall := "$overall"

  /** One (date, per-day entry) pair the extractor visits. */
  type DateEntry = (string, Value)

  /** The date entries visited, in record order then key order, leaving out
      `"$overall"` when `skipOverall` holds. */
  function Visited(records: seq<Dict<Value>>, skipOverall: bool): (r: seq<DateEntry>)
  {
    if |records| == 0 then []
    else KeptEntries(records[0], skipOverall) + Visited(records[1..], skipOverall)
  }

  function KeptEntries(record: Dict<Value>, skipOverall: bool): (r: seq<DateEntry>)
    ensures forall e :: e in r ==> e in record && !(skipOverall && e.0 == Overall)
    ensures forall e :: e in record && !(skipOverall && e.0 == Overall) ==> e in r
    ensures !skipOverall || Overall !in Keys(record) ==> r == record
  {
    KeptFacts(record, skipOverall);
    Kept(record, skipOverall)
  }

  /** The entries of one record in order, without `"$overall"` when skipped. */
  function Kept(record: Dict<Value>, skipOverall: bool): seq<DateEntry>
  {
    if |record| == 0 then []
    else (if skipOverall && record[0].0 == Overall then [] else [record[0]]) + Kept(record[1..], skipOverall)
  }

  lemma KeptFacts(record: Dict<Value>, skipOverall: bool)
    ensures forall e :: e in Kept(record, skipOverall) ==> e in record && !(skipOverall && e.0 == Overall)
    ensures forall e :: e in record && !(skipOverall && e.0 == Overall) ==> e in Kept(record, skipOverall)
    ensures !skipOverall || Overall !in Keys(record) ==> Kept(record, skipOverall) == record
  {
    KeptMembers(record, skipOverall);
    KeptWhole(record, skipOverall);
  }

  lemma {:induction false} KeptMembers(record: Dict<Value>, skipOverall: bool)
    ensures forall e :: e in Kept(record, skipOverall) ==> e in record && !(skipOverall && e.0 == Overall)
    ensures forall e :: e in record && !(skipOverall && e.0 == Overall) ==> e in Kept(record, skipOverall)
    decreases |record|
  {
    if |record| > 0 {
      KeptMembers(record[1..], skipOverall);
      assert record == [record[0]] + record[1..];
    }
  }

  lemma {:induction false} KeptWhole(record: Dict<Value>, skipOverall: bool)
    ensures !skipOverall || Overall !in Keys(record) ==> Kept(record, skipOverall) == record
    decreases |record|
  {
    if |record| > 0 {
      KeptWhole(record[1..], skipOverall);
      assert record == [record[0]] + record[1..];
    }
  }

  /** `{"date": date, **entry}`: the date first, overridden by an inner
      `"date"`; `None` where the entry is not a mapping (a TypeError). */
  function Dated(e: DateEntry): (r: Option<Dict<Value>>)
    ensures r.Some? <==> e.1.JObj?
    ensures r.Some? ==> Get(r.value, "date") == (if LastOf(e.1.members, "date").Some? then LastOf(e.1.members, "date") else Some(JStr(e.0)))
    ensures r.Some? ==> forall k :: k != "date" ==> Get(r.value, k) == LastOf(e.1.members, k)
    ensures r.Some? ==> "date" in Keys(r.value) && Distinct(r.value)
  {
    if e.1.JObj? then
      var r := Merge([("date", JStr(e.0))], e.1.members);
      assert Keys([("date", JStr(e.0))]) == {"date"} by {
        assert [("date", JStr(e.0))][1..] == [];
      }
      assert Distinct([("date", JStr(e.0))]) by {
        assert [("date", JStr(e.0))][1..] == [];
      }
      Some(r)
    else None
  }

  /** Flatten the visited entries; the first non-mapping entry fails with
      its date key. */
  function FlattenEntries(es: seq<DateEntry>): (r: Result<seq<Dict<Value>>, string>)
    ensures r.Success? <==> forall i :: 0 <= i < |es| ==> es[i].1.JObj?
    ensures r.Success? ==> |r.value| == |es| && forall i :: 0 <= i < |es| ==> Dated(es[i]) == Some(r.value[i])
    ensures r.Failure? ==> exists i :: 0 <= i < |es| && !es[i].1.JObj? && es[i].0 == r.error
  {
    if |es| == 0 then Success([])
    else match Dated(es[0])
      case None => Failure(es[0].0)
      case Some(d) =>
        match FlattenEntries(es[1..])
        case Failure(k) => Failure(k)
        case Success(rest) =>
          assert forall i :: 1 <= i < |es| ==> es[i] == es[1..][i - 1];
          Success([d] + rest)
  }

  /** `RevenueDpathExtractor.extract_records`, after the base extraction:
      one record per entry other than `"$overall"`, in order, each the
      entry's object with its key as `date`; a failure names an entry
      that is not an object. */
  function Revenue(records: seq<Dict<Value>>): (r: Result<seq<Dict<Value>>, string>)
    ensures r.Success? ==>
      |r.value| == |Visited(records, true)|
      && forall i :: 0 <= i < |r.value| ==> Dated(Visited(records, true)[i]) == Some(r.value[i])
    ensures r.Success? ==> forall j, e :: 0 <= j < |records| && e in records[j] && e.0 != Overall ==>
      Dated(e).Some? && Dated(e).value in r.value
    ensures r.Success? ==> forall d :: d in r.value ==>
      "date" in Keys(d) && Distinct(d)
      && exists j, e :: 0 <= j < |records| && e in records[j] && e.0 != Overall && Dated(e) == Some(d)
    ensures r.Failure? ==>
      exists j, e :: 0 <= j < |records| && e in records[j] && e.0 != Overall && !e.1.JObj? && e.0 == r.error
  {
    FlattenedFrom(records, true);
    FlattenEntries(Visited(records, true))
  }

  /** `FunnelsDpathExtractor.extract_records`, after the base extraction:
      one record per entry, in order, each the entry's object with its
      key as `date`; a failure names an entry that is not an object. */
  function Funnels(records: seq<Dict<Value>>): (r: Result<seq<Dict<Value>>, string>)
    ensures r.Success? ==>
      |r.value| == |Visited(records, false)|
      && forall i :: 0 <= i < |r.value| ==> Dated(Visited(records, false)[i]) == Some(r.value[i])
    ensures r.Success? ==> forall j, e :: 0 <= j < |records| && e in records[j] ==>
      Dated(e).Some? && Dated(e).value in r.value
    ensures r.Success? ==> forall d :: d in r.value ==>
      "date" in Keys(d) && Distinct(d)
      && exists j, e :: 0 <= j < |records| && e in records[j] && Dated(e) == Some(d)
    ensures r.Failure? ==>
      exists j, e :: 0 <= j < |records| && e in records[j] && !e.1.JObj? && e.0 == r.error
  {
    FlattenedFrom(records, false);
    FlattenEntries(Visited(records, false))
  }

  /** Where each flattened record, or the failing key, comes from. */
  lemma FlattenedFrom(records: seq<Dict<Value>>, skipOverall: bool)
    ensures var r := FlattenEntries(Visited(records, skipOverall));
      (r.Success? ==> forall d :: d in r.value ==>
        exists j, e :: 0 <= j < |records| && e in records[j] && !(skipOverall && e.0 == Overall) && Dated(e) == Some(d))
      && (r.Success? ==> forall j, e :: 0 <= j < |records| && e in records[j] && !(skipOverall && e.0 == Overall) ==>
            Dated(e).Some? && Dated(e).value in r.value)
      && (r.Failure? ==>
        exists j, e :: 0 <= j < |records| && e in records[j] && !(skipOverall && e.0 == Overall) && !e.1.JObj? && e.0 == r.error)
  {
    var es := Visited(records, skipOverall);
    var r := FlattenEntries(es);
    if r.Success? {
      forall d | d in r.value
        ensures exists j, e :: 0 <= j < |records| && e in records[j] && !(skipOverall && e.0 == Overall) && Dated(e) == Some(d)
      {
        var i :| 0 <= i < |r.value| && r.value[i] == d;
        VisitedEntries(records, skipOverall, es[i]);
      }
      forall j, e | 0 <= j < |records| && e in records[j] && !(skipOverall && e.0 == Overall)
        ensures Dated(e).Some? && Dated(e).value in r.value
      {
        VisitedEntries(records, skipOverall, e);
        var i :| 0 <= i < |es| && es[i] == e;
        assert Dated(es[i]) == Some(r.value[i]);
      }
    } else {
      var i :| 0 <= i < |es| && !es[i].1.JObj? && es[i].0 == r.error;
      VisitedEntries(records, skipOverall, es[i]);
    }
  }

  /** Whether `"$overall"` is a key of some record. */
  predicate HasOverall(records: seq<Dict<Value>>)
  {
    exists i :: 0 <= i < |records| && Overall in Keys(records[i])
  }

  lemma {:induction false} KeptAppend(x: Dict<Value>, y: Dict<Value>, skipOverall: bool)
    ensures Kept(x + y, skipOverall) == Kept(x, skipOverall) + Kept(y, skipOverall)
    decreases |x|
  {
    if |x| > 0 {
      assert (x + y)[0] == x[0] && (x + y)[1..] == x[1..] + y;
      KeptAppend(x[1..], y, skipOverall);
    } else {
      assert x + y == y;
    }
  }

  /** Skipping removes the one `"$overall"` entry of a record and keeps
      the others in their order. */
  lemma OverallEntryRemoved(a: Dict<Value>, v: Value, b: Dict<Value>)
    requires Overall !in Keys(a) && Overall !in Keys(b)
    ensures KeptEntries(a + [(Overall, v)] + b, true) == a + b
  {
    var m := [(Overall, v)];
    assert Kept(a + m, true) == a by {
      assert Kept(m, true) == [] by {
        assert m[1..] == [];
      }
      KeptAppend(a, m, true);
      KeptWhole(a, true);
    }
    assert Kept(a + m + b, true) == a + b by {
      KeptAppend(a + m, b, true);
      KeptWhole(b, true);
    }
    assert KeptEntries(a + m + b, true) == Kept(a + m + b, true);
  }

  /** Without an `"$overall"` key anywhere, Revenue and Funnels agree. */
  lemma {:induction false} RevenueIsFunnelsWithoutOverall(records: seq<Dict<Value>>)
    requires !HasOverall(records)
    ensures Revenue(records) == Funnels(records)
  {
    VisitedWithoutOverall(records);
  }

  lemma {:induction false} VisitedWithoutOverall(records: seq<Dict<Value>>)
    requires !HasOverall(records)
    ensures Visited(records, true) == Visited(records, false)
    decreases |records|
  {
    if |records| > 0 {
      assert Overall !in Keys(records[0]);
      assert !HasOverall(records[1..]) by {
        forall i | 0 <= i < |records[1..]|
          ensures Overall !in Keys(records[1..][i])
        {
          assert records[1..][i] == records[i + 1];
        }
      }
      VisitedWithoutOverall(records[1..]);
    }
  }

  /** Revenue never emits a record for `"$overall"`, and emits every other
      entry of every record; Funnels emits every entry. */
  lemma {:induction false} VisitedEntries(records: seq<Dict<Value>>, skipOverall: bool, e: DateEntry)
    ensures e in Visited(records, skipOverall) <==>
            (exists i :: 0 <= i < |records| && e in records[i]) && !(skipOverall && e.0 == Overall)
    decreases |records|
  {
    if |records| > 0 {
      VisitedEntries(records[1..], skipOverall, e);
      if e in records[0] {
      } else if exists i :: 0 <= i < |records| && e in records[i] {
        var i :| 0 <= i < |records| && e in records[i];
        assert records[1..][i - 1] == records[i];
      }
      if exists i :: 0 <= i < |records[1..]| && e in records[1..][i] {
        var i :| 0 <= i < |records[1..]| && e in records[1..][i];
        assert records[i + 1] == records[1..][i];
      }
    }
  }

}
