/** Klaviyo's incremental state: one cursor per stream, merged as a running
    maximum, and for streams that also read archived records a separate
    `"archived"` namespace that archived records update instead. */
module KlaviyoState {
  import opened Wrappers

  /** A stored cursor value: falsy (`None` or an empty string) or a parsed
      instant, in seconds. */
  datatype Cursor = Blank | At(t: int)

  /** The stream state dict: the cursor entries at top level, and the nested
      `"archived"` dict when one has been written. */
  datatype StreamState = StreamState(cursors: map<string, Cursor>, archived: Option<map<string, Cursor>>)

  /** A parsed record: its cursor field (copied from `attributes` by
      `map_record`) and whether `attributes.archived` is truthy. */
  datatype Record = Record(cursor: int, archived: bool)

  function Max(a: int, b: int): int { if a >= b then a else b }

  /** `current.get(cf, start_ts)`: a key that is present wins even when its
      value is blank; only an absent key falls back to the start date. */
  function Prior(cursors: map<string, Cursor>, cf: string, startTs: Cursor): Cursor
  {
    if cf in cursors then cursors[cf] else startTs
  }

  /** The merge of `get_updated_state`: the record's cursor, raised to the
      prior value when that one is set. */
  function Advance(prior: Cursor, cursor: int): (r: int)
    ensures r >= cursor
    ensures prior.At? ==> r >= prior.t
    ensures r == cursor || (prior.At? && r == prior.t)
  {
    if prior.At? then Max(cursor, prior.t) else cursor
  }

  /** `KlaviyoStream.get_updated_state`. */
  function UpdatedState(s: StreamState, cf: string, startTs: Cursor, rec: Record): (r: StreamState)
    ensures cf in r.cursors && r.cursors[cf].At?
    ensures r.cursors[cf].t >= rec.cursor
    ensures Prior(s.cursors, cf, startTs).At? ==> r.cursors[cf].t >= Prior(s.cursors, cf, startTs).t
    ensures r.cursors[cf].t == rec.cursor || r.cursors[cf] == Prior(s.cursors, cf, startTs)
    ensures forall k :: k in s.cursors && k != cf ==> k in r.cursors && r.cursors[k] == s.cursors[k]
    ensures r.cursors.Keys == s.cursors.Keys + {cf}
    ensures r.archived == s.archived
  {
    s.(cursors := s.cursors[cf := At(Advance(Prior(s.cursors, cf, startTs), rec.cursor))])
  }

  /** `StreamWithArchivedRecords.get_updated_state`: an archived record only
      replaces the `"archived"` dict with `{cf: merged}`; any other record
      goes through the primary update. */
  function UpdatedStateWithArchived(s: StreamState, cf: string, startTs: Cursor, rec: Record): (r: StreamState)
    ensures rec.archived ==> r.cursors == s.cursors
    ensures rec.archived ==> r.archived.Some? && r.archived.value.Keys == {cf}
    ensures rec.archived ==>
      var prior := if s.archived.Some? then Prior(s.archived.value, cf, startTs) else startTs;
      && r.archived.value[cf].At?
      && r.archived.value[cf].t >= rec.cursor
      && (prior.At? ==> r.archived.value[cf].t >= prior.t)
      && (r.archived.value[cf].t == rec.cursor || r.archived.value[cf] == prior)
    ensures !rec.archived ==> r.archived == s.archived && r == UpdatedState(s, cf, startTs, rec)
  {
    if rec.archived then
      var prior := if s.archived.Some? then Prior(s.archived.value, cf, startTs) else startTs;
      s.(archived := Some(map[cf := At(Advance(prior, rec.cursor))]))
    else UpdatedState(s, cf, startTs, rec)
  }

  /** The state after feeding `records` one by one to `UpdatedState`. */
  function Replay(s: StreamState, cf: string, startTs: Cursor, records: seq<Record>): StreamState
    decreases |records|
  {
    if |records| == 0 then s
    else UpdatedState(Replay(s, cf, startTs, records[..|records| - 1]), cf, startTs, records[|records| - 1])
  }

  /** The largest cursor among the records, starting from `init`. */
  function MaxCursor(init: int, records: seq<Record>): int
    decreases |records|
  {
    if |records| == 0 then init else Max(MaxCursor(init, records[..|records| - 1]), records[|records| - 1].cursor)
  }

  /** After a run of records, the stored cursor is the maximum of the
      records' cursors and the prior value (the start date when nothing was
      stored): it is never below any of them and never moves backwards. */
  lemma {:induction false} ReplayIsMaximum(s: StreamState, cf: string, startTs: Cursor, records: seq<Record>)
    requires |records| > 0
    ensures var r := Replay(s, cf, startTs, records);
      var prior := Prior(s.cursors, cf, startTs);
      && cf in r.cursors
      && r.cursors[cf] == At(if prior.At? then MaxCursor(prior.t, records) else MaxCursor(records[0].cursor, records))
      && r.archived == s.archived
    decreases |records|
  {
    var init := records[..|records| - 1];
    if |init| == 0 {
      assert records == [records[0]];
    } else {
      ReplayIsMaximum(s, cf, startTs, init);
      assert init[0] == records[0];
      var prior := Prior(s.cursors, cf, startTs);
      if !prior.At? {
        MaxCursorStart(records[0].cursor, init);
      }
    }
  }

  lemma {:induction false} MaxCursorStart(c: int, records: seq<Record>)
    requires |records| > 0 && records[0].cursor == c
    ensures MaxCursor(c, records) >= c
    decreases |records|
  {
    if |records| > 1 {
      MaxCursorStart(c, records[..|records| - 1]);
    }
  }

  /** The stored cursor never decreases while records are fed in. */
  lemma {:induction false} ReplayMonotone(s: StreamState, cf: string, startTs: Cursor, records: seq<Record>, n: nat)
    requires 0 < n <= |records|
    ensures var a := Replay(s, cf, startTs, records[..n]);
      var b := Replay(s, cf, startTs, records);
      cf in a.cursors && cf in b.cursors && a.cursors[cf].At? && b.cursors[cf].At? && a.cursors[cf].t <= b.cursors[cf].t
    decreases |records|
  {
    if n < |records| {
      var init := records[..|records| - 1];
      assert records[..n] == init[..n];
      ReplayMonotone(s, cf, startTs, init, n);
      if n < |init| {
      } else {
        assert init[..n] == init;
      }
    } else {
      assert records[..n] == records;
    }
  }
}
