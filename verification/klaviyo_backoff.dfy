/** Klaviyo's rate-limit handling: a 429 whose `Retry-After` is at least the
    stream's `max_time` ends the read of that stream (logged, not raised);
    any other 429 waits for the advertised time. */
module KlaviyoBackoff {
  import opened Wrappers

  const TooManyRequests: int := 429

  /** `KlaviyoBackoffError`: the stream gives up on a wait it cannot afford. */
  datatype BackoffError = KlaviyoBackoffError(stream: string, retryAfter: int)

  /** `KlaviyoStream.backoff_time`. `retryAfter` is the `Retry-After` header
      in whole seconds, `None` when the header is absent or empty. A zero
      wait is falsy in the source and so never escalates. */
  function BackoffTime(stream: string, status: int, retryAfter: Option<int>, maxTime: int): (r: Result<Option<int>, BackoffError>)
    ensures status != TooManyRequests ==> r == Success(None)
    ensures r.Failure? <==> status == TooManyRequests && retryAfter.Some? && retryAfter.value != 0 && retryAfter.value >= maxTime
    ensures r.Failure? ==> r.error == KlaviyoBackoffError(stream, retryAfter.value)
    ensures r.Success? && status == TooManyRequests ==> r.value == retryAfter
  {
    if status == TooManyRequests then
      if retryAfter.Some? && retryAfter.value != 0 && retryAfter.value >= maxTime
      then Failure(KlaviyoBackoffError(stream, retryAfter.value))
      else Success(retryAfter)
    else Success(None)
  }

  /** What the HTTP stream underneath produces, in order: a record, a 429
      response it consults `backoff_time` about, or another raised error. */
  datatype ReadEvent<R> = Emit(record: R) | Throttled(retryAfter: Option<int>) | Raise(error: string)

  /** How a read ended: the events ran out, a backoff error was caught and
      logged, or another error propagated to the caller. */
  datatype ReadEnd = Exhausted | BackoffLogged(e: BackoffError) | Propagated(error: string)

  datatype ReadResult<R> = ReadResult(records: seq<R>, end: ReadEnd)

  /** The records among the events. */
  function Emitted<R>(events: seq<ReadEvent<R>>): seq<R>
  {
    if |events| == 0 then []
    else (if events[0].Emit? then [events[0].record] else []) + Emitted(events[1..])
  }

  lemma {:induction false} EmittedAppend<R>(a: seq<ReadEvent<R>>, b: seq<ReadEvent<R>>)
    ensures Emitted(a + b) == Emitted(a) + Emitted(b)
    decreases |a|
  {
    if |a| > 0 {
      assert (a + b)[1..] == a[1..] + b;
      EmittedAppend(a[1..], b);
    } else {
      assert a + b == b;
    }
  }

  /** A throttled response the stream waits out rather than escalating. */
  predicate Affordable<R>(stream: string, e: ReadEvent<R>, maxTime: int)
  {
    e.Throttled? ==> BackoffTime(stream, TooManyRequests, e.retryAfter, maxTime).Success?
  }

  /** `r` is what a read returns that stopped at event `n`: every earlier
      event was a record or an affordable 429, and the records are those
      among them; the read ended by exhaustion, by the backoff error of a
      429 at `n`, or by the error raised at `n`. */
  ghost predicate StoppedAt<R>(stream: string, events: seq<ReadEvent<R>>, maxTime: int, r: ReadResult<R>, n: int)
  {
    && 0 <= n <= |events|
    && r.records == Emitted(events[..n])
    && (forall i :: 0 <= i < n ==> !events[i].Raise? && Affordable(stream, events[i], maxTime))
    && (r.end.Exhausted? ==> n == |events|)
    && (r.end.Propagated? ==> n < |events| && events[n] == Raise(r.end.error))
    && (r.end.BackoffLogged? ==>
          && n < |events| && events[n].Throttled?
          && BackoffTime(stream, TooManyRequests, events[n].retryAfter, maxTime) == Failure(r.end.e))
  }

  /** The read loop: records pass through, an affordable 429 is waited
      out, an unaffordable one ends the read with the logged backoff error,
      and any other error propagates. */
  function Read<R>(stream: string, events: seq<ReadEvent<R>>, maxTime: int): ReadResult<R>
    decreases |events|
  {
    if |events| == 0 then ReadResult([], Exhausted)
    else if events[0].Raise? then ReadResult([], Propagated(events[0].error))
    else if events[0].Throttled? && BackoffTime(stream, TooManyRequests, events[0].retryAfter, maxTime).Failure? then
      ReadResult([], BackoffLogged(BackoffTime(stream, TooManyRequests, events[0].retryAfter, maxTime).error))
    else
      var rest := Read(stream, events[1..], maxTime);
      if events[0].Emit? then ReadResult([events[0].record] + rest.records, rest.end) else rest
  }

  lemma {:induction false} ReadStops<R>(stream: string, events: seq<ReadEvent<R>>, maxTime: int)
    ensures exists n :: StoppedAt(stream, events, maxTime, Read(stream, events, maxTime), n)
    decreases |events|
  {
    var r := Read(stream, events, maxTime);
    if |events| == 0 || events[0].Raise?
       || (events[0].Throttled? && BackoffTime(stream, TooManyRequests, events[0].retryAfter, maxTime).Failure?) {
      assert StoppedAt(stream, events, maxTime, r, 0);
    } else {
      var rest := Read(stream, events[1..], maxTime);
      ReadStops(stream, events[1..], maxTime);
      var n :| StoppedAt(stream, events[1..], maxTime, rest, n);
      assert events[..n + 1] == [events[0]] + events[1..][..n];
      assert StoppedAt(stream, events, maxTime, r, n + 1);
    }
  }

  /** `KlaviyoStream.read_records`: yields the records of the underlying read
      and catches `KlaviyoBackoffError`, which only ends this read. */
  function ReadRecords<R>(stream: string, events: seq<ReadEvent<R>>, maxTime: int): (r: ReadResult<R>)
    ensures exists n :: StoppedAt(stream, events, maxTime, r, n)
  {
    ReadStops(stream, events, maxTime);
    Read(stream, events, maxTime)
  }

  /** When no error is raised and every 429 is affordable, the read yields
      every record and ends normally. */
  lemma {:induction false} ReadsEverything<R>(stream: string, events: seq<ReadEvent<R>>, maxTime: int)
    requires forall i :: 0 <= i < |events| ==> !events[i].Raise? && Affordable(stream, events[i], maxTime)
    ensures ReadRecords(stream, events, maxTime) == ReadResult(Emitted(events), Exhausted)
  {
    ReadAll(stream, events, maxTime);
  }

  lemma {:induction false} ReadAll<R>(stream: string, events: seq<ReadEvent<R>>, maxTime: int)
    requires forall i :: 0 <= i < |events| ==> !events[i].Raise? && Affordable(stream, events[i], maxTime)
    ensures Read(stream, events, maxTime) == ReadResult(Emitted(events), Exhausted)
    decreases |events|
  {
    if |events| > 0 {
      ReadAll(stream, events[1..], maxTime);
    }
  }

  /** `StreamWithArchivedRecords.read_records`: the primary pass, then the
      archived pass, which is a separate stream with its own name. A
      backoff that ended the primary pass is caught inside it, so the
      archived pass still runs; an error propagating out of the primary
      pass stops both. */
  function ReadWithArchived<R>(stream: string, archivedStream: string, primary: seq<ReadEvent<R>>,
                               archived: seq<ReadEvent<R>>, maxTime: int): (r: ReadResult<R>)
    ensures var p := ReadRecords(stream, primary, maxTime);
      && (p.end.Propagated? ==> r == p)
      && (!p.end.Propagated? ==>
            var a := ReadRecords(archivedStream, archived, maxTime);
            r.records == p.records + a.records && r.end == a.end)
  {
    var p := ReadRecords(stream, primary, maxTime);
    if p.end.Propagated? then p
    else
      var a := ReadRecords(archivedStream, archived, maxTime);
      ReadResult(p.records + a.records, a.end)
  }

  /** A read's end as another stream would report it: a backoff error
      names the stream that raised it. */
  function Renamed(end: ReadEnd, stream: string): ReadEnd
  {
    if end.BackoffLogged? then BackoffLogged(KlaviyoBackoffError(stream, end.e.retryAfter)) else end
  }

  /** The stream's name affects only the backoff error it reports. */
  lemma {:induction false} ReadRenamed<R>(stream: string, other: string, events: seq<ReadEvent<R>>, maxTime: int)
    ensures Read(other, events, maxTime)
         == ReadResult(Read(stream, events, maxTime).records, Renamed(Read(stream, events, maxTime).end, other))
    decreases |events|
  {
    if |events| > 0 {
      ReadRenamed(stream, other, events[1..], maxTime);
    }
  }

  /** A read whose first events end normally continues into what follows. */
  lemma {:induction false} ReadAppend<R>(stream: string, a: seq<ReadEvent<R>>, b: seq<ReadEvent<R>>, maxTime: int)
    requires Read(stream, a, maxTime).end.Exhausted?
    ensures Read(stream, a + b, maxTime)
         == ReadResult(Read(stream, a, maxTime).records + Read(stream, b, maxTime).records, Read(stream, b, maxTime).end)
    decreases |a|
  {
    if |a| == 0 {
      assert a + b == b;
    } else {
      assert (a + b)[0] == a[0];
      assert (a + b)[1..] == a[1..] + b;
      ReadAppend(stream, a[1..], b, maxTime);
    }
  }

  /** When the primary pass runs to its end, the two passes read exactly
      like one stream of the primary events followed by the archived ones,
      except that a backoff error names the archived stream; when it ends
      on a backoff, the archived pass still contributes all its records. */
  lemma ArchivedPassFollowsPrimary<R>(stream: string, archivedStream: string, primary: seq<ReadEvent<R>>,
                                      archived: seq<ReadEvent<R>>, maxTime: int)
    ensures ReadRecords(stream, primary, maxTime).end.Exhausted? ==>
      var whole := ReadRecords(stream, primary + archived, maxTime);
      ReadWithArchived(stream, archivedStream, primary, archived, maxTime)
        == ReadResult(whole.records, Renamed(whole.end, archivedStream))
    ensures ReadRecords(stream, primary, maxTime).end.BackoffLogged? ==>
      ReadWithArchived(stream, archivedStream, primary, archived, maxTime).records
        == ReadRecords(stream, primary, maxTime).records + ReadRecords(archivedStream, archived, maxTime).records
  {
    if ReadRecords(stream, primary, maxTime).end.Exhausted? {
      ReadAppend(stream, primary, archived, maxTime);
      ReadRenamed(stream, archivedStream, archived, maxTime);
    }
  }
}
