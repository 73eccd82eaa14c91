/** The Mixpanel Engage stream: page+session pagination, whose total count
    arrives only on the first page and is retained between calls, and the
    flattening of each record's `$properties`. */
module MixpanelEngage {
  import opened Wrappers
  import opened Dicts
  import opened Json

  /** The fields of a decoded Engage response the paginator reads:
      `page`, `total` (first page only) and `session_id` (`JNull` when absent). */
  datatype EngageResponse = EngageResponse(page: Option<int>, total: Option<int>, sessionId: Value)

  /** The token `{session_id, page}`. */
  datatype EngageToken = EngageToken(sessionId: Value, page: int)

  /** The strategy's `_total` attribute: never assigned on a fresh
      strategy, otherwise the total retained from an earlier call. */
  datatype TotalSlot = Unset | Held(total: Option<int>)

  /** The result of one call: the token, and the total the strategy retains
      for the next call. */
  datatype PageStep = PageStep(token: Option<EngageToken>, retained: Option<int>)

  predicate TruthyCount(x: Option<int>) { x.Some? && x.value != 0 }

  /** The total in force for a call: the response's when truthy, otherwise
      the one retained from earlier pages. */
  function TotalInForce(slot: TotalSlot, resp: EngageResponse): Option<int>
    requires slot.Held? || TruthyCount(resp.total)
  {
    if TruthyCount(resp.total) then resp.total else slot.total
  }

  /** `EngagePaginationStrategy.next_page_token`; the failure is the
      AttributeError of reading `_total` before it was ever assigned, which
      a falsy total on a fresh strategy's first page causes. */
  function NextPageToken(slot: TotalSlot, resp: EngageResponse, pageSize: int): (r: Result<PageStep, string>)
    ensures r.Failure? <==> slot.Unset? && !TruthyCount(resp.total)
    ensures r.Success? ==> var total := TotalInForce(slot, resp);
      r.value.token.Some? <==> TruthyCount(total) && resp.page.Some? && total.value > pageSize * (resp.page.value + 1)
    ensures r.Success? && r.value.token.Some? ==> r.value.token.value == EngageToken(resp.sessionId, resp.page.value + 1)
    ensures r.Success? && r.value.token.Some? ==> r.value.retained == TotalInForce(slot, resp) && TruthyCount(r.value.retained)
    ensures r.Success? && r.value.token.Some? ==> pageSize * r.value.token.value.page < r.value.retained.value
    ensures r.Success? && r.value.token.None? ==> r.value.retained == None
    ensures r.Success? && resp.page.None? ==> r.value == PageStep(None, None)
  {
    if slot.Unset? && !TruthyCount(resp.total) then Failure("_total")
    else
      var total := TotalInForce(slot, resp);
      if TruthyCount(total) && resp.page.Some? && total.value > pageSize * (resp.page.value + 1) then
        Success(PageStep(Some(EngageToken(resp.sessionId, resp.page.value + 1)), total))
      else Success(PageStep(None, None))
  }

  /** Drives one partition's pagination with a fresh strategy from page 0
      against a provider that echoes the requested page and reports `total`
      on the first page only. Returns the page indexes the tokens asked
      for, the retained total left behind, and whether the first call
      raised because the first total was zero. */
  method Paginate(total: int, pageSize: int, sessionId: Value) returns (pages: seq<int>, retained: Option<int>, raised: bool)
    requires pageSize > 0
    ensures raised <==> total == 0
    ensures raised ==> pages == []
    ensures forall i :: 0 <= i < |pages| ==> pages[i] == i + 1
    ensures |pages| > 0 ==> pageSize * |pages| < total
    ensures total <= pageSize * (|pages| + 1)
    ensures retained == None
  {
    var page := 0;
    var reached := 0;
    var state: TotalSlot := Unset;
    pages := [];
    while true
      invariant 0 <= page == |pages|
      invariant reached == pageSize * page
      invariant forall i :: 0 <= i < |pages| ==> pages[i] == i + 1
      invariant page > 0 ==> reached < total && state == Held(Some(total)) && total != 0
      invariant page == 0 ==> state == Unset
      decreases total - reached
    {
      var resp := EngageResponse(Some(page), if page == 0 then Some(total) else None, sessionId);
      var result := NextPageToken(state, resp, pageSize);
      if result.Failure? {
        raised := true;
        retained := None;
        return;
      }
      var step := result.value;
      if step.token.None? {
        raised := false;
        retained := step.retained;
        return;
      }
      assert step.retained == Some(total);
      assert pageSize * (page + 1) == reached + pageSize;
      pages := pages + [step.token.value.page];
      page := page + 1;
      reached := reached + pageSize;
      state := Held(step.retained);
    }
  }

  lemma MulMonotone(d: int, a: int, b: int)
    requires d > 0 && a <= b
    ensures d * a <= d * b
  {
    assert d * b - d * a == d * (b - a);
  }

  lemma DivUnique(x: int, d: int, q: int)
    requires d > 0 && d * q <= x < d * q + d
    ensures x / d == q
  {
    var k := x / d;
    if k > q {
      MulMonotone(d, q + 1, k);
    } else if k < q {
      MulMonotone(d, k + 1, q);
    }
  }

  /** `n` tokens with `pageSize * n < total <= pageSize * (n + 1)` is exactly
      `ceil(total / pageSize) - 1` tokens, so `ceil(total / pageSize)`
      requests in all. */
  lemma TokenCount(n: nat, pageSize: int, total: int)
    requires pageSize > 0 && total > 0
    requires n == 0 || pageSize * n < total
    requires total <= pageSize * (n + 1)
    ensures n == (total + pageSize - 1) / pageSize - 1
  {
    assert pageSize * (n + 1) == pageSize * n + pageSize;
    if n == 0 {
      assert pageSize * n == 0;
    }
    DivUnique(total + pageSize - 1, pageSize, n + 1);
  }

  /** A `$`-prefixed (reserved) property name loses exactly one leading `$`. */
  function StripDollar(name: string): (r: string)
    ensures |name| > 0 && name[0] == '$' ==> name == "$" + r
    ensures !(|name| > 0 && name[0] == '$') ==> r == name
  {
    if |name| > 0 && name[0] == '$' then name[1..] else name
  }

  function Stripped(props: seq<(string, Value)>): (r: seq<(string, Value)>)
    ensures |r| == |props|
    ensures forall i :: 0 <= i < |r| ==> r[i] == (StripDollar(props[i].0), props[i].1)
  {
    if |props| == 0 then [] else [(StripDollar(props[0].0), props[0].1)] + Stripped(props[1..])
  }

  /** The `(name, value)` pairs iterating `$properties` visits: the members
      of an object; an empty list or string visits none. */
  function PropertyPairs(props: Value): seq<(string, Value)>
  {
    if props.JObj? then props.members else []
  }

  /** Whether iterating `$properties` and indexing it by each item succeeds. */
  predicate IterableProperties(props: Value)
  {
    props.JObj? || props == JArr([]) || props == JStr("")
  }

  /** `EngageTransformation.transform`. Missing `$distinct_id` or
      `$properties` raise KeyError; a `$properties` that cannot be iterated
      and indexed by name raises TypeError. */
  function Transform(record: Dict<Value>): (r: Result<Dict<Value>, string>)
    ensures r.Success? <==>
      Get(record, "$distinct_id").Some? && Get(record, "$properties").Some? && IterableProperties(Get(record, "$properties").value)
    ensures r.Success? ==>
      var pairs := Stripped(PropertyPairs(Get(record, "$properties").value));
      forall k :: Get(r.value, k) ==
        if LastOf(pairs, k).Some? then LastOf(pairs, k)
        else if k == "distinct_id" then Get(record, "$distinct_id")
        else if k == "$distinct_id" || k == "$properties" then None
        else Get(record, k)
    ensures Distinct(record) && r.Success? ==> Distinct(r.value)
  {
    match Get(record, "$distinct_id")
    case None => Failure("KeyError: '$distinct_id'")
    case Some(distinctId) =>
      var moved := Set(Remove(record, "$distinct_id"), "distinct_id", distinctId);
      match Get(moved, "$properties")
      case None => Failure("KeyError: '$properties'")
      case Some(props) =>
        if IterableProperties(props) then Success(Merge(Remove(moved, "$properties"), Stripped(PropertyPairs(props))))
        else Failure("TypeError: '$properties' cannot be indexed by property name")
  }

  /** A property and its `$`-prefixed twin collide after stripping: the one
      iterated later wins. */
  lemma LaterTwinWins(record: Dict<Value>, v1: Value, v2: Value)
    requires Get(record, "$distinct_id").Some?
    requires Get(record, "$properties") == Some(JObj([("$browser", v1), ("browser", v2)]))
    ensures Transform(record).Success?
    ensures Get(Transform(record).value, "browser") == Some(v2)
  {
    var pairs := Stripped([("$browser", v1), ("browser", v2)]);
    assert pairs[1] == ("browser", v2);
  }
}
