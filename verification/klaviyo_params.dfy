/** Request parameters of the Klaviyo streams: the token-or-page-size base,
    the incremental `greater-than` filter clamped away from "now", the
    channel filter of Campaigns, and the archived-records filter. */
module KlaviyoParams {
  import opened Wrappers
  import opened Dicts
  import opened Text
  import opened KlaviyoState

  /** Klaviyo rejects filters too close to the current time. */
  const SafetyMarginSeconds: int := 3

  const ArchivedFilter: string := "equals(archived,true)"

  /** The streams that also read archived records, each with its own
      `request_params` override and cursor field. */
  datatype StreamKind = Flows | Campaigns | CampaignsDetailed

  function CursorField(kind: StreamKind): string
  {
    if kind == Flows then "updated" else "updated_at"
  }

  function Min(a: int, b: int): int { if a <= b then a else b }

  /** `KlaviyoStream.request_params`: a non-empty token carries every
      parameter already; otherwise only the page size, when one is set
      (`pageSize == 0` stands for the unset `None`). */
  function BaseParams(pageSize: nat, token: Option<Dict<string>>): (r: Dict<string>)
    ensures token.Some? && |token.value| > 0 ==> r == token.value
    ensures !(token.Some? && |token.value| > 0) && pageSize > 0 ==> r == [("page[size]", NatToString(pageSize))]
    ensures !(token.Some? && |token.value| > 0) && pageSize == 0 ==> r == []
  {
    if token.Some? && |token.value| > 0 then token.value
    else if pageSize > 0 then [("page[size]", NatToString(pageSize))]
    else []
  }

  /** The filter expression `greater-than(<field>,<instant>)`. */
  function GreaterThan(cf: string, t: int): string
  {
    "greater-than(" + cf + "," + IntToString(t) + ")"
  }

  /** Reads the instant back out of a `greater-than` filter on `cf`. */
  function FilterBound(filter: string, cf: string): Option<int>
  {
    var prefix := "greater-than(" + cf + ",";
    if |filter| > |prefix| && filter[..|prefix|] == prefix && filter[|filter| - 1] == ')'
    then ParseInt(filter[|prefix|..|filter| - 1])
    else None
  }

  lemma FilterBoundRoundTrip(cf: string, t: int)
    ensures FilterBound(GreaterThan(cf, t), cf) == Some(t)
  {
    var prefix := "greater-than(" + cf + ",";
    var f := GreaterThan(cf, t);
    assert f == prefix + IntToString(t) + ")";
    assert f[..|prefix|] == prefix;
    assert f[|prefix|..|f| - 1] == IntToString(t);
    IntRoundTrip(t);
  }

  /** The lower bound of the incremental filter: the stored cursor when it is
      set, otherwise the start date, otherwise none. The stored cursor wins
      even when the start date is later. */
  function LowerBound(cursors: map<string, Cursor>, cf: string, startTs: Cursor): (r: Option<int>)
    ensures cf in cursors && cursors[cf].At? ==> r == Some(cursors[cf].t)
    ensures !(cf in cursors && cursors[cf].At?) ==> r == (if startTs.At? then Some(startTs.t) else None)
  {
    var stored := if cf in cursors then cursors[cf] else Blank;
    var latest := if stored.At? then stored else startTs;
    if latest.At? then Some(if stored.At? then Max(latest.t, stored.t) else latest.t) else None
  }

  /** `IncrementalKlaviyoStream.request_params`. */
  function IncrementalParams(cf: string, startTs: Cursor, pageSize: nat, cursors: map<string, Cursor>,
                             token: Option<Dict<string>>, now: int): (r: Dict<string>)
    ensures var base := BaseParams(pageSize, token);
      var f := Get(base, "filter");
      && (f.Some? && f.value != "" ==> r == base)
      && (!(f.Some? && f.value != "") ==>
            && Get(r, "sort") == Some(cf)
            && (forall k :: k != "filter" && k != "sort" ==> Get(r, k) == Get(base, k))
            && (LowerBound(cursors, cf, startTs).None? ==> Get(r, "filter") == f)
            && (LowerBound(cursors, cf, startTs).Some? ==>
                  var b := LowerBound(cursors, cf, startTs).value;
                  && Get(r, "filter") == Some(GreaterThan(cf, Min(b, now - SafetyMarginSeconds)))
                  && FilterBound(Get(r, "filter").value, cf) == Some(Min(b, now - SafetyMarginSeconds))))
  {
    var params := BaseParams(pageSize, token);
    var f := Get(params, "filter");
    if f.Some? && f.value != "" then params
    else
      var bound := LowerBound(cursors, cf, startTs);
      var filtered :=
        if bound.Some? then
          var clamped := Min(bound.value, now - SafetyMarginSeconds);
          FilterBoundRoundTrip(cf, clamped);
          Set(params, "filter", GreaterThan(cf, clamped))
        else params;
      Set(filtered, "sort", cf)
  }

  /** The filter selecting the campaigns of one message channel. */
  function ChannelFilter(channel: string): string
  {
    "equals(messages.channel,'" + channel + "')"
  }

  /** `Campaigns.stream_slices`: one slice per message channel, email first. */
  function ChannelSlices(): (r: seq<string>)
    ensures r == [ChannelFilter("email"), ChannelFilter("sms")]
  {
    [ChannelFilter("email"), ChannelFilter("sms")]
  }

  /** Whether the base parameters already carry a non-empty filter, in
      which case the incremental filter and sort are not added. */
  predicate CarriesFilter(base: Dict<string>)
  {
    Get(base, "filter").Some? && Get(base, "filter").value != ""
  }

  /** `Campaigns.request_params` on top of the incremental parameters:
      append the slice's channel filter after a comma, or set it alone. */
  function WithChannel(params: Dict<string>, channel: string): (r: Dict<string>)
    ensures Get(params, "filter").Some? ==> Get(r, "filter") == Some(Get(params, "filter").value + "," + channel)
    ensures Get(params, "filter").None? ==> Get(r, "filter") == Some(channel)
    ensures forall k :: k != "filter" ==> Get(r, k) == Get(params, k)
  {
    match Get(params, "filter")
    case Some(f) => Set(params, "filter", f + "," + channel)
    case None => Set(params, "filter", channel)
  }

  /** `request_params` of the stream kinds with archived records (none of
      them sets a page size). The Campaigns kinds carry the slice's channel
      in their filter, CampaignsDetailed also asks for the campaign
      messages, and no other parameter of the base differs. */
  function StreamParams(kind: StreamKind, cursors: map<string, Cursor>, startTs: Cursor, channel: string,
                        token: Option<Dict<string>>, now: int): (r: Dict<string>)
    ensures kind != Flows ==> Get(r, "filter").Some? && Contains(Get(r, "filter").value, channel)
    ensures kind == CampaignsDetailed ==> Get(r, "include") == Some("campaign-messages")
    ensures !CarriesFilter(BaseParams(0, token)) ==> Get(r, "sort") == Some(CursorField(kind))
    ensures forall k :: k != "filter" && k != "sort" && (kind == CampaignsDetailed ==> k != "include") ==>
      Get(r, k) == Get(BaseParams(0, token), k)
    decreases if kind == CampaignsDetailed then 1 else 0
  {
    match kind
    case Flows => IncrementalParams(CursorField(Flows), startTs, 0, cursors, token, now)
    case Campaigns =>
      var inner := IncrementalParams(CursorField(Campaigns), startTs, 0, cursors, token, now);
      if Get(inner, "filter").Some? then
        ContainsSuffix(Get(inner, "filter").value + ",", channel);
        WithChannel(inner, channel)
      else
        ContainsSuffix("", channel);
        assert "" + channel == channel;
        WithChannel(inner, channel)
    case CampaignsDetailed =>
      Set(StreamParams(Campaigns, cursors, startTs, channel, token, now), "include", "campaign-messages")
  }

  /** `ArchivedRecordsStream.request_params` after the base stream's: the
      archived filter is added exactly once. */
  function AppendArchived(params: Dict<string>): (r: Dict<string>)
    ensures Get(r, "filter").Some? && Contains(Get(r, "filter").value, ArchivedFilter)
    ensures forall k :: k != "filter" ==> Get(r, k) == Get(params, k)
    ensures Get(params, "filter").None? ==> Get(r, "filter") == Some(ArchivedFilter)
    ensures Get(params, "filter").Some? && Contains(Get(params, "filter").value, ArchivedFilter) ==> r == params
    ensures Get(params, "filter").Some? && !Contains(Get(params, "filter").value, ArchivedFilter) ==>
      Get(r, "filter") == Some(Get(params, "filter").value + "," + ArchivedFilter)
  {
    var f := Get(params, "filter");
    if f.Some? then
      if !Contains(f.value, ArchivedFilter) then
        ContainsSuffix(f.value + ",", ArchivedFilter);
        Set(params, "filter", f.value + "," + ArchivedFilter)
      else params
    else
      ContainsSuffix("", ArchivedFilter);
      assert "" + ArchivedFilter == ArchivedFilter;
      Set(params, "filter", ArchivedFilter)
  }

  /** The archived pass reads its cursor from the `"archived"` namespace. */
  function ArchivedCursors(state: Option<StreamState>): map<string, Cursor>
  {
    if state.Some? && state.value.archived.Some? then state.value.archived.value else map[]
  }

  /** The request parameters of the archived pass of a stream: the base
      stream's, built from the archived cursors only, with the archived
      filter; every other parameter is the base stream's. */
  function ArchivedParams(kind: StreamKind, state: Option<StreamState>, startTs: Cursor, channel: string,
                          token: Option<Dict<string>>, now: int): (r: Dict<string>)
    ensures Get(r, "filter").Some? && Contains(Get(r, "filter").value, ArchivedFilter)
    ensures kind == CampaignsDetailed ==> Get(r, "include") == Some("campaign-messages")
    ensures !CarriesFilter(BaseParams(0, token)) ==> Get(r, "sort") == Some(CursorField(kind))
    ensures forall k :: k != "filter" && k != "sort" && (kind == CampaignsDetailed ==> k != "include") ==>
      Get(r, k) == Get(BaseParams(0, token), k)
  {
    AppendArchived(StreamParams(kind, ArchivedCursors(state), startTs, channel, token, now))
  }

  /** The archived pass reads only the `"archived"` part of the state: two
      states with the same archived cursors give the same parameters,
      whatever their primary cursors. */
  lemma ArchivedIgnoresPrimaryCursors(kind: StreamKind, s1: StreamState, s2: StreamState, startTs: Cursor,
                                      channel: string, token: Option<Dict<string>>, now: int)
    requires s1.archived == s2.archived
    ensures ArchivedParams(kind, Some(s1), startTs, channel, token, now)
            == ArchivedParams(kind, Some(s2), startTs, channel, token, now)
  {
  }

  /** Adding the archived filter a second time changes nothing. */
  lemma AppendArchivedIdempotent(params: Dict<string>)
    ensures AppendArchived(AppendArchived(params)) == AppendArchived(params)
  {
  }

  /** The stored cursor is the bound even when the start date is later:
      the bound is not the later of the two. */
  lemma StoredCursorBeatsLaterStart(cf: string, stored: int, start: int)
    requires stored < start
    ensures LowerBound(map[cf := At(stored)], cf, At(start)) == Some(stored)
  {
  }

  /** Whatever the state, page size or token, a filter the stream builds
      never names an instant later than three seconds before `now`. */
  lemma FilterNeverNearNow(cf: string, startTs: Cursor, pageSize: nat, cursors: map<string, Cursor>,
                           token: Option<Dict<string>>, now: int)
    requires LowerBound(cursors, cf, startTs).Some? && !CarriesFilter(BaseParams(pageSize, token))
    ensures var r := IncrementalParams(cf, startTs, pageSize, cursors, token, now);
      && Get(r, "filter").Some?
      && FilterBound(Get(r, "filter").value, cf).Some?
      && FilterBound(Get(r, "filter").value, cf).value <= now - SafetyMarginSeconds
  {
  }

  /** A first request (no token, no stored cursor, no start date) carries
      only the sort order: no filter at all. */
  lemma NoBoundNoFilter(cf: string, now: int)
    ensures IncrementalParams(cf, Blank, 0, map[], None, now) == [("sort", cf)]
  {
  }

  /** The archived pass of Flows, on its first page, filters on the archived
      cursor (clamped) and then on archived records. */
  lemma FlowsArchivedFirstPage(state: StreamState, startTs: Cursor, t: int, now: int)
    requires state.archived.Some? && "updated" in state.archived.value
    requires state.archived.value["updated"] == At(t)
    ensures var r := ArchivedParams(Flows, Some(state), startTs, "", None, now);
      && Get(r, "filter") == Some(GreaterThan("updated", Min(t, now - SafetyMarginSeconds)) + "," + ArchivedFilter)
      && Get(r, "sort") == Some("updated")
  {
    var g := GreaterThan("updated", Min(t, now - SafetyMarginSeconds));
    var digits := IntToString(Min(t, now - SafetyMarginSeconds));
    assert g == "greater-than(updated," + digits + ")";
    assert ArchivedFilter[12] == 'v';
    forall k | 0 <= k < |g| ensures g[k] != 'v' {
      if k >= 21 && k < 21 + |digits| {
        assert g[k] == digits[k - 21];
      }
    }
    MissingCharNotContained(g, ArchivedFilter, 12);
    var params := IncrementalParams("updated", startTs, 0, state.archived.value, None, now);
    assert Get(params, "filter") == Some(g);
  }
}
