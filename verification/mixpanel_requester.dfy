/** The Mixpanel requesters: the region-dependent URL base, the project id
    query parameter, the flattening of the paginator's `page` sub-map into
    the top-level query parameters, and the Annotations URL suffix. */
module MixpanelRequester {
  import opened Wrappers
  import opened Dicts
  import opened Json
  import Text

  const RegionMarker := "US."

  /** `get_url_base`: the interpolated base with every `"US."` removed, so
      the US region uses the bare host; a base without the marker, such as
      the EU one, is kept as it is. */
  function UrlBase(interpolated: string): (r: string)
    ensures |r| <= |interpolated|
    ensures !Text.Contains(interpolated, RegionMarker) ==> r == interpolated
  {
    Text.ReplaceShrinks(interpolated, RegionMarker);
    Text.KeptIfAbsent(interpolated, RegionMarker, "");
    Text.ReplaceAll(interpolated, RegionMarker, "")
  }

  /** The US region marker between the scheme and the host is removed:
      `https://US.mixpanel.com/...` becomes `https://mixpanel.com/...`. */
  lemma StripsRegion(scheme: string, tail: string)
    requires 'U' !in scheme && 'S' !in tail
    ensures UrlBase(scheme + RegionMarker + tail) == scheme + tail
  {
    var url := scheme + RegionMarker + tail;
    assert url == scheme + (RegionMarker + tail);
    Text.MissingCharNotContained(tail, RegionMarker, 1);
    Text.ReplaceAbsent(tail, RegionMarker, "");
    Text.ReplaceLeading(tail, RegionMarker, "");
    assert Text.ReplaceAll(RegionMarker + tail, RegionMarker, "") == tail;
    Text.ReplaceSkips(scheme, RegionMarker + tail, RegionMarker, "");
    assert Text.ReplaceAll(url, RegionMarker, "") == scheme + tail;
    assert UrlBase(url) == Text.ReplaceAll(url, RegionMarker, "");
  }

  /** `config.get("credentials", {}).get("project_id", fallback)`. */
  function ProjectId(config: Value, fallback: Option<Value>): (r: Option<Value>)
    ensures r != fallback ==> Field(config, "credentials").Some? && Field(Field(config, "credentials").value, "project_id") == r
  {
    match Field(config, "credentials")
    case None => fallback
    case Some(credentials) =>
      match Field(credentials, "project_id")
      case None => fallback
      case Some(id) => Some(id)
  }

  /** `MixpanelHttpRequester.get_request_params`: the project id as the only
      parameter when it is truthy, otherwise no parameters. */
  function RequestParams(config: Value): (r: Dict<Value>)
    ensures Keys(r) <= {"project_id"}
    ensures Get(r, "project_id").Some? <==> ProjectId(config, None).Some? && Truthy(ProjectId(config, None).value)
    ensures Get(r, "project_id").Some? ==> Get(r, "project_id") == ProjectId(config, None)
  {
    match ProjectId(config, None)
    case Some(id) =>
      if Truthy(id) then
        assert [("project_id", id)][1..] == [];
        [("project_id", id)]
      else []
    case None => []
  }

  /** One element of the iterable `dict.update` consumes when it is not
      given a mapping: a two-element list whose first element is a string
      key, a two-character string, or a two-key object (iterated as its
      keys). */
  function ItemPair(item: Value): Option<(string, Value)>
  {
    match item
    case JArr(xs) => if |xs| == 2 && xs[0].JStr? then Some((xs[0].s, xs[1])) else None
    case JStr(s) => if |s| == 2 then Some((s[..1], JStr(s[1..]))) else None
    case JObj(ms) => if |ms| == 2 then Some((ms[0].0, JStr(ms[1].0))) else None
    case _ => None
  }

  function ItemPairs(items: seq<Value>): (r: Option<seq<(string, Value)>>)
    ensures r.Some? <==> forall i :: 0 <= i < |items| ==> ItemPair(items[i]).Some?
    ensures r.Some? ==> |r.value| == |items| && forall i :: 0 <= i < |items| ==> ItemPair(items[i]) == Some(r.value[i])
  {
    if |items| == 0 then Some([])
    else match ItemPair(items[0])
      case None => None
      case Some(p) =>
        match ItemPairs(items[1..])
        case None =>
          assert exists i :: 1 <= i < |items| && ItemPair(items[i]).None? by {
            var j :| 0 <= j < |items[1..]| && ItemPair(items[1..][j]).None?;
            assert items[1..][j] == items[j + 1];
          }
          None
        case Some(rest) =>
          assert forall i :: 1 <= i < |items| ==> items[i] == items[1..][i - 1];
          Some([p] + rest)
  }

  /** The pairs `dict.update(v)` assigns, in order; `None` where it raises
      (TypeError for a scalar, ValueError for an element that is not a
      pair). */
  function UpdatePairs(v: Value): (r: Option<seq<(string, Value)>>)
    ensures v.JObj? ==> r == Some(v.members)
    ensures v.JNull? || v.JBool? || v.JNum? ==> r.None?
    ensures (v.JStr? || v.JArr?) && !Truthy(v) ==> r == Some([])
    ensures v.JStr? && Truthy(v) ==> r.None?
    ensures v.JArr? ==> r == ItemPairs(v.items)
  {
    match v
    case JObj(ms) => Some(ms)
    case JArr(items) => ItemPairs(items)
    case JStr(s) => if |s| == 0 then Some([]) else None
    case _ => None
  }

  /** `MixpanelHttpRequester._request_params`'s flattening of the extra
      parameters: empty extras pass through; otherwise `page` (default `{}`)
      is popped and its pairs are assigned at the top level in order. A
      `page` that `dict.update` rejects fails. The next page token is
      dropped before the base class sees it, so it is not an input here. */
  function FlattenExtra(extra: Dict<Value>): (r: Result<Dict<Value>, Value>)
    ensures |extra| == 0 ==> r == Success(extra)
    ensures r.Failure? <==> |extra| > 0 && Get(extra, "page").Some? && UpdatePairs(Get(extra, "page").value).None?
    ensures r.Failure? ==> Get(extra, "page") == Some(r.error)
    ensures r.Success? && |extra| > 0 ==>
      var pairs := UpdatePairs(Get(extra, "page").GetOr(JObj([]))).value;
      && Get(r.value, "page") == LastOf(pairs, "page")
      && (forall k :: k != "page" ==> Get(r.value, k) == if LastOf(pairs, k).Some? then LastOf(pairs, k) else Get(extra, k))
    ensures r.Success? && Distinct(extra) ==> Distinct(r.value)
  {
    if |extra| == 0 then Success(extra)
    else
      var page := Get(extra, "page").GetOr(JObj([]));
      match UpdatePairs(page)
      case None => Failure(page)
      case Some(pairs) => Success(Merge(Remove(extra, "page"), pairs))
  }

  /** A falsy `page` container (`{}`, `[]`, `""`) only removes `page`. */
  lemma EmptyPageOnlyRemoved(extra: Dict<Value>, k: string)
    requires |extra| > 0 && Get(extra, "page").Some?
    requires var page := Get(extra, "page").value; (page.JObj? || page.JArr? || page.JStr?) && !Truthy(page)
    ensures FlattenExtra(extra).Success?
    ensures Get(FlattenExtra(extra).value, k) == if k == "page" then None else Get(extra, k)
  {
  }

  /** Every page member overrides the same-named top-level parameter. */
  lemma PageMembersWin(extra: Dict<Value>, k: string)
    requires |extra| > 0 && Get(extra, "page").Some? && Get(extra, "page").value.JObj?
    requires Distinct(Get(extra, "page").value.members) && k in Keys(Get(extra, "page").value.members)
    ensures FlattenExtra(extra).Success?
    ensures Get(FlattenExtra(extra).value, k) == Get(Get(extra, "page").value.members, k)
  {
    LastOfDistinct(Get(extra, "page").value.members, k);
  }

  /** Without a `page` entry, the flattening changes nothing a lookup sees. */
  lemma NoPageNoChange(extra: Dict<Value>, k: string)
    requires "page" !in Keys(extra)
    ensures FlattenExtra(extra).Success?
    ensures Get(FlattenExtra(extra).value, k) == Get(extra, k)
  {
  }

  /** `AnnotationsHttpRequester.get_url_base`: the region-adjusted base
      followed by `"<project_id>/"` when the project id is truthy. */
  function AnnotationsUrlBase(interpolated: string, config: Value): (r: string)
    ensures |r| >= |UrlBase(interpolated)| && r[..|UrlBase(interpolated)|] == UrlBase(interpolated)
    ensures var id := ProjectId(config, Some(JStr(""))).value;
            if Truthy(id) then r[|UrlBase(interpolated)|..] == Str(id) + "/" else r == UrlBase(interpolated)
  {
    var id := ProjectId(config, Some(JStr(""))).value;
    UrlBase(interpolated) + (if Truthy(id) then Str(id) + "/" else "")
  }

  /** `AnnotationsHttpRequester.get_request_params`: no parameters. */
  function AnnotationsRequestParams(config: Value): Dict<Value>
  {
    []
  }

  /** Annotations moves a truthy project id out of the query and into the
      path: the plain requester sends it as a parameter, the Annotations
      requester sends no parameter and ends its URL base with it. */
  lemma AnnotationsMovesProjectIdToPath(interpolated: string, config: Value)
    requires ProjectId(config, None).Some? && Truthy(ProjectId(config, None).value)
    ensures Get(RequestParams(config), "project_id") == ProjectId(config, None)
    ensures AnnotationsRequestParams(config) == []
    ensures AnnotationsUrlBase(interpolated, config) == UrlBase(interpolated) + Str(ProjectId(config, None).value) + "/"
  {
  }
}
