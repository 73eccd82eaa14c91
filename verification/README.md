# Incremental-extraction decisions of three Airbyte connectors, in Dafny

This project models the pure decision logic that three Airbyte source
connectors, and one CDK class they build on, use to page, filter, checkpoint
and retry their HTTP reads. It then proves properties of that model.

- **Klaviyo** (`source_klaviyo/streams.py`):
  - turning the `links.next` URL into the next page token;
  - the request-parameter chain: base, incremental filter with the "now − 3 s"
    clamp, Campaigns channel slice, CampaignsDetailed `include`, and the
    archived-records filter;
  - the monotone cursor state, with its separate `"archived"` namespace;
  - the 429 classification against `max_time`, and `read_records` catching the
    backoff error, for a single stream and for the primary + archived passes;
  - the campaign → campaign-message join.
- **Mixpanel** (`source_mixpanel/components.py`):
  - the Engage page + session paginator, whose retained `_total` (unset on a
    fresh strategy) is passed in and out explicitly, plus a driver proving
    that pagination terminates;
  - the Funnels partition router;
  - the Revenue/Funnels date flattening;
  - the Engage record flattening;
  - the requester's URL base, project-id parameter, `page` flattening and
    Annotations suffix.
- **CDK** (`request_option.py`): the `RequestOption` constructor's validation,
  its accessors and `is_path`.
- **Salesforce** (`async_salesforce/`):
  - the availability classification of HTTP errors;
  - `should_give_up`;
  - the retry contract of `default_backoff_handler`: exponential waits, no
    jitter, `max_tries`, and only transient exceptions retried.

Modelling conventions:

- **Dicts.** Python dicts are ordered association lists (`Dicts.Dict`).
  Assignment keeps a key's position, a new key is appended, `pop` removes the
  key, and `update` assigns pairs in order.
- **JSON.** Decoded JSON is `Json.Value`, with Python truthiness and `str()`.
- **Timestamps.** Timestamps are integers (seconds), and `now` is a
  parameter. `isoformat`/`pendulum.parse` become `Text.IntToString` and
  `Text.ParseInt`. `Text.IntRoundTrip` proves that `ParseInt` undoes
  `IntToString`; the converse fails for inputs such as `"07"`.
- **Network calls.** The network, the clock and the `backoff` library's sleeping are not
  modelled. Each call's outcome is an input: a sequence of read events, or a
  function from try number to outcome.

Where the intended design and the code differ, the model follows the code:

- **Klaviyo incremental lower bound.** It is the stored cursor when one is
  stored, otherwise the start date. It is not the later of the two
  (`KlaviyoParams.LowerBound`, `KlaviyoParams.StoredCursorBeatsLaterStart`).
  The `max(latest_cursor, parse(stored))` at streams.py:156-157 compares the
  stored cursor with itself.
- **Salesforce 403 with `REQUEST_LIMIT_EXCEEDED`.** It is given up on, not
  retried (`SalesforceRetry.ForbiddenLimitGivesUp`,
  `SalesforceRetry.ForbiddenLimitNotRetried`).
- **Salesforce aiohttp exceptions.** The four aiohttp classes are listed as
  transient, but none has a `response` attribute. `should_give_up` raises
  AttributeError on its first line (rate_limiting.py:31), so they are never
  retried (`SalesforceRetry.AiohttpNeverRetried`).
- **Mixpanel Funnels and `$overall`.** The Funnels extractor's docstring says
  `$overall` should be skipped, but its loop (components.py:214-216) keeps it.
  Only Revenue skips it (`MixpanelExtractors.Funnels`,
  `MixpanelExtractors.RevenueIsFunnelsWithoutOverall`).

## Model

| member | source | states |
|---|---|---|
| Dicts.Set | airbyte-integrations/connectors/source-mixpanel/source_mixpanel/components.py:135 | Python `d[k] = v`: the key reads `v`, other keys are unchanged, existing keys keep their positions, a new key is added, and uniqueness of keys is preserved |
| Dicts.Remove | airbyte-integrations/connectors/source-mixpanel/source_mixpanel/components.py:136 | Python `d.pop(k)`: the key is gone, every other key reads as before, and uniqueness is preserved |
| Dicts.Merge | airbyte-integrations/connectors/source-mixpanel/source_mixpanel/components.py:86 | `d.update(pairs)`: a key reads the value of its last pair if it has one, otherwise its old value; no key is lost |
| Text.IntRoundTrip | airbyte-integrations/connectors/source-klaviyo/source_klaviyo/streams.py:98-101 | rendering a timestamp and parsing it back gives the same timestamp, which stands in for `isoformat`/`pendulum.parse` |
| KlaviyoPagination.NextPageToken | airbyte-integrations/connectors/source-klaviyo/source_klaviyo/streams.py:54-61 | no token exactly when `links.next` is absent or empty; otherwise a dict in which every key reads the value of its LAST occurrence in the link's query |
| KlaviyoPagination.NextLinkRoundTrip | airbyte-integrations/connectors/source-klaviyo/source_klaviyo/streams.py:60-61 | a next link built from plain query pairs yields exactly the dict of those pairs, with later duplicates overriding |
| KlaviyoParams.BaseParams | airbyte-integrations/connectors/source-klaviyo/source_klaviyo/streams.py:69-73 | a non-empty token is returned verbatim; otherwise `{"page[size]": n}` when a page size is set, else `{}`; an empty token counts as absent |
| KlaviyoParams.FilterBoundRoundTrip | airbyte-integrations/connectors/source-klaviyo/source_klaviyo/streams.py:162 | the bound written into `greater-than(<field>,<bound>)` can be read back exactly |
| KlaviyoParams.LowerBound | airbyte-integrations/connectors/source-klaviyo/source_klaviyo/streams.py:152-157 | the bound is the stored cursor when one is stored, otherwise the start date, otherwise none |
| KlaviyoParams.IncrementalParams | airbyte-integrations/connectors/source-klaviyo/source_klaviyo/streams.py:148-164 | params that already carry a truthy filter are returned unchanged; otherwise `sort` is the cursor field, the filter is `greater-than(<cursor>,<min(bound, now − 3)>)` and reads back as that bound, no filter is added without a bound, and other keys are unchanged |
| KlaviyoParams.StoredCursorBeatsLaterStart | airbyte-integrations/connectors/source-klaviyo/source_klaviyo/streams.py:153-157 | a stored cursor earlier than the start date is still the bound: the bound is not the later of the two |
| KlaviyoParams.FilterNeverNearNow | airbyte-integrations/connectors/source-klaviyo/source_klaviyo/streams.py:151-162 | for any page size and any token that carries no filter of its own, whenever a bound exists the built filter names an instant at most now − 3 s |
| KlaviyoParams.NoBoundNoFilter | airbyte-integrations/connectors/source-klaviyo/source_klaviyo/streams.py:151-163 | with no token, no stored cursor and no start date, the params are just `{"sort": field}` |
| KlaviyoParams.ChannelSlices | airbyte-integrations/connectors/source-klaviyo/source_klaviyo/streams.py:245-247 | exactly two slices, in order: `equals(messages.channel,'email')`, then `equals(messages.channel,'sms')` |
| KlaviyoParams.WithChannel | airbyte-integrations/connectors/source-klaviyo/source_klaviyo/streams.py:256-260 | the slice's channel filter is appended after a comma, or set alone when there is no filter; nothing else changes |
| KlaviyoParams.StreamParams | airbyte-integrations/connectors/source-klaviyo/source_klaviyo/streams.py:249-279 | Campaigns and CampaignsDetailed requests carry the slice's channel in their filter; CampaignsDetailed sets `include` to `campaign-messages`; `sort` is the cursor field when the base carries no filter; no other base parameter changes |
| KlaviyoParams.AppendArchived | airbyte-integrations/connectors/source-klaviyo/source_klaviyo/streams.py:190-195 | the resulting filter always contains `equals(archived,true)`: appended once after a comma, set alone when there is no filter, unchanged when already present; other keys are untouched |
| KlaviyoParams.AppendArchivedIdempotent | airbyte-integrations/connectors/source-klaviyo/source_klaviyo/streams.py:191-194 | adding the archived filter twice is the same as adding it once |
| KlaviyoParams.ArchivedParams | airbyte-integrations/connectors/source-klaviyo/source_klaviyo/streams.py:186-195 | the archived pass's filter always contains `equals(archived,true)`; `include` and `sort` are those of the base stream; no other base parameter changes |
| KlaviyoParams.ArchivedIgnoresPrimaryCursors | airbyte-integrations/connectors/source-klaviyo/source_klaviyo/streams.py:186-189 | the archived pass reads only `state["archived"]`: states that agree there give the same parameters |
| KlaviyoParams.FlowsArchivedFirstPage | airbyte-integrations/connectors/source-klaviyo/source_klaviyo/streams.py:186-195 | the archived pass reads its bound from `state["archived"]` and ends up with `greater-than(updated,<clamped bound>),equals(archived,true)` |
| KlaviyoState.Advance | airbyte-integrations/connectors/source-klaviyo/source_klaviyo/streams.py:98-100 | the new cursor is the record's cursor or the prior value, and is at least both |
| KlaviyoState.UpdatedState | airbyte-integrations/connectors/source-klaviyo/source_klaviyo/streams.py:97-102 | the stored cursor becomes the maximum of the record's cursor and the prior value (the start date when nothing is stored); other cursors and the archived namespace are unchanged |
| KlaviyoState.UpdatedStateWithArchived | airbyte-integrations/connectors/source-klaviyo/source_klaviyo/streams.py:213-221 | an archived record only replaces `state["archived"]` with `{field: max(record, archived value or start)}`; any other record goes through the primary update and leaves `"archived"` as it was |
| KlaviyoState.ReplayIsMaximum | airbyte-integrations/connectors/source-klaviyo/source_klaviyo/streams.py:97-102 | after a run of records the stored cursor is the maximum of all their cursors and the prior value |
| KlaviyoState.ReplayMonotone | airbyte-integrations/connectors/source-klaviyo/source_klaviyo/streams.py:97-102 | the stored cursor never moves backwards as records are fed in |
| KlaviyoBackoff.BackoffTime | airbyte-integrations/connectors/source-klaviyo/source_klaviyo/streams.py:104-112 | a non-429 gives no wait; a 429 raises `KlaviyoBackoffError` exactly when its non-zero Retry-After is at least `max_time`; otherwise the Retry-After is the wait, none without the header |
| KlaviyoBackoff.ReadRecords | airbyte-integrations/connectors/source-klaviyo/source_klaviyo/streams.py:121-124 | the read yields the records before the stopping event; it stops when the events run out, when an unaffordable 429 raises the backoff error, which is caught and logged, or when another error propagates |
| KlaviyoBackoff.ReadsEverything | airbyte-integrations/connectors/source-klaviyo/source_klaviyo/streams.py:121-122 | without errors and with every 429 affordable, every record is yielded and the read ends normally |
| KlaviyoBackoff.ReadWithArchived | airbyte-integrations/connectors/source-klaviyo/source_klaviyo/streams.py:230-231 | the archived pass, read as its own stream with its own name, follows the primary one unless an error propagated out of the primary pass |
| KlaviyoBackoff.ArchivedPassFollowsPrimary | airbyte-integrations/connectors/source-klaviyo/source_klaviyo/streams.py:121-124 | a primary pass that runs to its end reads like one stream of both passes, except that a backoff error names the archived stream; one cut short by a backoff still lets all archived records through |
| KlaviyoBackoff.ReadRenamed | airbyte-integrations/connectors/source-klaviyo/source_klaviyo/streams.py:109-111 | a stream's name changes only the name its backoff error carries, never the records read or how the read ends |
| KlaviyoCampaigns.CampaignMessages | airbyte-integrations/connectors/source-klaviyo/source_klaviyo/streams.py:312-313 | the map holds exactly the included resources of type `campaign-message`, keyed by id, each id once; when an id repeats, the last resource with that id is the value |
| KlaviyoCampaigns.LinkedMessages | airbyte-integrations/connectors/source-klaviyo/source_klaviyo/streams.py:303-309 | one message per related id that is non-empty and found, in relationship order; ids without a message are dropped |
| KlaviyoCampaigns.JoinFollowsRelationships | airbyte-integrations/connectors/source-klaviyo/source_klaviyo/streams.py:304-313 | the i-th linked message is an included `campaign-message` whose id is the i-th kept related id |
| KlaviyoCampaigns.MatchedIffIncluded | airbyte-integrations/connectors/source-klaviyo/source_klaviyo/streams.py:306-313 | a related id is matched exactly when the response includes a `campaign-message` with that id |
| MixpanelEngage.NextPageToken | airbyte-integrations/connectors/source-mixpanel/source_mixpanel/components.py:289-302 | on a fresh strategy a falsy `total` raises AttributeError reading the unset `_total`; otherwise a token is issued exactly when the total in force is truthy, `page` is present, and total > page_size·(page+1); the token is `{session_id, page+1}`; a truthy response `total` overwrites the retained one; every None result resets it |
| MixpanelEngage.Paginate | airbyte-integrations/connectors/source-mixpanel/source_mixpanel/components.py:289-302 | with a fresh strategy, a fixed total and page_size > 0, a run from page 0 stops; it raises exactly when the total is 0; otherwise the pages issued are 1, 2, … with page_size·p < total, the last one is the final page, and the retained total ends reset |
| MixpanelEngage.TokenCount | airbyte-integrations/connectors/source-mixpanel/source_mixpanel/components.py:295 | such a run issues exactly ceil(total/page_size) − 1 tokens |
| MixpanelEngage.StripDollar | airbyte-integrations/connectors/source-mixpanel/source_mixpanel/components.py:139-143 | exactly one leading `$` is removed; other names are kept |
| MixpanelEngage.Transform | airbyte-integrations/connectors/source-mixpanel/source_mixpanel/components.py:135-146 | fails exactly when `$distinct_id` or `$properties` is missing or the properties are not iterable; otherwise `distinct_id` takes `$distinct_id`, `$properties` is gone, and each property reads at its stripped name, with later writes winning |
| MixpanelEngage.LaterTwinWins | airbyte-integrations/connectors/source-mixpanel/source_mixpanel/components.py:137-144 | when `$browser` and `browser` are both properties, the later one is what `browser` ends up holding |
| MixpanelRouter.KeyPath | airbyte-integrations/connectors/source-mixpanel/source_mixpanel/components.py:251 | the segments `dpath.util.get` walks: none for `"/"`, a key without `/` as its one segment, and a run of separators as the one segment `""` |
| MixpanelRouter.LeadingSeparatorSameProjection | airbyte-integrations/connectors/source-mixpanel/source_mixpanel/components.py:251-263 | a parent key with a leading `/` yields the same partitions as the key without it |
| MixpanelRouter.RootPathIsRecord | airbyte-integrations/connectors/source-mixpanel/source_mixpanel/components.py:251-263 | the parent key `"/"` resolves on every record and puts the whole record in the partition field |
| MixpanelRouter.Project | airbyte-integrations/connectors/source-mixpanel/source_mixpanel/components.py:242-263 | a parent item yields a partition exactly when it is a record whose key path (`KeyPath`) resolves; the partition is `{field: value, "funnel_name": record.get("name"), "parent_slice": parent partition}`, with `funnel_name` and `parent_slice` written after the field, and an empty cursor slice |
| Json.Lookup | airbyte-integrations/connectors/source-mixpanel/source_mixpanel/components.py:251 | `dpath.util.get` along a `/`-separated path: an empty path gives the value itself, a one-segment path is a plain key lookup, and a longer path that resolves starts at an object |
| MixpanelRouter.StreamSlices | airbyte-integrations/connectors/source-mixpanel/source_mixpanel/components.py:226-266 | the router yields the projection of every (config, parent slice, parent item) triple in that nested order, and nothing for an empty config list |
| MixpanelRouter.OnePartitionPerResolvingRecord | airbyte-integrations/connectors/source-mixpanel/source_mixpanel/components.py:250-263 | exactly one partition per record whose path resolves |
| MixpanelRouter.SkippedItemChangesNothing | airbyte-integrations/connectors/source-mixpanel/source_mixpanel/components.py:242-255 | a non-record message or a path miss is skipped without affecting the partitions of the items around it |
| MixpanelExtractors.KeptEntries | airbyte-integrations/connectors/source-mixpanel/source_mixpanel/components.py:179-180 | the visited entries are those of the record, leaving out exactly `$overall` when it is skipped; without skipping, or without `$overall`, they are the record itself, in order |
| MixpanelExtractors.OverallEntryRemoved | airbyte-integrations/connectors/source-mixpanel/source_mixpanel/components.py:179-180 | skipping removes the one `$overall` entry and keeps every other entry in its order |
| MixpanelExtractors.Dated | airbyte-integrations/connectors/source-mixpanel/source_mixpanel/components.py:181 | `{"date": key, **entry}`: `date` is the key unless the entry has its own `date`; every other field is the entry's; a non-mapping entry is an error |
| MixpanelExtractors.FlattenEntries | airbyte-integrations/connectors/source-mixpanel/source_mixpanel/components.py:177-182 | one output record per visited entry, in order, each the dated entry; fails exactly when some entry is not a mapping |
| MixpanelExtractors.Revenue | airbyte-integrations/connectors/source-mixpanel/source_mixpanel/components.py:177-182 | on success there is one record per kept entry, in order: the i-th is the i-th kept entry with its key as `date`; every entry of every record other than `$overall` is emitted, and every record emitted comes from such an entry and carries distinct keys; a failure names such an entry that is not a mapping |
| MixpanelExtractors.Funnels | airbyte-integrations/connectors/source-mixpanel/source_mixpanel/components.py:213-217 | on success there is one record per entry, in order: the i-th is the i-th entry with its key as `date`; every entry of every record, `$overall` included, is emitted, and every record emitted comes from such an entry and carries distinct keys; a failure names such an entry that is not a mapping |
| MixpanelExtractors.RevenueIsFunnelsWithoutOverall | airbyte-integrations/connectors/source-mixpanel/source_mixpanel/components.py:177-217 | without a `$overall` key, Revenue and Funnels give the same records |
| MixpanelExtractors.VisitedEntries | airbyte-integrations/connectors/source-mixpanel/source_mixpanel/components.py:178-180 | an entry is emitted exactly when it belongs to some record and, for Revenue, its key is not `$overall` |
| MixpanelRequester.StripsRegion | airbyte-integrations/connectors/source-mixpanel/source_mixpanel/components.py:54-60 | the `US.` region prefix of the host is removed, giving the bare host |
| MixpanelRequester.UrlBase | airbyte-integrations/connectors/source-mixpanel/source_mixpanel/components.py:54-60 | the base never grows, and a base without `US.`, such as the EU one, is kept as it is |
| MixpanelRequester.RequestParams | airbyte-integrations/connectors/source-mixpanel/source_mixpanel/components.py:70-71 | `{project_id}` exactly when the configured project id is truthy, otherwise `{}` |
| MixpanelRequester.FlattenExtra | airbyte-integrations/connectors/source-mixpanel/source_mixpanel/components.py:83-87 | empty extras pass through; otherwise `page` is removed and the pairs `dict.update` takes from it (an object's members, a list's two-element items, nothing from `[]` or `""`) are assigned at the top level, overriding same-named keys; a `page` that `update` rejects fails |
| MixpanelRequester.PageMembersWin | airbyte-integrations/connectors/source-mixpanel/source_mixpanel/components.py:85-86 | a member of `page` overrides the same-named top-level parameter |
| MixpanelRequester.EmptyPageOnlyRemoved | airbyte-integrations/connectors/source-mixpanel/source_mixpanel/components.py:85-86 | a falsy `page` (`{}`, `[]` or `""`) only removes `page`; every other key reads as before |
| MixpanelRequester.AnnotationsUrlBase | airbyte-integrations/connectors/source-mixpanel/source_mixpanel/components.py:96-98 | the region-adjusted base, followed by `<project_id>/` exactly when the project id is truthy |
| RequestOptions.TypeByName | airbyte-cdk/python/airbyte_cdk/sources/declarative/requesters/paginators/request_option.py:31-32 | a resolved option type carries the name it was looked up by |
| RequestOptions.NameRoundTrip | airbyte-cdk/python/airbyte_cdk/sources/declarative/requesters/paginators/request_option.py:8-32 | every member resolves from its own name, and a name resolves exactly when it names a member |
| RequestOptions.New | airbyte-cdk/python/airbyte_cdk/sources/declarative/requesters/paginators/request_option.py:25-42 | an unknown type name raises KeyError; `path` with a field name raises ValueError with its message; `path` without a path stores `{{ next_page_token }}`; another type without a field name or with a truthy path raises ValueError; otherwise the type, the field name and the given path are stored |
| RequestOptions.ConstructedIsValid | airbyte-cdk/python/airbyte_cdk/sources/declarative/requesters/paginators/request_option.py:35-58 | every constructed option is valid, `is_path()` holds exactly for the `path` type, and a type name behaves as its member |
| RequestOptions.IsPath | airbyte-cdk/python/airbyte_cdk/sources/declarative/requesters/paginators/request_option.py:57-58 | on a valid option, `is_path()` holds exactly when there is no field name, and exactly when the path is non-empty |
| RequestOptions.ReconstructValid | airbyte-cdk/python/airbyte_cdk/sources/declarative/requesters/paginators/request_option.py:45-55 | constructing again from a valid option's accessors gives the same option |
| SalesforceAvailability.HandleHttpError | airbyte-integrations/connectors/source-salesforce/source_salesforce/async_salesforce/availability_strategy.py:30-36 | statuses other than 403/400 re-raise; a body without a first element (an empty list or string, an object, a number, `null`) fails on `[0]`; a first element that is not an object, such as a string body's first character, fails on `.get`; otherwise the stream is available exactly when the first code is `REQUEST_LIMIT_EXCEEDED`, and unavailable with the stream-and-message reason in every other case |
| SalesforceAvailability.InvalidTypeDisjunctRedundant | airbyte-integrations/connectors/source-salesforce/source_salesforce/async_salesforce/availability_strategy.py:33 | the `INVALID_TYPE_FOR_OPERATION` disjunct changes nothing |
| SalesforceAvailability.MissingCodeUnavailable | airbyte-integrations/connectors/source-salesforce/source_salesforce/async_salesforce/availability_strategy.py:31-34 | a first error without `errorCode` makes the stream unavailable when it is an object, and makes `handle_http_error` raise AttributeError when it is not |
| SalesforceRetry.ShouldGiveUp | airbyte-integrations/connectors/source-salesforce/source_salesforce/async_salesforce/rate_limiting.py:30-41 | an aiohttp exception fails on `exc.response`; a 403 whose body has no first element (an empty list or string, an object, a scalar) or whose first element is not an object fails; otherwise give up exactly when a response is present that is not a 429 and the status is a 4xx, or the status is 403 with first code `REQUEST_LIMIT_EXCEEDED` |
| SalesforceRetry.RateLimitAndServerErrorsRetried | airbyte-integrations/connectors/source-salesforce/source_salesforce/async_salesforce/rate_limiting.py:31 | a 429 or any 5xx is never given up on; for an aiohttp exception `should_give_up` itself raises |
| SalesforceRetry.ForbiddenLimitGivesUp | airbyte-integrations/connectors/source-salesforce/source_salesforce/async_salesforce/rate_limiting.py:31-37 | a 403 whose first code is `REQUEST_LIMIT_EXCEEDED` is always given up on, unless it is an aiohttp exception, on which `should_give_up` itself raises |
| SalesforceRetry.ForbiddenBranchRedundantWithResponse | airbyte-integrations/connectors/source-salesforce/source_salesforce/async_salesforce/rate_limiting.py:31-37 | with a response of the same status, the 403 branch never changes the result |
| SalesforceRetry.Retry | airbyte-integrations/connectors/source-salesforce/source_salesforce/async_salesforce/rate_limiting.py:13-52 | at most `max_tries` tries; every try but the last failed with a transient error that is not given up on; the waits are factor·2^n with no jitter; the result is the last try's value or its exception, and the run ends with `should_give_up` raising exactly when the last try raised a transient exception on which `should_give_up` fails |
| SalesforceRetry.NonTransientNotRetried | airbyte-integrations/connectors/source-salesforce/source_salesforce/async_salesforce/rate_limiting.py:43-45 | an exception outside the transient set is raised after one try |
| SalesforceRetry.ForbiddenLimitNotRetried | airbyte-integrations/connectors/source-salesforce/source_salesforce/async_salesforce/rate_limiting.py:34-48 | a 403 with `REQUEST_LIMIT_EXCEEDED` ends the run after one try, re-raised or, for an aiohttp exception, ending with `should_give_up` raising |
| SalesforceRetry.AiohttpNeverRetried | airbyte-integrations/connectors/source-salesforce/source_salesforce/async_salesforce/rate_limiting.py:13-31 | an aiohttp exception counts as transient, yet the run ends after its first try because `should_give_up` raises on it |
| SalesforceRetry.TotalWait | airbyte-integrations/connectors/source-salesforce/source_salesforce/async_salesforce/rate_limiting.py:44-50 | n exponential waits sum to factor·(2^n − 1) |
| SalesforceRetry.AlwaysRetryableUsesEveryTry | airbyte-integrations/connectors/source-salesforce/source_salesforce/async_salesforce/rate_limiting.py:43-52 | persistent retryable failures use every try, give up with the last exception, and sleep factor·(2^(max_tries−1) − 1) in total |

## Left out

- HTTP transport, `response.json()` decoding, request headers and paths are
  not modelled. The model starts from decoded values.
- `CampaignsDetailed._set_recipient_count` (streams.py:291-300) is left out,
  because it sends a separate request per campaign.
- Logging, `logger.warning`/`logger.info`, and the debug `print` in
  `RequestOption.__init__` are left out.
- `pendulum` parsing, `isoformat` and `now` are left out. Timestamps are
  integer seconds and `now` is a parameter.
- `KlaviyoPagination.NextPageToken`: the query is cut at the first `?` and `#`
  and split on `&` and `=`. Percent-decoding, `+` handling and `;` separators
  of `parse_qsl` are not modelled.
- `KlaviyoBackoff.BackoffTime`: Retry-After is whole seconds, and float or
  non-numeric header values are not modelled.
- `KlaviyoState.UpdatedStateWithArchived`: a cursor field literally named
  `"archived"` would collide with the archived namespace. Cursor maps and the
  namespace are kept apart.
- `MixpanelRouter.Project`:
  - `dpath` globbing and list indices are not modelled; the key path walks
    objects only.
  - An empty segment (`a//b`, a trailing `/`, the empty path) is looked up
    as the key `""`. `dpath` rejects such a path unless empty keys are
    enabled in its options.
  - The interpolation of `parent_key`/`partition_field` is taken as done.
  - Parent streams' slices and reads are inputs.
- `MixpanelEngage.Paginate`: the responses echo the requested page and report
  `total` on the first page only. A strategy reused after an earlier run
  (whose `_total` is `None` rather than unset) is covered by
  `NextPageToken`, not by the driver.
- `MixpanelRequester.AnnotationsUrlBase` and `Json.Str`: a project id that is
  a list or an object renders as the empty string rather than Python's
  `repr`.
- `MixpanelRequester.RequestParams`: a `credentials` value that is not an
  object is treated as having no project id. Python would raise
  AttributeError.
- `MixpanelRequester.FlattenExtra`: of the pairs `dict.update` accepts, keys
  that are not strings (a list item `[1, "x"]`) and items that are other
  iterables of length two (tuples, sets, bytes) are treated as an error,
  because the dicts here have string keys and JSON has no such values.
- `MixpanelRequester.AnnotationsRequestParams` returns `{}`. It has no
  contract of its own and is covered by `AnnotationsMovesProjectIdToPath`.
- `MixpanelHttpRequester.__post_init__` (base64 of `api_secret`),
  `CustomAuthenticator`, `CohortMembersSubstreamPartitionRouter` and
  `EngageJsonFileSchemaLoader` are left out. They handle credentials, request
  bodies or a live schema request.
- The CDK superclasses (`HttpRequester._request_params`, `DpathExtractor`,
  `SubstreamPartitionRouter`, `HttpStream.read_records`) are not modelled.
  Their outputs are inputs.
- `SalesforceRetry.Retry`:
  - `AsyncDefaultBackoffException` is assumed to carry `response`,
    `status_code` and `json()`. Its class is not part of this model. The
    aiohttp classes carry none of them, and the model makes
    `should_give_up` raise on them.
  - `max_tries` must be at least 1. With 0, the backoff library never stops
    retrying.
  - `max_time`, `on_backoff` handlers and extra keyword arguments are not
    modelled.
- `SalesforceAvailability.HandleHttpError`: a body with no first element ends
  in one outcome, `NoFirstError`, without telling apart the IndexError,
  KeyError and TypeError that Python raises for a list, an object and a
  scalar.
- `SalesforceRetry.RateLimitAndServerErrorsRetried`: for a 429 it assumes the
  response's status equals the exception's status, since the source reads the
  two separately.
- `airbyte-ci/.../poetry/utils.py` `is_package_published` is not part of this
  model. Its only job is an HTTP request to PyPI.
