/** Klaviyo's cursor pagination: the next page is requested with the query
    parameters of the `links.next` URL of the current response. */
module KlaviyoPagination {
  import opened Wrappers
  import opened Dicts
  import opened Text

  /** The query component of a URL, as `urllib.parse.urlparse(url).query`:
      the fragment after the first `#` is dropped first, then the query is
      whatever follows the first `?`. */
  function QueryOf(url: string): string
  {
    var beforeFragment := Split(url, '#')[0];
    match SplitOnce(beforeFragment, '?')
    case None => ""
    case Some((_, query)) => query
  }

  /** `urllib.parse.parse_qsl(query)` with its defaults: the pieces between
      `&` that hold a `=` and a non-empty value, split at the first `=`.
      Percent-decoding is not modelled. */
  function ParseQsl(query: string): seq<(string, string)>
  {
    PairsOf(Split(query, '&'))
  }

  function PairsOf(pieces: seq<string>): (r: seq<(string, string)>)
    ensures |r| <= |pieces|
  {
    if |pieces| == 0 then []
    else
      var head := match SplitOnce(pieces[0], '=')
        case Some((name, value)) => if value != "" then [(name, value)] else []
        case None => [];
      head + PairsOf(pieces[1..])
  }

  /** `KlaviyoStream.next_page_token`: `None` when there is no (or an empty)
      next link, otherwise the link's query pairs as a dict in which a later
      duplicate key overwrites an earlier one. */
  function NextPageToken(nextLink: Option<string>): (r: Option<Dict<string>>)
    ensures r.None? <==> nextLink.None? || nextLink.value == ""
    ensures r.Some? ==> Distinct(r.value)
    ensures r.Some? ==> forall k :: Get(r.value, k) == LastOf(ParseQsl(QueryOf(nextLink.value)), k)
  {
    if nextLink.None? || nextLink.value == "" then None
    else Some(FromPairs(ParseQsl(QueryOf(nextLink.value))))
  }

  /** Query pairs the provider can embed unambiguously: names free of `&`
      and `=`, values non-empty and free of `&`, neither holding `#`. */
  predicate PlainPairs(pairs: seq<(string, string)>)
  {
    forall i :: 0 <= i < |pairs| ==>
      && '&' !in pairs[i].0 && '=' !in pairs[i].0 && '#' !in pairs[i].0
      && pairs[i].1 != "" && '&' !in pairs[i].1 && '#' !in pairs[i].1
  }

  /** `urllib.parse.urlencode(pairs)` without percent-encoding. */
  function EncodeQuery(pairs: seq<(string, string)>): string
  {
    Join(Pieces(pairs), '&')
  }

  function Pieces(pairs: seq<(string, string)>): (r: seq<string>)
    ensures |r| == |pairs|
    ensures forall i :: 0 <= i < |r| ==> r[i] == pairs[i].0 + "=" + pairs[i].1
  {
    if |pairs| == 0 then [] else [pairs[0].0 + "=" + pairs[0].1] + Pieces(pairs[1..])
  }

  lemma {:induction false} PairsOfPieces(pairs: seq<(string, string)>)
    requires PlainPairs(pairs)
    ensures PairsOf(Pieces(pairs)) == pairs
    decreases |pairs|
  {
    if |pairs| > 0 {
      var (name, value) := pairs[0];
      assert name + "=" + value == name + ['='] + value;
      SplitOnceAt(name, value, '=');
      assert Pieces(pairs)[1..] == Pieces(pairs[1..]);
      assert PlainPairs(pairs[1..]);
      PairsOfPieces(pairs[1..]);
    }
  }

  lemma JoinHasNoFragment(parts: seq<string>, c: char)
    requires c != '#'
    requires forall i :: 0 <= i < |parts| ==> '#' !in parts[i]
    ensures '#' !in Join(parts, c)
    decreases |parts|
  {
    if |parts| > 1 {
      JoinHasNoFragment(parts[1..], c);
    }
  }

  /** Encoding query pairs and parsing them back yields the same pairs. */
  lemma QueryRoundTrip(pairs: seq<(string, string)>)
    requires PlainPairs(pairs)
    ensures ParseQsl(EncodeQuery(pairs)) == pairs
  {
    var pieces := Pieces(pairs);
    if |pairs| == 0 {
      assert Split("", '&') == [""];
      assert SplitOnce("", '=') == None;
    } else {
      forall i | 0 <= i < |pieces| ensures '&' !in pieces[i] {
        assert pieces[i] == pairs[i].0 + "=" + pairs[i].1;
      }
      SplitJoin(pieces, '&');
      PairsOfPieces(pairs);
    }
  }

  /** A next link `base?query` carrying plain pairs yields, as token, exactly
      the dict those pairs build (later duplicates win). */
  lemma NextLinkRoundTrip(base: string, pairs: seq<(string, string)>)
    requires '?' !in base && '#' !in base
    requires PlainPairs(pairs)
    ensures NextPageToken(Some(base + "?" + EncodeQuery(pairs))) == Some(FromPairs(pairs))
  {
    var query := EncodeQuery(pairs);
    var url := base + "?" + query;
    forall i | 0 <= i < |Pieces(pairs)| ensures '#' !in Pieces(pairs)[i] {
      assert Pieces(pairs)[i] == pairs[i].0 + "=" + pairs[i].1;
    }
    JoinHasNoFragment(Pieces(pairs), '&');
    assert '#' !in url;
    SplitNoSeparator(url, '#');
    assert url == base + ['?'] + query;
    SplitOnceAt(base, query, '?');
    QueryRoundTrip(pairs);
  }
}
