/** core/indexer_elasticsearch.go: the Elasticsearch query builder, the
    request body it renders, the paging of search results, and the
    indexer's configuration factory. HTTP itself is outside the model: a
    search is given the response. */
module IndexerEs {

  import opened Common
  import opened Items
  import opened Strconv
  import opened Indexer

  const DefaultBaseUrl: string := "http://127.0.0.1:9200"
  const DefaultIndex: string := "opfs"

  // ---------------------------------------------------------------------------
  // configuration

  /** The indexer's settings: base URL and index name. */
  datatype EsSettings = EsSettings(base: string, index: string)

  function NotAString(key: string, v: ConfValue): Error {
    Message("ES-Indexer Config `" + key + "` must be a string value: got `" +
            (match v case ConfString(s) => s case ConfOther(shown) => shown) + "`")
  }

  /** The "es-indexer" factory as written: a present `index` setting is read
      from the `base` value. */
  function EsFactoryAsWritten(conf: ServiceConfig): (r: Result<EsSettings>)
    ensures "base" in conf.Conf && conf.Conf["base"].ConfString? && "index" in conf.Conf ==>
              r == Ok(EsSettings(conf.Conf["base"].s, conf.Conf["base"].s))
  {
    var base :=
      if "base" !in conf.Conf then Ok(DefaultBaseUrl)
      else if conf.Conf["base"].ConfString? then Ok(conf.Conf["base"].s)
      else Err(NotAString("base", conf.Conf["base"]));
    if base.Err? then Err(base.error)
    else
      var index :=
        if "index" !in conf.Conf then Ok(DefaultIndex)
        // the type assertion is made on the `base` setting
        else if "base" in conf.Conf && conf.Conf["base"].ConfString? then Ok(conf.Conf["base"].s)
        else Err(NotAString("index", conf.Conf["index"]));
      if index.Err? then Err(index.error) else Ok(EsSettings(base.value, index.value))
  }

  /** A configuration naming only an index is refused with the message
      for a non-string `index`, which quotes the value "photos". */
  lemma EsFactoryAsWrittenRefusesIndex()
    ensures EsFactoryAsWritten(ServiceConfig("es-indexer", map["index" := ConfString("photos")]))
            == Err(NotAString("index", ConfString("photos")))
  {
    var only := map["index" := ConfString("photos")];
    assert "base" !in only by {
      assert "base" != "index";
    }
  }

  /** A configuration naming both settings uses the base URL as the index
      name. */
  lemma EsFactoryAsWrittenIgnoresIndex()
    ensures EsFactoryAsWritten(ServiceConfig("es-indexer", map["base" := ConfString("http://es:9200"), "index" := ConfString("photos")]))
            == Ok(EsSettings("http://es:9200", "http://es:9200"))
  {
    var both := map["base" := ConfString("http://es:9200"), "index" := ConfString("photos")];
    assert "base" in both && "index" in both;
  }

  /** The "es-indexer" factory reading each setting from its own key. */
  function EsFactory(conf: ServiceConfig): (r: Result<EsSettings>)
    ensures r.Ok? <==> ("base" in conf.Conf ==> conf.Conf["base"].ConfString?) &&
                       ("index" in conf.Conf ==> conf.Conf["index"].ConfString?)
    ensures r.Ok? ==> r.value.base == (if "base" in conf.Conf then conf.Conf["base"].s else DefaultBaseUrl)
    ensures r.Ok? ==> r.value.index == (if "index" in conf.Conf then conf.Conf["index"].s else DefaultIndex)
    ensures "base" in conf.Conf && conf.Conf["base"].ConfOther? ==> r == Err(NotAString("base", conf.Conf["base"]))
  {
    var base :=
      if "base" !in conf.Conf then Ok(DefaultBaseUrl)
      else if conf.Conf["base"].ConfString? then Ok(conf.Conf["base"].s)
      else Err(NotAString("base", conf.Conf["base"]));
    if base.Err? then Err(base.error)
    else
      var index :=
        if "index" !in conf.Conf then Ok(DefaultIndex)
        else if conf.Conf["index"].ConfString? then Ok(conf.Conf["index"].s)
        else Err(NotAString("index", conf.Conf["index"]));
      if index.Err? then Err(index.error) else Ok(EsSettings(base.value, index.value))
  }

  /** Both factories agree whenever no `index` is configured. */
  lemma EsFactoriesAgreeWithoutIndex(conf: ServiceConfig)
    requires "index" !in conf.Conf
    ensures EsFactoryAsWritten(conf) == EsFactory(conf)
  {
  }

  // ---------------------------------------------------------------------------
  // the query builder

  /** A JSON value taken from a search request (an `interface{}`); `Null` is
      nil. */
  datatype Value = Null | Bool(b: bool) | Num(n: real) | Str(s: string)

  /** One entry of `esQuery.filters`, before JSON encoding. */
  datatype Filter =
    | TypeTerms(types: seq<ItemType>)                          // {"terms":{"Type":[...]}}
    | Term(field: string, value: Value)                        // {"term":{field:value}}
    | RangeFilter(field: string, gte: Option<Value>, lte: Option<Value>)  // {"range":{field:{...}}}
    | GeoDistance(distance: string, pos: Option<LatLon>)       // {"geo_distance":{...}}
    | MissingDeleted                                           // the not-deleted filter

  /** One entry of `esQuery.sorts`: {field: order}. */
  datatype SortSpec = SortSpec(field: string, order: string)

  /** The order word of a sort direction. */
  function SortOrder(dir: SortDir): (order: string)
    ensures order == "asc" <==> dir == SortDirAscending
    ensures order == "desc" <==> dir == SortDirDescending
  {
    if dir == SortDirAscending then "asc" else "desc"
  }

  /** The order word a sort is sent with is the word that parses back to
      its direction. */
  lemma SortOrderRoundTrip(dir: SortDir, receiver: SortDir)
    ensures UnmarshalSortDir(SortOrder(dir), receiver) == (dir, None)
  {
  }

  /** `json.Marshal` of filters and sorts. */
  datatype Encoder = Encoder(filter: Filter -> string, sort: SortSpec -> string)

  const MissingDeletedJson: string := "{\"missing\":{\"field\":\"Deleted\",\"existence\":true,\"null_value\":true}}"
  const QueryPrefix: string := "{\"query\":{\"filtered\":{\"query\":{\"match_all\":{}}"
  const FilterPrefix: string := ",\"filter\":{\"and\":"
  const SortPrefix: string := ",\"sort\":"

  /** The term filters `Match(field, vals...)` appends: one per value. */
  function TermFilters(field: string, vals: seq<Value>): (r: seq<Filter>)
    ensures |r| == |vals|
    ensures forall k :: 0 <= k < |vals| ==> r[k] == Term(field, vals[k])
  {
    seq(|vals|, k requires 0 <= k < |vals| => Term(field, vals[k]))
  }

  function StrValues(tags: seq<string>): (r: seq<Value>)
    ensures |r| == |tags|
    ensures forall k :: 0 <= k < |tags| ==> r[k] == Str(tags[k])
  {
    seq(|tags|, k requires 0 <= k < |tags| => Str(tags[k]))
  }

  /** The range filter: "gte" only for a non-nil min, "lte" only for a
      non-nil max. */
  function RangeOf(field: string, min: Value, max: Value): (f: Filter)
    ensures f.RangeFilter? && f.field == field
    ensures f.gte.Some? <==> min != Null
    ensures f.lte.Some? <==> max != Null
    ensures f.gte.Some? ==> f.gte.value == min
    ensures f.lte.Some? ==> f.lte.value == max
  {
    RangeFilter(field, if min != Null then Some(min) else None, if max != Null then Some(max) else None)
  }

  function Join(sep: string, elems: seq<string>): string {
    if elems == [] then ""
    else if |elems| == 1 then elems[0]
    else Join(sep, elems[..|elems| - 1]) + sep + elems[|elems| - 1]
  }

  /** `json.Marshal` of a slice of raw JSON values. */
  function JsonArray(elems: seq<string>): (s: string)
    ensures |s| >= 2 && s[0] == '[' && s[|s| - 1] == ']'
  {
    "[" + Join(",", elems) + "]"
  }

  function RawFilter(f: Filter, enc: Encoder): string {
    if f == MissingDeleted then MissingDeletedJson else enc.filter(f)
  }

  function RawFilters(filters: seq<Filter>, enc: Encoder): (r: seq<string>)
    ensures |r| == |filters|
  {
    seq(|filters|, k requires 0 <= k < |filters| => RawFilter(filters[k], enc))
  }

  function RawSorts(sorts: seq<SortSpec>, enc: Encoder): (r: seq<string>)
    ensures |r| == |sorts|
  {
    seq(|sorts|, k requires 0 <= k < |sorts| => enc.sort(sorts[k]))
  }

  /** The "filter" block of the body: present only when there are filters. */
  function FilterBlock(filters: seq<Filter>, enc: Encoder): (s: string)
    ensures |s| > 0 <==> |filters| > 0
    ensures |filters| > 0 ==> s[0] == ',' && s[|s| - 1] == '}'
  {
    if |filters| > 0 then FilterPrefix + JsonArray(RawFilters(filters, enc)) + "}" else ""
  }

  /** The "sort" block of the body: present only when there are sorts. */
  function SortBlock(sorts: seq<SortSpec>, enc: Encoder): (s: string)
    ensures |s| > 0 <==> |sorts| > 0
    ensures |sorts| > 0 ==> s[0] == ',' && s[|s| - 1] == ']'
  {
    if |sorts| > 0 then SortPrefix + JsonArray(RawSorts(sorts, enc)) else ""
  }

  /** The request body for a query's filters and sorts. */
  function QueryJson(filters: seq<Filter>, sorts: seq<SortSpec>, enc: Encoder): string {
    QueryPrefix + FilterBlock(filters, enc) + "}" + "}" + SortBlock(sorts, enc) + "}"
  }

  lemma ConcatIndex(a: string, b: string)
    ensures (a + b)[..|a|] == a
    ensures |b| > 0 ==> (a + b)[|a|] == b[0]
    ensures |b| > 0 ==> (a + b)[|a| + |b| - 1] == b[|b| - 1]
  {
  }

  /** The body wraps a match-all query; the "filter" block follows it exactly
      when there are filters, and the "sort" array ends the body exactly when
      there are sorts. */
  lemma QueryJsonShape(filters: seq<Filter>, sorts: seq<SortSpec>, enc: Encoder)
    ensures var b := QueryJson(filters, sorts, enc);
            |b| > |QueryPrefix| + 1 && b[..|QueryPrefix|] == QueryPrefix &&
            (b[|QueryPrefix|] == ',' <==> |filters| > 0) &&
            (b[|b| - 2] == ']' <==> |sorts| > 0)
  {
    QueryJsonFront(filters, sorts, enc);
    QueryJsonBack(filters, sorts, enc);
  }

  /** The opening of the query and whether a filter follows it. */
  lemma QueryJsonFront(filters: seq<Filter>, sorts: seq<SortSpec>, enc: Encoder)
    ensures var b := QueryJson(filters, sorts, enc);
            |b| > |QueryPrefix| + 1 && b[..|QueryPrefix|] == QueryPrefix &&
            (b[|QueryPrefix|] == ',' <==> |filters| > 0)
  {
    var fb := FilterBlock(filters, enc);
    var rest := fb + "}}" + SortBlock(sorts, enc) + "}";
    assert QueryJson(filters, sorts, enc) == QueryPrefix + rest;
    ConcatIndex(QueryPrefix, rest);
    if |filters| > 0 {
      assert rest[0] == fb[0];
    } else {
      assert rest[0] == '}';
    }
  }

  /** The closing of the query and whether a sort precedes it. */
  lemma QueryJsonBack(filters: seq<Filter>, sorts: seq<SortSpec>, enc: Encoder)
    ensures var b := QueryJson(filters, sorts, enc);
            |b| >= 2 && (b[|b| - 2] == ']' <==> |sorts| > 0)
  {
    var sb := SortBlock(sorts, enc);
    var front := QueryPrefix + FilterBlock(filters, enc) + "}" + "}";
    var m := front + sb;
    assert QueryJson(filters, sorts, enc) == m + "}";
    assert (m + "}")[|m| - 1] == m[|m| - 1];
    if |sorts| > 0 {
      ConcatIndex(front, sb);
    } else {
      assert m == front;
    }
  }

  /** `esQuery`. */
  class EsQuery {
    var filters: seq<Filter>
    var sorts: seq<SortSpec>
    var allowDeleted: bool

    /** `NewQuery`. */
    constructor ()
      ensures filters == [] && sorts == [] && !allowDeleted
    {
      filters := [];
      sorts := [];
      allowDeleted := false;
    }

    method Type(t: seq<ItemType>)
      modifies this
      ensures filters == old(filters) + [TypeTerms(t)]
      ensures sorts == old(sorts) && allowDeleted == old(allowDeleted)
    {
      filters := filters + [TypeTerms(t)];
    }

    method AllowDeleted(allow: bool)
      modifies this
      ensures allowDeleted == allow
      ensures filters == old(filters) && sorts == old(sorts)
    {
      allowDeleted := allow;
    }

    /** `Match`: one term filter per value, in order. */
    method Match(field: string, vals: seq<Value>)
      modifies this
      ensures filters == old(filters) + TermFilters(field, vals)
      ensures sorts == old(sorts) && allowDeleted == old(allowDeleted)
    {
      var i := 0;
      while i < |vals|
        invariant 0 <= i <= |vals|
        invariant filters == old(filters) + TermFilters(field, vals[..i])
        invariant sorts == old(sorts) && allowDeleted == old(allowDeleted)
      {
        assert TermFilters(field, vals[..i + 1]) == TermFilters(field, vals[..i]) + [Term(field, vals[i])];
        filters := filters + [Term(field, vals[i])];
        i := i + 1;
      }
      assert vals[..i] == vals;
    }

    /** `Tagged(tags...)` is `Match("Tags", tags...)`. */
    method Tagged(tags: seq<string>)
      modifies this
      ensures filters == old(filters) + TermFilters("Tags", StrValues(tags))
      ensures sorts == old(sorts) && allowDeleted == old(allowDeleted)
    {
      var args: seq<Value> := [];
      var i := 0;
      while i < |tags|
        invariant 0 <= i <= |tags|
        invariant args == StrValues(tags[..i])
      {
        args := args + [Str(tags[i])];
        i := i + 1;
      }
      assert tags[..i] == tags;
      Match("Tags", args);
    }

    method Range(field: string, min: Value, max: Value)
      modifies this
      ensures filters == old(filters) + [RangeOf(field, min, max)]
      ensures sorts == old(sorts) && allowDeleted == old(allowDeleted)
    {
      filters := filters + [RangeOf(field, min, max)];
    }

    /** `Near`: a geo-distance filter of "<radius>km" around `pos`. */
    method Near(pos: Option<LatLon>, radiusKm: int)
      modifies this
      ensures filters == old(filters) + [GeoDistance(Itoa(radiusKm) + "km", pos)]
      ensures sorts == old(sorts) && allowDeleted == old(allowDeleted)
    {
      filters := filters + [GeoDistance(Itoa(radiusKm) + "km", pos)];
    }

    method Sort(field: string, dir: SortDir)
      modifies this
      ensures sorts == old(sorts) + [SortSpec(field, SortOrder(dir))]
      ensures filters == old(filters) && allowDeleted == old(allowDeleted)
    {
      var order := if dir == SortDirAscending then "asc" else "desc";
      sorts := sorts + [SortSpec(field, order)];
    }

    /** `MarshalJSON`: unless deleted items are allowed, the not-deleted
        filter is appended to the query's own filters (so every call adds
        another copy), then the body is rendered. */
    method MarshalJson(enc: Encoder) returns (b: string)
      modifies this
      ensures filters == old(filters) + (if old(allowDeleted) then [] else [MissingDeleted])
      ensures sorts == old(sorts) && allowDeleted == old(allowDeleted)
      ensures b == QueryJson(filters, sorts, enc)
    {
      if !allowDeleted {
        filters := filters + [MissingDeleted];
      }
      var buff := QueryPrefix;
      buff := buff + FilterBlock(filters, enc);
      buff := buff + "}";
      buff := buff + "}";
      buff := buff + SortBlock(sorts, enc);
      b := buff + "}";
    }
  }

  // ---------------------------------------------------------------------------
  // search results

  datatype EsHit = EsHit(Id: string, Source: Bytes)
  datatype EsHits = EsHits(Total: int, Hits: seq<EsHit>)
  /** The decoded response body; `Hits` is `None` when the body had no hits. */
  datatype EsSearchResult = EsSearchResult(Hits: Option<EsHits>)

  /** What the HTTP round trip gives. */
  datatype EsResponse =
    | Unreachable(err: Error)
    | Response(status: nat, statusText: string, decoded: Result<EsSearchResult>)

  const DefaultSearchPage: Pagination := Pagination(0, 10)

  /** The page after `page`, when the total goes beyond it. The next offset
      is a Go `int` sum, so it wraps around past the 64-bit range. */
  function NextPage(page: Pagination, total: int): (r: Option<Pagination>)
    ensures r.Some? <==> total > AddInt64(page.From, page.Size)
    ensures r.Some? ==> r.value == Pagination(AddInt64(page.From, page.Size), page.Size)
  {
    var fromNext := AddInt64(page.From, page.Size);
    if total > fromNext then Some(Pagination(fromNext, page.Size)) else None
  }

  /** Following `Next` from a page of positive size strictly shrinks what is
      left to page through, and with a size of zero or less it never moves
      forward, as long as the next offset does not overflow; when it does,
      the next page starts at a negative offset, before this one. */
  lemma NextPageProgress(page: Pagination, total: int)
    requires NextPage(page, total).Some?
    ensures MinInt64 <= page.From + page.Size <= MaxInt64 && page.Size > 0 ==>
              0 <= total - NextPage(page, total).value.From < total - page.From
    ensures MinInt64 <= page.From + page.Size <= MaxInt64 && page.Size <= 0 ==>
              NextPage(page, total).value.From <= page.From
    ensures page.From <= MaxInt64 && page.Size <= MaxInt64 && page.From + page.Size > MaxInt64 ==>
              NextPage(page, total).value.From < 0 && NextPage(page, total).value.From < page.From
  {
  }

  /** The last offset with a page of one: the next offset wraps to the
      smallest 64-bit integer, so a `Next` link is made for any total. */
  lemma NextPageWraps(total: int)
    requires total >= 0
    ensures NextPage(Pagination(MaxInt64, 1), total) == Some(Pagination(MinInt64, 1))
  {
  }

  function Sources(hits: seq<EsHit>): (r: seq<Bytes>)
    ensures |r| == |hits|
    ensures forall k :: 0 <= k < |hits| ==> r[k] == hits[k].Source
  {
    seq(|hits|, k requires 0 <= k < |hits| => hits[k].Source)
  }

  /** The request `createSearchRequest` makes: the URI with the page in its
      query string. */
  function SearchUri(es: EsSettings, page: Pagination): (uri: string)
    ensures |uri| > |es.base| && uri[..|es.base|] == es.base
  {
    es.base + "/" + es.index + "/_search?from=" + Itoa(page.From) + "&size=" + Itoa(page.Size)
  }

  /** Reading the response of a search for `page`: a transport error or a
      non-2xx status is the error; a body without hits makes the Go code
      dereference nil. */
  method ReadSearchResponse(page: Pagination, resp: EsResponse) returns (r: Result<SearchResult>)
    ensures resp.Unreachable? ==> r == Err(resp.err)
    ensures resp.Response? && resp.status / 100 != 2 ==> r == Err(Message("ES status code: " + resp.statusText))
    ensures resp.Response? && resp.status / 100 == 2 && resp.decoded.Err? ==> r == Err(resp.decoded.error)
    ensures resp.Response? && resp.status / 100 == 2 && resp.decoded.Ok? && resp.decoded.value.Hits.None? ==>
              r == Err(Panic("nil pointer dereference"))
    ensures r.Ok? <==> resp.Response? && resp.status / 100 == 2 && resp.decoded.Ok? && resp.decoded.value.Hits.Some?
    ensures r.Ok? ==>
              var hits := resp.decoded.value.Hits.value;
              r.value == SearchResult(hits.Total, page, NextPage(page, hits.Total), Sources(hits.Hits))
  {
    if resp.Unreachable? {
      return Err(resp.err);
    }
    if resp.status / 100 != 2 {
      return Err(Message("ES status code: " + resp.statusText));
    }
    if resp.decoded.Err? {
      return Err(resp.decoded.error);
    }
    if resp.decoded.value.Hits.None? {
      return Err(Panic("nil pointer dereference"));
    }
    var hits := resp.decoded.value.Hits.value;
    var raw: seq<Bytes> := [];
    var i := 0;
    while i < |hits.Hits|
      invariant 0 <= i <= |hits.Hits|
      invariant raw == Sources(hits.Hits[..i])
    {
      raw := raw + [hits.Hits[i].Source];
      i := i + 1;
    }
    assert hits.Hits[..i] == hits.Hits;
    var fromNext := AddInt64(page.From, page.Size);
    var next: Option<Pagination> := None;
    if hits.Total > fromNext {
      next := Some(Pagination(fromNext, page.Size));
    }
    r := Ok(SearchResult(hits.Total, page, next, raw));
  }

  /** `Search`: a missing page is the first ten results; the query is
      rendered into the request body (which changes the query, see
      `MarshalJson`), then the response is read. */
  method Search(es: EsSettings, q: EsQuery, pagination: Option<Pagination>, resp: EsResponse, enc: Encoder)
    returns (uri: string, body: string, r: Result<SearchResult>)
    modifies q
    ensures uri == SearchUri(es, if pagination.None? then DefaultSearchPage else pagination.value)
    ensures body == QueryJson(q.filters, q.sorts, enc)
    ensures q.filters == old(q.filters) + (if old(q.allowDeleted) then [] else [MissingDeleted])
    ensures q.sorts == old(q.sorts) && q.allowDeleted == old(q.allowDeleted)
    ensures r.Ok? <==> resp.Response? && resp.status / 100 == 2 && resp.decoded.Ok? && resp.decoded.value.Hits.Some?
    ensures r.Ok? ==>
              var page := if pagination.None? then DefaultSearchPage else pagination.value;
              var hits := resp.decoded.value.Hits.value;
              r.value == SearchResult(hits.Total, page, NextPage(page, hits.Total), Sources(hits.Hits))
  {
    var page := if pagination.None? then DefaultSearchPage else pagination.value;
    uri := SearchUri(es, page);
    body := q.MarshalJson(enc);
    r := ReadSearchResponse(page, resp);
  }

  /** The response of the facet request `ListTags` makes. */
  datatype EsFacetResponse =
    | FacetUnreachable(err: Error)
    | FacetResponse(status: nat, statusText: string, facets: Result<map<string, seq<string>>>)

  /** `ListTags`: the terms of the "Tags" facet, in the order returned; a body
      without that facet makes the Go code dereference nil. */
  function ListTags(resp: EsFacetResponse): (r: Result<seq<string>>)
    ensures r.Ok? <==> resp.FacetResponse? && resp.status / 100 == 2 && resp.facets.Ok? && "Tags" in resp.facets.value
    ensures r.Ok? ==> r.value == resp.facets.value["Tags"]
    ensures resp.FacetResponse? && resp.status / 100 != 2 ==> r == Err(Message("ES status code: " + resp.statusText))
  {
    match resp
    case FacetUnreachable(e) => Err(e)
    case FacetResponse(status, text, facets) =>
      if status / 100 != 2 then Err(Message("ES status code: " + text))
      else if facets.Err? then Err(facets.error)
      else if "Tags" !in facets.value then Err(Panic("nil pointer dereference"))
      else Ok(facets.value["Tags"])
  }

  /** The `Index` request: a PUT of the record to `<base>/<index>/Item/<hash>`;
      a non-2xx status is an error naming the status. */
  function IndexUri(es: EsSettings, hash: string): (uri: string)
    ensures |uri| > |hash| && uri[|uri| - |hash|..] == hash
  {
    es.base + "/" + es.index + "/Item/" + hash
  }

  function IndexOutcome(status: nat, statusText: string): (err: Option<Error>)
    ensures err.None? <==> 200 <= status < 300
  {
    if status / 100 != 2 then Some(Message("Bad Response Status Code from ES: " + statusText)) else None
  }
}
