/** core/api.go: the JSON API's error values and their redaction, the
    response writer, paging parameters, the search handler's query building
    and the rules that hide deleted items. Routing and the HTTP server are
    outside the model: a handler is given what it reads from the request. */
module Api {

  import opened Common
  import opened Times
  import opened Items
  import opened Strconv
  import opened StoreFs
  import opened Indexer
  import opened IndexerEs
  import opened ItemUpdates
  import opened Tags
  import opened Errors

  const DefaultPageSize: int := 30

  // ---------------------------------------------------------------------------
  // errors

  /** `NewApiError`: an API error is kept as it is; any other error is wrapped
      with the given code and user-facing message, keeping its text. */
  function NewApiError(err: Error, msg: string, code: int): (e: Error)
    ensures e.Api?
    ensures err.Api? ==> e == err
    ensures !err.Api? ==> e.code == code && e.msg == msg && e.err == ErrorText(err)
  {
    if err.Api? then err else Api(code, ErrorText(err), msg)
  }

  /** Wrapping is idempotent: an error wrapped once is not wrapped again. */
  lemma NewApiErrorIdempotent(err: Error, msg1: string, code1: int, msg2: string, code2: int)
    ensures NewApiError(NewApiError(err, msg1, code1), msg2, code2) == NewApiError(err, msg1, code1)
  {
  }

  /** `errNotImplemented`, what the two bulk tag handlers return. */
  const ErrNotImplemented: Error := Api(500, "", "API Method not Implemented")

  /** The error `serveError` writes: a non-API error becomes a 500 "Unknown
      Error", and the underlying text is blanked unless errors are shown. */
  function RedactedError(err: Error, showErrors: bool): (e: Error)
    ensures e.Api?
    ensures e.code == (if err.Api? then err.code else 500)
    ensures e.msg == (if err.Api? then err.msg else "Unknown Error")
    ensures showErrors ==> e.err == (if err.Api? then err.err else ErrorText(err))
    ensures !showErrors ==> e.err == ""
  {
    var e := NewApiError(err, "Unknown Error", 500);
    if !showErrors then e.(err := "") else e
  }

  // ---------------------------------------------------------------------------
  // responses

  /** The value a handler answers with: nil, or a value with its JSON
      encoding, and the string itself when the value is a Go string. */
  datatype Payload = Nil | Json(encoded: Bytes, asString: Option<string>)

  datatype HttpResponse = HttpResponse(status: int, headers: map<string, string>, body: Bytes)

  const Newline: Byte := 10

  /** `serveJSON`: the common headers, then for a redirect status the Location
      taken from the value and an empty body; for a value its JSON encoding
      and a newline; for nil an empty body. A redirect with a value that is
      not a string fails the Go type assertion. */
  function ServeJson(common: map<string, string>, status: int, v: Payload): (r: Result<HttpResponse>)
    ensures r.Err? <==> 300 <= status <= 399 && (v.Nil? || v.asString.None?)
    ensures r.Ok? ==> r.value.status == status
    ensures r.Ok? ==> "Content-Length" in r.value.headers && r.value.headers["Content-Length"] == Itoa(|r.value.body|)
    ensures r.Ok? ==> forall k :: k in common && k !in {"Location", "Content-Length", "Content-Type"} ==>
                        k in r.value.headers && r.value.headers[k] == common[k]
    ensures r.Ok? && 300 <= status <= 399 ==>
              r.value.body == [] && "Location" in r.value.headers && r.value.headers["Location"] == v.asString.value
    ensures r.Ok? && !(300 <= status <= 399) ==>
              (v.Nil? <==> r.value.body == []) &&
              (v.Json? ==> r.value.body == v.encoded + [Newline] &&
                           "Content-Type" in r.value.headers && r.value.headers["Content-Type"] == "application/json")
  {
    if 300 <= status <= 399 then
      if v.Nil? || v.asString.None? then Err(Panic("interface conversion"))
      else Ok(HttpResponse(status, common["Location" := v.asString.value]["Content-Length" := "0"], []))
    else if v.Json? then
      var b := v.encoded + [Newline];
      Ok(HttpResponse(status, common["Content-Type" := "application/json"]["Content-Length" := Itoa(|b|)], b))
    else
      Ok(HttpResponse(status, common["Content-Length" := "0"], []))
  }

  /** `serveError`: the redacted error served with its own code. */
  function ServeError(common: map<string, string>, err: Error, showErrors: bool, encode: Error -> Bytes): (r: Result<HttpResponse>)
  {
    var e := RedactedError(err, showErrors);
    ServeJson(common, e.code, Json(encode(e), None))
  }

  /** A non-API error is answered with status 500 and a body that is the
      encoded redacted error; with errors hidden the body carries no trace of
      the underlying error. */
  lemma ServeErrorHidesCause(common: map<string, string>, err: Error, encode: Error -> Bytes)
    requires !err.Api?
    ensures ServeError(common, err, false, encode)
            == Ok(HttpResponse(500, ServeError(common, err, false, encode).value.headers,
                           encode(Api(500, "", "Unknown Error")) + [Newline]))
  {
  }

  /** `httpWrapJSON`: a handler's error is served by `serveError`, its value
      by `serveJSON`. */
  datatype Reply = Reply(status: int, payload: Payload)

  function Respond(common: map<string, string>, showErrors: bool, encode: Error -> Bytes, handled: Result<Reply>): (r: Result<HttpResponse>)
    ensures handled.Ok? ==> r == ServeJson(common, handled.value.status, handled.value.payload)
    ensures handled.Err? && !(300 <= RedactedError(handled.error, showErrors).code <= 399) ==>
              r.Ok? && r.value.status == RedactedError(handled.error, showErrors).code
  {
    if handled.Err? then ServeError(common, handled.error, showErrors, encode)
    else ServeJson(common, handled.value.status, handled.value.payload)
  }

  // ---------------------------------------------------------------------------
  // paging

  /** Parsed query-string parameters (`url.Values`). */
  type Values = map<string, seq<string>>

  /** `url.Values.Get`: the first value of a key, or "". */
  function QueryGet(q: Values, key: string): (v: string)
    ensures key !in q || q[key] == [] ==> v == ""
  {
    if key in q && |q[key]| > 0 then q[key][0] else ""
  }

  /** `getPagination`: "from" and "size" parsed as integers, with 0 and the
      default size for a missing or unparsable value. */
  function GetPagination(q: Values, defaultSize: int): (p: Pagination)
    ensures Atoi(QueryGet(q, "from")).None? ==> p.From == 0
    ensures Atoi(QueryGet(q, "size")).None? ==> p.Size == defaultSize
    ensures Atoi(QueryGet(q, "from")).Some? ==> p.From == Atoi(QueryGet(q, "from")).value
    ensures Atoi(QueryGet(q, "size")).Some? ==> p.Size == Atoi(QueryGet(q, "size")).value
  {
    var from := Atoi(QueryGet(q, "from"));
    var size := Atoi(QueryGet(q, "size"));
    Pagination(if from.Some? then from.value else 0, if size.Some? then size.value else defaultSize)
  }

  /** Without paging parameters the first page of the default size is asked
      for. */
  lemma GetPaginationDefault(q: Values, defaultSize: int)
    requires "from" !in q && "size" !in q
    ensures GetPagination(q, defaultSize) == Pagination(0, defaultSize)
  {
  }

  /** The query of the next-page link: the request's own parameters with
      "from" and "size" replaced. */
  function NextValues(q: Values, p: Pagination): (r: Values)
    ensures r.Keys == q.Keys + {"from", "size"}
    ensures forall k :: k in q && k != "from" && k != "size" ==> r[k] == q[k]
  {
    q["from" := [Itoa(p.From)]]["size" := [Itoa(p.Size)]]
  }

  /** `toNextUri`: no next page gives no link; otherwise the request path with
      the rewritten query, encoded by `url.Values.Encode`. */
  function ToNextUri(path: string, q: Values, p: Option<Pagination>, encode: Values -> string): (uri: string)
    ensures uri == "" <==> p.None?
  {
    if p.None? then "" else path + "?" + encode(NextValues(q, p.value))
  }

  /** Following a next-page link asks for exactly that page. */
  lemma NextUriRoundTrip(q: Values, p: Pagination, defaultSize: int)
    requires MinInt64 <= p.From <= MaxInt64 && MinInt64 <= p.Size <= MaxInt64
    ensures GetPagination(NextValues(q, p), defaultSize) == p
  {
    var n := NextValues(q, p);
    assert QueryGet(n, "from") == Itoa(p.From);
    assert QueryGet(n, "size") == Itoa(p.Size);
    AtoiItoa(p.From);
    AtoiItoa(p.Size);
  }

  // ---------------------------------------------------------------------------
  // search

  datatype NearQuery = NearQuery(L: Option<LatLon>, R: int)

  /** `apiSearchParams`. The Go maps are given as the key/value pairs in the
      order the map was ranged over (Go randomises it), and a nil slice or map
      is an empty one. */
  datatype SearchParams = SearchParams(
    Types: seq<ItemType>,
    Match: seq<(string, Value)>,
    Range: seq<(string, (Value, Value))>,
    Near: Option<NearQuery>,
    Sort: seq<(string, SortDir)>,
    Tags: seq<string>,
    Text: string)

  /** A Match or Range parameter names the Deleted field. */
  predicate MentionsDeleted(p: SearchParams) {
    (exists i :: 0 <= i < |p.Match| && p.Match[i].0 == "Deleted") ||
    (exists i :: 0 <= i < |p.Range| && p.Range[i].0 == "Deleted")
  }

  function MatchFilters(m: seq<(string, Value)>): (r: seq<Filter>)
    ensures |r| == |m|
    ensures forall i :: 0 <= i < |m| ==> r[i] == Term(m[i].0, m[i].1)
  {
    seq(|m|, i requires 0 <= i < |m| => Term(m[i].0, m[i].1))
  }

  function RangeFilters(m: seq<(string, (Value, Value))>): (r: seq<Filter>)
    ensures |r| == |m|
    ensures forall i :: 0 <= i < |m| ==> r[i] == RangeOf(m[i].0, m[i].1.0, m[i].1.1)
  {
    seq(|m|, i requires 0 <= i < |m| => RangeOf(m[i].0, m[i].1.0, m[i].1.1))
  }

  function TypeFilter(p: SearchParams): seq<Filter> {
    if |p.Types| > 0 then [TypeTerms(p.Types)] else []
  }

  function NearFilter(p: SearchParams): seq<Filter> {
    if p.Near.Some? then [GeoDistance(Itoa(p.Near.value.R) + "km", p.Near.value.L)] else []
  }

  function TagFilters(p: SearchParams): seq<Filter> {
    if |p.Tags| > 0 then TermFilters("Tags", StrValues(p.Tags)) else []
  }

  /** The filters `apiSearch` adds, in the order it adds them: types, matches,
      ranges, the distance filter, tags. */
  function SearchFilters(p: SearchParams): seq<Filter> {
    TypeFilter(p) + MatchFilters(p.Match) + RangeFilters(p.Range) + NearFilter(p) + TagFilters(p)
  }

  /** The sort `apiSearch` adds: the first pair ranged over, if any. */
  function SearchSorts(p: SearchParams): (r: seq<SortSpec>)
    ensures |r| <= 1
    ensures |r| == 1 <==> |p.Sort| > 0
  {
    if |p.Sort| > 0 then [SortSpec(p.Sort[0].0, SortOrder(p.Sort[0].1))] else []
  }

  /** The filters of the request body for a fresh query built from `p`. */
  function SentFilters(p: SearchParams): seq<Filter> {
    SearchFilters(p) + (if MentionsDeleted(p) then [] else [MissingDeleted])
  }

  /** Deleted items are filtered out of a search exactly when no Match or
      Range parameter names the Deleted field. */
  lemma DeletedHiddenUnlessMentioned(p: SearchParams)
    ensures MissingDeleted in SentFilters(p) <==> !MentionsDeleted(p)
  {
    var t := TypeFilter(p);
    var m := MatchFilters(p.Match);
    var r := RangeFilters(p.Range);
    var n := NearFilter(p);
    var g := TagFilters(p);
    assert SearchFilters(p) == t + m + r + n + g;
    assert forall f :: f in t + m + r + n + g ==> f in t || f in m || f in r || f in n || f in g;
    assert MissingDeleted !in m;
    assert MissingDeleted !in r;
    assert MissingDeleted !in g;
    assert MissingDeleted !in SearchFilters(p);
  }

  /** The Match loop of `apiSearch`: one term filter per pair, and whether a
      pair names Deleted. */
  method AddMatches(m: seq<(string, Value)>, q: EsQuery) returns (deleted: bool)
    modifies q
    ensures q.filters == old(q.filters) + MatchFilters(m)
    ensures q.sorts == old(q.sorts) && q.allowDeleted == old(q.allowDeleted)
    ensures deleted <==> exists j :: 0 <= j < |m| && m[j].0 == "Deleted"
  {
    deleted := false;
    var i := 0;
    while i < |m|
      invariant 0 <= i <= |m|
      invariant q.filters == old(q.filters) + MatchFilters(m[..i])
      invariant q.sorts == old(q.sorts) && q.allowDeleted == old(q.allowDeleted)
      invariant deleted <==> exists j :: 0 <= j < i && m[j].0 == "Deleted"
    {
      q.Match(m[i].0, [m[i].1]);
      assert MatchFilters(m[..i + 1]) == MatchFilters(m[..i]) + [Term(m[i].0, m[i].1)];
      if m[i].0 == "Deleted" {
        deleted := true;
      }
      i := i + 1;
    }
    assert m[..i] == m;
  }

  /** The Range loop of `apiSearch`: one range filter per pair, and whether a
      pair names Deleted. */
  method AddRanges(m: seq<(string, (Value, Value))>, q: EsQuery) returns (deleted: bool)
    modifies q
    ensures q.filters == old(q.filters) + RangeFilters(m)
    ensures q.sorts == old(q.sorts) && q.allowDeleted == old(q.allowDeleted)
    ensures deleted <==> exists j :: 0 <= j < |m| && m[j].0 == "Deleted"
  {
    deleted := false;
    var i := 0;
    while i < |m|
      invariant 0 <= i <= |m|
      invariant q.filters == old(q.filters) + RangeFilters(m[..i])
      invariant q.sorts == old(q.sorts) && q.allowDeleted == old(q.allowDeleted)
      invariant deleted <==> exists j :: 0 <= j < i && m[j].0 == "Deleted"
    {
      q.Range(m[i].0, m[i].1.0, m[i].1.1);
      assert RangeFilters(m[..i + 1]) == RangeFilters(m[..i]) + [RangeOf(m[i].0, m[i].1.0, m[i].1.1)];
      if m[i].0 == "Deleted" {
        deleted := true;
      }
      i := i + 1;
    }
    assert m[..i] == m;
  }

  /** The query-building part of `apiSearch`. */
  method BuildSearch(p: SearchParams, q: EsQuery)
    modifies q
    ensures q.filters == old(q.filters) + SearchFilters(p)
    ensures q.sorts == old(q.sorts) + SearchSorts(p)
    ensures q.allowDeleted == (MentionsDeleted(p) || old(q.allowDeleted))
  {
    ghost var f0 := q.filters;
    AddFieldFilters(p, q);
    ghost var f2 := q.filters;
    if p.Near.Some? {
      q.Near(p.Near.value.L, p.Near.value.R);
    }
    assert q.filters == f2 + NearFilter(p);
    if |p.Sort| > 0 {
      // only the first one
      q.Sort(p.Sort[0].0, p.Sort[0].1);
    }
    ghost var f3 := q.filters;
    if |p.Tags| > 0 {
      q.Tagged(p.Tags);
    }
    assert q.filters == f3 + TagFilters(p);
    AppendFive(f0, TypeFilter(p), MatchFilters(p.Match), RangeFilters(p.Range), NearFilter(p), TagFilters(p));
  }

  /** The type, match and range filters of `apiSearch`; a match or range on
      Deleted lets deleted items through. */
  method AddFieldFilters(p: SearchParams, q: EsQuery)
    modifies q
    ensures q.filters == old(q.filters) + TypeFilter(p) + MatchFilters(p.Match) + RangeFilters(p.Range)
    ensures q.sorts == old(q.sorts)
    ensures q.allowDeleted == (MentionsDeleted(p) || old(q.allowDeleted))
  {
    if |p.Types| > 0 {
      q.Type(p.Types);
    }
    var inMatch := AddMatches(p.Match, q);
    var inRange := AddRanges(p.Range, q);
    if inMatch || inRange {
      // they did do something with Deleted, so deleted results are allowed
      q.AllowDeleted(true);
    }
  }

  lemma AppendFive<T>(a: seq<T>, b: seq<T>, c: seq<T>, d: seq<T>, e: seq<T>, f: seq<T>)
    ensures a + (b + c + d + e + f) == a + b + c + d + e + f
  {
  }

  /** `ApiItemsResponse`. */
  datatype ItemsResponse = ItemsResponse(Total: int, Count: int, Next: string, Results: seq<Bytes>)

  /** `searchToResponse`. */
  function SearchToResponse(path: string, q: Values, s: SearchResult, encode: Values -> string): (r: ItemsResponse)
    ensures r.Total == s.Count && r.Count == |s.Results| && r.Results == s.Results
    ensures r.Next == "" <==> s.Next.None?
  {
    ItemsResponse(s.Count, |s.Results|, ToNextUri(path, q, s.Next, encode), s.Results)
  }

  /** What the search handler reads from the request and gets from the
      search engine. */
  datatype SearchRequest = SearchRequest(
    path: string,
    qs: Values,
    params: Result<SearchParams>,   // json.Unmarshal of the "query" parameter
    resp: EsResponse)

  /** `apiSearch` against the Elasticsearch indexer: a query that does not
      parse is a 400; otherwise a fresh query is built, the page is read
      from the request, and the engine's answer is returned. `body` is the
      request sent to the engine. */
  method ApiSearch(es: EsSettings, req: SearchRequest, enc: Encoder, encodeValues: Values -> string)
    returns (body: string, r: Result<ItemsResponse>)
    ensures req.params.Err? ==> r == Err(NewApiError(req.params.error, "Could not parse ?query", 400)) && body == ""
    ensures req.params.Ok? ==> body == QueryJson(SentFilters(req.params.value), SearchSorts(req.params.value), enc)
    ensures req.params.Ok? ==>
              (r.Ok? <==> req.resp.Response? && req.resp.status / 100 == 2 && req.resp.decoded.Ok? && req.resp.decoded.value.Hits.Some?)
    ensures r.Ok? ==>
              var hits := req.resp.decoded.value.Hits.value;
              var page := GetPagination(req.qs, DefaultPageSize);
              r.value == ItemsResponse(hits.Total, |hits.Hits|,
                                       ToNextUri(req.path, req.qs, NextPage(page, hits.Total), encodeValues),
                                       Sources(hits.Hits))
  {
    if req.params.Err? {
      return "", Err(NewApiError(req.params.error, "Could not parse ?query", 400));
    }
    var params := req.params.value;
    var search := new EsQuery();
    BuildSearch(params, search);
    assert search.filters == SearchFilters(params) && search.sorts == SearchSorts(params);
    assert search.allowDeleted == MentionsDeleted(params);
    var page := GetPagination(req.qs, DefaultPageSize);
    var uri, res;
    uri, body, res := Search(es, search, Some(page), req.resp, enc);
    assert search.filters == SentFilters(params);
    if res.Err? {
      return body, Err(res.error);
    }
    var hits := req.resp.decoded.value.Hits.value;
    assert res.value == SearchResult(hits.Total, page, NextPage(page, hits.Total), Sources(hits.Hits));
    r := Ok(SearchToResponse(req.path, req.qs, res.value, encodeValues));
  }

  // ---------------------------------------------------------------------------
  // item handlers

  /** Whether the record says the item is deleted: a set, non-zero Deleted
      time. */
  predicate IsDeleted(item: Item) {
    item.Deleted.Some? && !IsZero(item.Deleted.value)
  }

  /** The deleted check as the handlers write it, `!item.Deleted.IsZero()`:
      the method is called through the pointer, which is nil for an item that
      was never deleted. */
  function DeletedCheckAsWritten(item: Item): (r: Result<bool>)
    ensures r.Ok? ==> r.value == IsDeleted(item)
  {
    if item.Deleted.None? then Err(Panic("nil pointer dereference")) else Ok(!IsZero(item.Deleted.value))
  }

  /** Every item as `Inspect` leaves it, never deleted, makes the handlers'
      check panic, so it could be neither fetched nor deleted nor edited. */
  lemma DeletedCheckAsWrittenPanicsOnLiveItems(item: Item)
    requires item.Deleted.None?
    ensures DeletedCheckAsWritten(item).Err?
    ensures !IsDeleted(item)
  {
  }

  function NoSuchItem(hash: string): string {
    "No such item: " + hash
  }

  /** The lookup the item handlers start with: the stored record; a missing
      one is a 404, another store error is passed on; a deleted one is a 404
      too unless deleted items are asked for. */
  function LookupItem(s: Service, hash: string, deletedOK: bool): (r: Result<Item>)
    requires WellFormedHash(hash)
    reads s.fs
    ensures r.Ok? <==> Meta(s.fs, s.root, hash, s.codec).Ok? && (deletedOK || !IsDeleted(Meta(s.fs, s.root, hash, s.codec).value))
    ensures r.Ok? ==> r.value == Meta(s.fs, s.root, hash, s.codec).value
    ensures Meta(s.fs, s.root, hash, s.codec).Err? && IsNotExist(Meta(s.fs, s.root, hash, s.codec).error) ==>
              r.Err? && r.error.Api? && r.error.code == 404 && r.error.msg == NoSuchItem(hash)
    ensures Meta(s.fs, s.root, hash, s.codec).Ok? && !deletedOK && IsDeleted(Meta(s.fs, s.root, hash, s.codec).value) ==>
              r == Err(Api(404, "Item is Deleted: " + hash, NoSuchItem(hash)))
  {
    match Meta(s.fs, s.root, hash, s.codec)
    case Err(e) => if IsNotExist(e) then Err(NewApiError(e, NoSuchItem(hash), 404)) else Err(e)
    case Ok(item) =>
      if !deletedOK && IsDeleted(item) then Err(NewApiError(Message("Item is Deleted: " + hash), NoSuchItem(hash), 404))
      else Ok(item)
  }

  /** `apiGetItem`: the record, with deleted ones shown only for "deleted=true". */
  function ApiGetItem(s: Service, hash: string, q: Values): (r: Result<Reply>)
    requires WellFormedHash(hash)
    reads s.fs
    ensures r.Ok? <==> LookupItem(s, hash, QueryGet(q, "deleted") == "true").Ok?
    ensures r.Ok? ==> r.value.status == 200 && r.value.payload == Json(s.codec.encode(Meta(s.fs, s.root, hash, s.codec).value), None)
  {
    match LookupItem(s, hash, QueryGet(q, "deleted") == "true")
    case Err(e) => Err(e)
    case Ok(item) => Ok(Reply(200, Json(s.codec.encode(item), None)))
  }

  /** `apiDeleteItem`: a live item is marked deleted at `now` and written back
      through `item_update`; success is a 204 with no body. */
  method ApiDeleteItem(s: Service, hash: string, now: Clock) returns (r: Result<Reply>)
    requires WellFormedHash(hash)
    modifies s.fs, s.index
    ensures old(LookupItem(s, hash, false)).Err? ==>
              r == Err(old(LookupItem(s, hash, false)).error) && unchanged(s.fs) && unchanged(s.index)
    ensures old(LookupItem(s, hash, false)).Ok? ==>
              var item := old(LookupItem(s, hash, false)).value;
              |item.Hash| >= 9 ==>
                var deleted := item.(Deleted := Some(now));
                (old(CanUpdate(s, item.Hash)) ==>
                   s.fs.files == old(s.fs.files)[MetaPath(s.root, item.Hash) := s.codec.encode(deleted)] &&
                   s.index.calls == old(s.index.calls) + [deleted] &&
                   (r.Ok? <==> s.index.reachable)) &&
                (!old(CanUpdate(s, item.Hash)) ==>
                   r.Err? && s.fs.files == old(s.fs.files) && s.index.calls == old(s.index.calls))
    ensures r.Ok? ==> r.value == Reply(204, Nil)
    ensures r.Err? && old(LookupItem(s, hash, false)).Ok? ==> r.error.Api? || r.error.Panic?
  {
    var found := LookupItem(s, hash, false);
    if found.Err? {
      return Err(found.error);
    }
    var item := found.value.(Deleted := Some(now));
    if |item.Hash| < 9 {
      // the record's own hash is too short for `getPath`
      return Err(Panic("slice bounds out of range"));
    }
    var err := ItemUpdate(s, item);
    if err.Some? {
      return Err(NewApiError(err.value, "Failed to delete item: " + hash, 500));
    }
    r := Ok(Reply(204, Nil));
  }

  /** After a successful delete, a plain fetch of the item is a 404 and a
      fetch with "deleted=true" still finds it. */
  lemma DeletedItemIsHidden(s: Service, hash: string, item: Item, now: Clock)
    requires WellFormedHash(hash) && item.Hash == hash
    requires RoundTrips(s.codec, item.(Deleted := Some(now)))
    requires MetaPath(s.root, hash) in s.fs.files && s.fs.files[MetaPath(s.root, hash)] == s.codec.encode(item.(Deleted := Some(now)))
    ensures ApiGetItem(s, hash, map[]).Err?
    ensures ApiGetItem(s, hash, map[]).error == Api(404, "Item is Deleted: " + hash, NoSuchItem(hash))
    ensures ApiGetItem(s, hash, map["deleted" := ["true"]]).Ok?
  {
    assert Meta(s.fs, s.root, hash, s.codec) == Ok(item.(Deleted := Some(now)));
    assert QueryGet(map["deleted" := ["true"]], "deleted") == "true";
    assert QueryGet(map[], "deleted") == "";
  }

  /** `apiSetItemTags`: the request's tags replace the live item's tags (a
      missing list is an empty one); a body that does not decode is a 400. */
  method ApiSetItemTags(s: Service, hash: string, body: Result<Option<seq<string>>>) returns (r: Result<Reply>)
    requires WellFormedHash(hash)
    modifies s.fs, s.index
    ensures old(LookupItem(s, hash, false)).Err? ==>
              r == Err(old(LookupItem(s, hash, false)).error) && unchanged(s.fs) && unchanged(s.index)
    ensures old(LookupItem(s, hash, false)).Ok? && body.Err? ==>
              r == Err(NewApiError(body.error, "Invalid Request Body", 400)) && unchanged(s.fs) && unchanged(s.index)
    ensures old(LookupItem(s, hash, false)).Ok? && body.Ok? ==>
              var item := old(LookupItem(s, hash, false)).value;
              var tags := if body.value.None? then [] else body.value.value;
              |item.Hash| >= 9 ==>
                (old(CanUpdate(s, item.Hash)) ==>
                   s.fs.files == old(s.fs.files)[MetaPath(s.root, item.Hash) := s.codec.encode(item.(Tags := tags))] &&
                   s.index.calls == old(s.index.calls) + [item.(Tags := tags)] &&
                   (r.Ok? <==> s.index.reachable)) &&
                (!old(CanUpdate(s, item.Hash)) ==>
                   r.Err? && s.fs.files == old(s.fs.files) && s.index.calls == old(s.index.calls))
    ensures r.Ok? ==> r.value == Reply(204, Nil)
  {
    var found := LookupItem(s, hash, false);
    if found.Err? {
      return Err(found.error);
    }
    if body.Err? {
      return Err(NewApiError(body.error, "Invalid Request Body", 400));
    }
    var tags := if body.value.None? then [] else body.value.value;
    var item := found.value;
    if |item.Hash| < 9 {
      return Err(Panic("slice bounds out of range"));
    }
    var updated, err := SetItemTags(s, item, tags);
    if err.Some? {
      return Err(NewApiError(err.value, "Error tagging Item", 500));
    }
    r := Ok(Reply(204, Nil));
  }

  /** `apiSetItemDescription`: the request's description replaces the live
      item's; a body that does not decode is a 400. */
  method ApiSetItemDescription(s: Service, hash: string, body: Result<string>) returns (r: Result<Reply>)
    requires WellFormedHash(hash)
    modifies s.fs, s.index
    ensures old(LookupItem(s, hash, false)).Err? ==>
              r == Err(old(LookupItem(s, hash, false)).error) && unchanged(s.fs) && unchanged(s.index)
    ensures old(LookupItem(s, hash, false)).Ok? && body.Err? ==>
              r == Err(NewApiError(body.error, "Invalid Request Body", 400)) && unchanged(s.fs) && unchanged(s.index)
    ensures old(LookupItem(s, hash, false)).Ok? && body.Ok? ==>
              var item := old(LookupItem(s, hash, false)).value.(Description := body.value);
              |item.Hash| >= 9 ==>
                (old(CanUpdate(s, item.Hash)) ==>
                   s.fs.files == old(s.fs.files)[MetaPath(s.root, item.Hash) := s.codec.encode(item)] &&
                   s.index.calls == old(s.index.calls) + [item] &&
                   (r.Ok? <==> s.index.reachable)) &&
                (!old(CanUpdate(s, item.Hash)) ==>
                   r.Err? && s.fs.files == old(s.fs.files) && s.index.calls == old(s.index.calls))
    ensures r.Err? && old(LookupItem(s, hash, false)).Ok? && body.Ok? ==> r.error.Api? || r.error.Panic?
    ensures r.Ok? ==> r.value == Reply(204, Nil)
  {
    var found := LookupItem(s, hash, false);
    if found.Err? {
      return Err(found.error);
    }
    if body.Err? {
      return Err(NewApiError(body.error, "Invalid Request Body", 400));
    }
    var item := found.value.(Description := body.value);
    if |item.Hash| < 9 {
      return Err(Panic("slice bounds out of range"));
    }
    var err := ItemUpdate(s, item);
    if err.Some? {
      return Err(NewApiError(err.value, "Failed to update item: " + hash, 500));
    }
    r := Ok(Reply(204, Nil));
  }
}
