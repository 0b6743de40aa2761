# opfs, modelled in Dafny

opfs is a personal photo and video archive. It imports files from a scanned
or watched directory, inspects each one with a type-specific inspecter (JPEG,
MP4, tag), and names it by the SHA-1 of its bytes. A re-imported file is
merged with the stored record. Content and metadata go to a sharded,
content-addressed store on disk, and every record is sent to a search index
(Elasticsearch). A small HTTP API searches, fetches, tags, describes and
soft-deletes items. A browser UI keeps its state in a hub with two stores: an
LRU item cache and a selection.

This project models that core, one Dafny module per source file:

- `common.dfy`: options, results, bytes and the error values.
- `strconv.dfy`, `times.dfy`: decimal text and times as seconds.
- `item.dfy`: the item record, its type codec, `Inspect`, hashing and `mergeItemData`.
- `item_update.dfy`: `item_update`.
- `tags.dfy`: tag edits.
- `os.dfy`: the file system as a class over maps.
- `store_fs.dfy`: the sharded store.
- `scan.dfy`: the recursive scan.
- `importer.dfy`, `importer_fs.dfy`: the importers.
- `config.dfy`, `buffer_pool.dfy`: configuration and the buffer pool.
- `indexer.dfy`, `indexer_es.dfy`: the indexer, its registry and the Elasticsearch query builder.
- `errors.dfy`, `api.dfy`: the API's errors and handlers.
- `mp4.dfy`, `jpeg.dfy`, `tag_type.dfy`: the three inspecters.
- `hub.dfy`, `js_array.dfy`, `item_store.dfy`, `selection_store.dfy`: the UI state.

Code that updates state in place is modelled with classes whose methods carry
`modifies` clauses. That covers the file system, the search index, the
pending-import table, the buffer pool, the configuration, the MP4 reader, the
inspecter records, the hub and the UI stores. Pure code is modelled as
functions over datatypes. Each method is specified by a function of the old
state, and the properties the code promises are proved about those
functions.

SHA-1, JSON, EXIF decoding, `time.Parse`, the extension-to-MIME table and
`JSON.stringify` are parameters of the operations that use them. So are the
clock, `$HOME` and the HTTP responses of the search server. Where a property
needs JSON to round-trip, it says so as a hypothesis (`StoreFs.RoundTrips`).

## Model

| member | source | states |
|---|---|---|
| Common.BytesToString | types/tag/tag.go:37 | a Go `string(b)`: one character per byte, same length, each character's code is the byte |
| Strconv.Itoa | core/api.go:226-227 | `%d` of an integer: a non-empty string that starts with '-' exactly for negative numbers |
| Strconv.Atoi | core/api.go:244-249 | `strconv.Atoi`: an optional sign followed by a non-empty run of digits parses exactly when its signed value is within the 64-bit range, and then to that value; the empty string does not parse |
| Strconv.AddInt64 | core/indexer_elasticsearch.go:110 | Go's 64-bit addition: the sum when it fits, otherwise the sum wrapped by 2^64 into the int64 range |
| Strconv.DigitsValueOfNatToString | core/api.go:226-227 | the digits printed for a natural number have that number as their value |
| Strconv.AtoiItoa | core/api.go:226-249 | printing a 64-bit integer with `%d` and parsing it with `Atoi` gives it back |
| Strconv.ItoaInjective | core/api.go:226-227 | two different 64-bit integers never print the same |
| Times.AdjustTime | core/item.go:153-155 | the adjusted time is the instant truncated to the whole second at or before it |
| Items.StringNames | core/item.go:25-36 | `String` gives "Photo", "Video", "Tag" for exactly those three types and "<unknown>" for every other value, Unknown included |
| Items.MarshalText | core/item.go:38-44 | fails with ErrUnknownItemType exactly when `String` gives "<unknown>"; otherwise the text is the type's name and the type is one of the three known ones |
| Items.UnmarshalText | core/item.go:46-58 | succeeds exactly for "Photo", "Video" and "Tag", setting the type whose name that is; any other text gives ErrUnknownItemType and leaves the receiver unchanged |
| Items.TextRoundTrip | core/item.go:38-58 | unmarshalling the text of any type that marshals gives that type back, whatever the receiver held |
| Items.Hex | core/item.go:149 | `%x` of a byte slice: two lower-case hex digits per byte |
| Items.HexInjective | core/item.go:149 | two byte slices of one length with the same `%x` text are equal |
| Items.GenerateHash | core/item.go:143-150 | fails exactly when reading the stream fails, with that error |
| Items.GenerateHashFormat | core/item.go:149 | every hash is "sha1-" followed by 40 lower-case hex digits |
| Items.GenerateHashIdentifiesDigest | core/item.go:143-150 | two streams get the same hash exactly when their SHA-1 digests are equal |
| Items.Inspect | core/item.go:111-140 | an unregistered MIME type gives ErrUnknownMimeType; an inspecter error or a read error of the hash is returned; otherwise the item carries the inspected fields, the hash, the MIME type and name, the creation time defaulted to now when zero, a non-nil location, non-nil tags and the added time now |
| Items.InspectHashFormat | core/item.go:111-117 | every item `Inspect` returns carries a well-formed "sha1-" hash |
| Items.MergeItemData | core/item.go:171-205 | the merged item keeps the stored Added, Description and Name, takes the stored creation time and location only where the new ones are zero, appends the new tags to the stored ones (or keeps whichever is non-empty), and keeps the new item's other fields |
| Items.MergeTwiceRepeatsTags | core/item.go:171-205 | merging the merged item against the same stored record again gives the same item except that the stored tags appear twice: the merge does not deduplicate |
| Api.NewApiError | core/api.go:173-179 | the result is always an API error: an API error is returned as it is, any other is wrapped with the given code and message and keeps its text |
| Api.NewApiErrorIdempotent | core/api.go:173-179 | wrapping an already wrapped error changes nothing, whatever code and message the second wrap names |
| Api.RedactedError | core/api.go:56-64 | the served error keeps an API error's code and message, turns any other into a 500 "Unknown Error", and carries the underlying text only when errors are shown |
| Api.ServeJson | core/api.go:70-92 | a 3xx status needs a string value (otherwise the type assertion panics) and answers with its Location and an empty body; a value is answered with its JSON encoding plus a newline and the JSON content type; nil with an empty body; Content-Length is always the body's length and the common headers are kept |
| Api.ServeErrorHidesCause | core/api.go:56-64 | with errors hidden, a non-API error is answered 500 with a body that is the encoding of a "Unknown Error" API error with an empty error text |
| Api.Respond | core/api.go:43-51 | a handler's value is served by `serveJSON` with its status; a handler's error is answered with the redacted error's code |
| Api.QueryGet | core/api.go:244 | `url.Values.Get`: a missing key or one without values gives "" |
| Api.GetPagination | core/api.go:241-251 | "from" and "size" are the parsed integers; an unparsable or missing one is 0 and the default size respectively |
| Api.GetPaginationDefault | core/api.go:241-251 | without paging parameters the first page of the default size is asked for |
| Api.NextValues | core/api.go:224-227 | the next-page query has the request's keys plus "from" and "size", and every other key keeps its values |
| Api.ToNextUri | core/api.go:218-229 | the link is empty exactly when there is no next page |
| Api.NextUriRoundTrip | core/api.go:218-251 | reading the paging parameters back from a next-page query gives exactly that page |
| Api.MatchFilters | core/api.go:320-327 | one term filter per Match pair, in the order the pairs are ranged over |
| Api.RangeFilters | core/api.go:329-336 | one range filter per Range pair, in the order the pairs are ranged over |
| Api.SearchSorts | core/api.go:346-351 | at most one sort, present exactly when a Sort parameter is given |
| Api.DeletedHiddenUnlessMentioned | core/api.go:319-341 | the search sent to the engine filters deleted items out exactly when no Match or Range parameter names Deleted |
| Api.AddMatches | core/api.go:320-327 | the Match loop appends the term filters and reports whether a pair named Deleted, leaving sorts and the deleted flag alone |
| Api.AddRanges | core/api.go:329-336 | the Range loop appends the range filters and reports whether a pair named Deleted, leaving sorts and the deleted flag alone |
| Api.BuildSearch | core/api.go:313-354 | the query gains the type, match, range, distance and tag filters in that order, the first sort only, and allows deleted items exactly when a Match or Range names Deleted |
| Api.AddFieldFilters | core/api.go:313-340 | the query gains the type, match and range filters in that order, its sorts are unchanged, and deleted items become allowed exactly when a Match or Range names Deleted |
| Api.SearchToResponse | core/api.go:231-238 | the response's total is the engine's count, its count the number of results returned, and its link empty exactly when there is no next page |
| Api.ApiSearch | core/api.go:293-365 | an unparsable query is a 400 "Could not parse ?query"; otherwise the body sent holds the built filters (with deleted items filtered out unless mentioned) and sort, the answer succeeds exactly when the engine's answers with a 2xx status and decodable hits, and then carries the total, the hit sources and the next-page link |
| Api.DeletedCheckAsWritten | core/api.go:382 | `item.Deleted.IsZero()` through a nil pointer panics; where it does not, it says whether the item is deleted |
| Api.DeletedCheckAsWrittenPanicsOnLiveItems | core/api.go:382 | for every item whose Deleted pointer is nil (every item `Inspect` produces), the check as written panics although the item is not deleted |
| Api.LookupItem | core/api.go:367-384 | succeeds exactly when the record reads and is not deleted (or deleted items are allowed), and gives that record; a missing record is a 404 "No such item: <hash>"; a deleted one a 404 with "Item is Deleted: <hash>" |
| Api.ApiGetItem | core/api.go:367-386 | succeeds exactly when the lookup does, with deleted items allowed only for "deleted=true", answering 200 with the record's encoding |
| Api.ApiDeleteItem | core/api.go:388-411 | a lookup error is returned with nothing written; otherwise the record is written back with Deleted set to now and indexed, and the reply is 204 exactly when the index accepts it; a record that cannot be written gives an error with no file written and nothing indexed |
| Api.DeletedItemIsHidden | core/api.go:377-400 | after a delete, a plain fetch of the item is a 404 "Item is Deleted" and a fetch with "deleted=true" still finds it |
| Api.ApiSetItemTags | core/api.go:417-446 | a lookup error is returned and a body that does not decode is a 400 "Invalid Request Body", with nothing written in either case; otherwise the item's tags become the requested ones (none when the list is missing), it is stored and indexed, and the reply is 204 exactly when the index accepts it; a record that cannot be written gives an error with no file written and nothing indexed |
| Api.ApiSetItemDescription | core/api.go:452-477 | a lookup error is returned and a body that does not decode is a 400, with nothing written; otherwise the item's description becomes the requested one, it is stored and indexed, and the reply is 204 exactly when the index accepts it; a record that cannot be written gives an error with no file written and nothing indexed |
| Errors.ApiErrorTextInjective | core/api.go:168-171 | two API errors with the same error and message texts print the same only when their codes are equal |
| BufferPools.Buffer.constructor | core/buffer_pool.go:17 | a new buffer is empty with the requested capacity |
| BufferPools.Buffer.Reset | core/buffer_pool.go:23 | `Reset` empties the buffer and keeps its capacity |
| BufferPools.BufferPool.constructor | core/buffer_pool.go:32-34 | a new pool is empty, with the given pool size and buffer size |
| BufferPools.BufferPool.Get | core/buffer_pool.go:10-19 | the oldest pooled buffer is taken off the queue; from an empty pool a fresh empty buffer of the configured capacity; the queue never exceeds the pool size |
| BufferPools.BufferPool.Recycle | core/buffer_pool.go:21-30 | the buffer is emptied and then queued when the pool has room, dropped otherwise; the queue never exceeds the pool size |
| Config.Validated | core/config.go:55-74 | after validation every section is set and the cache path is not empty |
| Config.ValidatedKeepsWhatIsSet | core/config.go:24-74 | a nil section gets its default from `DefaultConfig`, an empty cache path "~/.opfs/cache"; set sections and a non-empty path are kept |
| Config.ValidatedIdempotent | core/config.go:55-74 | validating twice is validating once, and a configuration with nothing missing is left as it is |
| Config.Config.constructor | core/config.go:10-17 | the record holds the given sections |
| Config.Config.ValidateConfig | core/config.go:55-74 | the record's new sections are the validated configuration of its old ones |
| Config.ExpandHome | core/config.go:76-81 | a leading '~' is replaced by $HOME and the rest kept; any other path is unchanged |
| Config.ExpandHomeIdempotent | core/config.go:76-81 | expanding an expanded path changes nothing when $HOME does not start with '~' |
| Config.DefaultCachePathUnderHome | core/config.go:45-81 | the default cache path expands to "$HOME/.opfs/cache" |
| Indexer.UnmarshalSortDir | core/indexer.go:42-52 | "asc" gives ascending and "desc" descending with no error; any other text gives "Unknown sort direction: <text>" and leaves the receiver as it was |
| Indexer.RegistryGet | core/indexer.go:14-20 | with the kind "Indexer" (and "Importer" for the same lookup in core/importer.go:19-25): an unregistered type name gives "<kind> does not exist: `<type>`"; a registered one gives what its factory returns for the configuration |
| Indexer.SearchIndex.constructor | core/indexer.go:22-27 | a new index has received nothing and holds nothing |
| Indexer.SearchIndex.Index | core/indexer.go:23 | every call is recorded; a reachable index stores the item under its hash and succeeds, an unreachable one changes nothing and fails |
| IndexerEs.EsFactoryAsWritten | core/indexer_elasticsearch.go:19-38 | when both settings are given and `base` is a string, the index name is taken from `base` |
| IndexerEs.EsFactoryAsWrittenRefusesIndex | core/indexer_elasticsearch.go:29-36 | as written, a configuration naming only an index is refused with the "`index` must be a string value" message quoting "photos" |
| IndexerEs.EsFactoryAsWrittenIgnoresIndex | core/indexer_elasticsearch.go:29-36 | as written, a configuration naming both settings uses the base URL as the index name |
| IndexerEs.EsFactory | core/indexer_elasticsearch.go:19-38 | succeeds exactly when each given setting is a string; the base URL and the index are the given ones or the defaults "http://127.0.0.1:9200" and "opfs"; a non-string base is refused first |
| IndexerEs.EsFactoriesAgreeWithoutIndex | core/indexer_elasticsearch.go:19-38 | without an `index` setting the factory as written and the corrected one agree |
| IndexerEs.SortOrder | core/indexer_elasticsearch.go:309-315 | ascending is sent as "asc" and descending as "desc", and no direction shares a word |
| IndexerEs.SortOrderRoundTrip | core/indexer_elasticsearch.go:309-315 | the word a sort is sent with parses back to its direction with no error |
| IndexerEs.TermFilters | core/indexer_elasticsearch.go:260-268 | one term filter on the field per value, in order |
| IndexerEs.RangeOf | core/indexer_elasticsearch.go:281-293 | a range filter on the field with "gte" exactly for a non-nil min and "lte" exactly for a non-nil max |
| IndexerEs.JsonArray | core/indexer_elasticsearch.go:330 | a JSON array text is bracketed |
| IndexerEs.FilterBlock | core/indexer_elasticsearch.go:329-334 | the filter block is present exactly when there are filters |
| IndexerEs.SortBlock | core/indexer_elasticsearch.go:338-343 | the sort block is present exactly when there are sorts |
| IndexerEs.QueryJsonShape | core/indexer_elasticsearch.go:321-356 | the body starts with the match-all query prefix, continues with the filter block exactly when there are filters, and its sort array ends the body exactly when there are sorts |
| IndexerEs.EsQuery.constructor | core/indexer_elasticsearch.go:122-127 | a new query has no filters, no sorts, and does not allow deleted items |
| IndexerEs.EsQuery.Type | core/indexer_elasticsearch.go:242-252 | appends one terms filter on Type and changes nothing else |
| IndexerEs.EsQuery.AllowDeleted | core/indexer_elasticsearch.go:254-257 | sets the flag and changes nothing else |
| IndexerEs.EsQuery.Match | core/indexer_elasticsearch.go:260-268 | appends one term filter per value, in order, and changes nothing else |
| IndexerEs.EsQuery.Tagged | core/indexer_elasticsearch.go:271-278 | appends one term filter on Tags per tag, in order |
| IndexerEs.EsQuery.Range | core/indexer_elasticsearch.go:281-293 | appends one range filter and changes nothing else |
| IndexerEs.EsQuery.Near | core/indexer_elasticsearch.go:296-306 | appends one geo-distance filter of "<radius>km" around the position |
| IndexerEs.EsQuery.Sort | core/indexer_elasticsearch.go:309-319 | appends one sort with the direction's order word and changes nothing else |
| IndexerEs.EsQuery.MarshalJson | core/indexer_elasticsearch.go:321-348 | unless deleted items are allowed the not-deleted filter is appended to the query itself, then the body is rendered from its filters and sorts |
| IndexerEs.NextPage | core/indexer_elasticsearch.go:110-113 | there is a next page exactly when the total goes beyond this page's end, computed as a wrapping 64-bit sum, and it starts there with the same size |
| IndexerEs.NextPageProgress | core/indexer_elasticsearch.go:110-113 | while the page's end fits in 64 bits, following next pages of positive size strictly shrinks what is left and a size of zero or less never moves forward; when the end overflows, the next page starts at a negative offset, before this one |
| IndexerEs.NextPageWraps | core/indexer_elasticsearch.go:110-113 | a page of size 1 at the largest int64 offset is followed, for any total, by a page at the smallest int64 offset |
| IndexerEs.Sources | core/indexer_elasticsearch.go:106-109 | one raw result per hit, its source, in order |
| IndexerEs.SearchUri | core/indexer_elasticsearch.go:220-225 | the search request goes to a URI under the base URL |
| IndexerEs.ReadSearchResponse | core/indexer_elasticsearch.go:90-120 | a transport error, a non-2xx status ("ES status code: ...") or a decode error is returned, a body without hits dereferences nil; otherwise the result holds the total, the page, the next page (its start a wrapping 64-bit sum) and the hit sources |
| IndexerEs.Search | core/indexer_elasticsearch.go:84-120 | a missing page is the first ten results; the request URI carries the page, the body is the rendered query (which gains the not-deleted filter), and the result is what reading the response gives |
| IndexerEs.ListTags | core/indexer_elasticsearch.go:131-154 | succeeds exactly for a 2xx response whose body decodes with a "Tags" facet, giving its terms in order; a non-2xx status gives "ES status code: ..." |
| IndexerEs.IndexUri | core/indexer_elasticsearch.go:62 | the record is sent to a URI ending in its hash |
| IndexerEs.IndexOutcome | core/indexer_elasticsearch.go:76-81 | indexing succeeds exactly for a 2xx status |
| Importer.SliceToMap | core/importer.go:40-46 | the set holds exactly the listed strings |
| Importer.MimeSet | core/importer.go:40-46 | the MIME filter set holds exactly the listed types |
| Importer.MimeSetSize | core/importer.go:40-46 | the set is never larger than the list, and is as large exactly when the list has no repeats |
| Importer.PerformScan | core/importer.go:35-38 | the scan is the recursive walk of the import directory filtered by the set of the options' MIME types, so every result has one of those types |
| ImporterFs.InspectFile | core/importer_fs.go:204-212 | a path that cannot be opened gives its not-exist error; an inspected item has a well-formed 40-hex-digit hash |
| ImporterFs.PlanImport | core/importer_fs.go:204-230 | the item to merge or to store has a well-formed hash |
| ImporterFs.PlanItem | core/importer_fs.go:214-230 | a new item is stored as inspected, with the file's bytes, only when no record exists; a re-import keeps the stored Added, Name and Description, puts the stored tags first and keeps the hash |
| ImporterFs.StoreStep | core/importer_fs.go:215-230 | the write succeeds exactly when the store step can succeed; only the item's record and content paths change; on success the record holds the encoded item and a new item's content holds the file's bytes |
| ImporterFs.ImportSingle | core/importer_fs.go:193-247 | a failed inspection changes nothing; the item is indexed exactly when the store step succeeded; the source file is removed only when asked to and after indexing succeeded; on success the store reads back the item and a new item's bytes |
| ImporterFs.PendingImports.constructor | core/importer_fs.go:28 | the watcher starts with no pending imports and a zero wait group |
| ImporterFs.PendingImports.PendingImport | core/importer_fs.go:159-191 | a new path gets an entry with its options and one wait-group count; a pending path only restarts its timer and keeps its options; the count stays equal to the number of entries |
| ImporterFs.PendingImports.FiredJobs | core/importer_fs.go:171-185 | a firing hands on at most one job, none for a vanished file, and a job names the fired path with one of the wanted MIME types |
| ImporterFs.PendingImports.FireAsWritten | core/importer_fs.go:167-187 | the entry is removed; a vanished file sends its stat error and leaves the wait group one above the number of entries, so shutdown waits forever |
| ImporterFs.PendingImports.Fire | core/importer_fs.go:167-187 | the entry is removed and the wait group goes down by one on every path; a vanished file sends its stat error; otherwise the file's scan result, if wanted, becomes a job |
| Os.Join | core/recursive_scan.go:45 | the joined path is the directory, one '/', then the name |
| Os.JoinInjective | core/recursive_scan.go:45 | distinct names in one directory give distinct paths |
| Os.TrimTrailingSlashes | core/importer_fs.go:209 | a prefix of the path that does not end in '/' |
| Os.AfterLastSlash | core/importer_fs.go:209 | a suffix of the path that holds no '/' |
| Os.Base | core/importer_fs.go:209 | the base name is never empty |
| Os.BaseOfJoin | core/importer_fs.go:209 | the base of a directory joined with a plain name is that name, so an import names an item after its file |
| Os.AfterLastSlashOfSuffix | core/importer_fs.go:209 | after a prefix ending in '/', the text after the last slash is the slash-free rest |
| Os.FileSystem.constructor | core/store_fs.go:50 | the file system holds the given files, directories and refused paths |
| Os.FileSystem.Open | core/store_fs.go:150-157 | opening succeeds exactly for an existing file and reads its bytes; otherwise a not-exist error |
| Os.FileSystem.MkdirAll | core/store_fs.go:82-85 | succeeds exactly when the directory is not refused, adding it; files never change |
| Os.FileSystem.WriteFile | core/store_fs.go:94-100 | creating succeeds exactly when the directory exists and the path is not refused, and then sets exactly that file |
| Os.FileSystem.Remove | core/importer_fs.go:240-244 | removing succeeds exactly for an existing, unrefused file, and then deletes exactly that file |
| Scan.Ext | core/recursive_scan.go:59 | the extension is a suffix of the path that starts with its last '.' and holds no further '.' or '/' |
| Scan.ExtOfSuffix | core/recursive_scan.go:59 | a path ending in a dot-suffix without further dots or slashes has that suffix as its extension |
| Scan.ToLower | core/recursive_scan.go:59 | the same length, each ASCII capital lowered and every other character kept |
| Scan.NewScanResult | core/recursive_scan.go:58-69 | a result exactly when the MIME type of the lower-cased extension is wanted, holding the path, that type and the file information |
| Scan.ExtensionCaseInsensitive | core/recursive_scan.go:59 | extensions differing only in letter case get the same MIME type and are accepted alike |
| Scan.RecursiveScan | core/recursive_scan.go:30-56 | the results sent and whether the scan panicked are those of the depth-first walk: an unopenable directory gives nothing, a Readdir error other than EOF panics |
| Scan.ScanEntries | core/recursive_scan.go:36-55 | the Readdir loop gives the walk of the entries in order, stopping at the first panic |
| Scan.ScanEntry | core/recursive_scan.go:44-53 | a directory is scanned recursively under the joined path; a file is offered to newScanResult |
| Scan.WalkEntriesPanicSticks | core/recursive_scan.go:41-43 | after a panic, later entries add nothing |
| Scan.WalkEntriesAppend | core/recursive_scan.go:44-54 | walking two runs of entries is walking the first and then, unless it panicked, the second |
| Scan.UnopenableDirIsSkipped | core/recursive_scan.go:31-34 | a sub-directory that cannot be opened adds nothing and does not stop the walk of its siblings |
| Scan.WalkResultsAccepted | core/recursive_scan.go:50-52 | every emitted result is one newScanResult accepts for its own path, so its MIME type is wanted |
| Scan.WantedFileIsEmitted | core/recursive_scan.go:49-52 | a wanted file in the scanned directory is emitted whatever its name |
| StoreFs.GetPath | core/store_fs.go:55-57 | the shard path is two two-character directories |
| StoreFs.GetPathDependsOnlyOnShard | core/store_fs.go:54-57 | two hashes share a shard directory exactly when their characters 5 to 8 agree |
| StoreFs.Location | core/store_fs.go:66-68 | the content path lies under the store root and ends with the hash |
| StoreFs.LocationInjective | core/store_fs.go:66-68 | distinct hashes are kept at distinct paths |
| StoreFs.MetaPath | core/store_fs.go:60-63 | the record path is the content path plus ".meta" |
| StoreFs.UpdatePathIsMetaPath | core/store_fs.go:60-63 | Update writes exactly the file Meta reads |
| StoreFs.MetaPathIsNoLocation | core/store_fs.go:60-68 | for hashes of one length a record path is never a content path |
| StoreFs.ReadMetafile | core/store_fs.go:150-158 | a missing file gives its open error; otherwise the decoding of its bytes |
| StoreFs.Meta | core/store_fs.go:60-63 | a hash without a record file gives the not-exist error of the record path |
| StoreFs.Get | core/store_fs.go:114-117 | the bytes at the content path, or its not-exist error |
| StoreFs.Update | core/store_fs.go:120-130 | succeeds exactly when the shard directory exists and the record path is not refused, then rewrites exactly the record, which reads back; stored contents never change |
| StoreFs.Set | core/store_fs.go:70-112 | an existing content path gives "Duplicate Item" and changes nothing; otherwise the shard directory is made, then the record and the bytes are written independently; success exactly when both writes and the reader succeed, and then the bytes and the record read back |
| StoreFs.ReadAllAccountsForEveryFile | core/store_fs.go:136-146 | every scanned record file gives exactly one item or one error |
| StoreFs.ReadAllDecodable | core/store_fs.go:136-146 | when every record decodes there is one item per file and no error |
| StoreFs.Iterate | core/store_fs.go:132-148 | the items and errors are those of reading, in scan order, every file the walk of the store finds with the record MIME type |
| Tags.Without | core/tags.go:50-55 | no occurrence of the tag is left, every other tag is kept, and nothing is added |
| Tags.WithoutAppend | core/tags.go:51-55 | removal works list segment by segment, so the remaining tags keep their order |
| Tags.WithoutKeepsLengthIffAbsent | core/tags.go:56-59 | the filtered list is as long as the original exactly when the tag was absent |
| Tags.WithoutAbsent | core/tags.go:56-59 | a list without the tag is left as it is |
| Tags.SetItemTags | core/tags.go:20-23 | the tag list becomes exactly the given one and the item goes through item_update |
| Tags.AddTagToItem | core/tags.go:34-43 | a present tag leaves the item, the store and the index untouched; an absent one is appended and the item goes through item_update |
| Tags.RemoveTagFromItem | core/tags.go:46-62 | an absent tag leaves the item, the store and the index untouched; otherwise every occurrence is removed, the rest in order, and the item goes through item_update |
| ItemUpdates.ItemUpdate | core/item.go:209-214 | the record is written first and the index is asked only after that succeeded; a failed write changes neither the files nor the index |
| Mp4.Zeros | types/video/mp4.go:335 | a fresh buffer of n bytes holds zeros |
| Mp4.ReadCount | types/video/mp4.go:316 | a read copies what is left of the file up to the buffer's size, and nothing at or past the end |
| Mp4.ReadSeeker.constructor | types/video/mp4.go:55 | the reader is over the file's bytes with the cursor at the start |
| Mp4.ReadSeeker.Read | types/video/mp4.go:316-325 | copies what is left up to the buffer's size and advances the cursor by that much; EOF exactly when nothing is left; the rest of the buffer keeps its old bytes |
| Mp4.ReadSeeker.ReadFull | types/video/mp4.go:316-325 | the corrected header read: EOF when nothing is left, an unexpected EOF for part of a buffer, otherwise the next bytes in full |
| Mp4.ReadSeeker.Seek | types/video/mp4.go:342 | a move relative to the start, the cursor or the end; one before the start fails and leaves the cursor |
| Mp4.BigEndian4 | types/video/mp4.go:320 | the length field is the big-endian value of its four bytes |
| Mp4.ZerosAreZero | types/video/mp4.go:335-336 | an unfilled 8-byte buffer reads as length 0 |
| Mp4.StepFixed | types/video/mp4.go:315-356 | a round that goes on has read a full header and moves strictly forward; a found atom starts at the cursor, has the searched name and a header of at least 8 bytes inside the file |
| Mp4.FindAtomFrom | types/video/mp4.go:313-357 | the corrected search always ends; what it finds lies at or after the start, with its whole header in the file and the searched name |
| Mp4.FindMatchingAtom | types/video/mp4.go:344-346 | an atom with the searched name is found at the cursor with its length and an 8-byte header, even when its length is 0 |
| Mp4.FindSkipsOtherAtom | types/video/mp4.go:347-355 | another atom of length 0 ends the search with "atom not found"; one of greater length is skipped by exactly that length |
| Mp4.FindAtEnd | types/video/mp4.go:316-319 | at the end of the file both searches fail with EOF |
| Mp4.StepsAgreeOnOrdinaryAtoms | types/video/mp4.go:315-356 | on an atom with a full header and an ordinary length the search as written and the corrected one take the same step |
| Mp4.TruncatedFileSteps | types/video/mp4.go:315-356 | on a file ending in a 6-byte header of length 2, the search as written returns to the same offset in every round |
| Mp4.FindAsWrittenHangs | types/video/mp4.go:315-356 | the search as written never ends on that file, however many rounds it is given |
| Mp4.FindFixedStopsOnTruncatedFile | types/video/mp4.go:313-357 | the corrected search stops on that file with an unexpected EOF |
| Mp4.ExtendedLengthIsLost | types/video/mp4.go:334-337 | as written, an atom with a 64-bit length reads as length 0, so the "moov" atom after it is reported missing |
| Mp4.ExtendedLengthIsRead | types/video/mp4.go:334-337 | the corrected search reads the 64-bit length and finds the "moov" atom after that atom |
| Mp4.RoundAsWritten | types/video/mp4.go:315-356 | one round on the reader leaves the cursor and outcome of the round as written |
| Mp4.ReadHeaderAsWritten | types/video/mp4.go:314-325 | the two 4-byte reads into one buffer give the length and the name as left in the buffer, and fail with EOF exactly when fewer than 5 bytes remain |
| Mp4.FindAtomAsWritten | types/video/mp4.go:313-357 | the reader search as written gives the outcome and cursor of the search as written for that many rounds |
| Mp4.RoundFixed | types/video/mp4.go:315-356 | one corrected round on the reader leaves the cursor and outcome of the corrected round |
| Mp4.FindAtom | types/video/mp4.go:313-357 | the corrected reader search gives the outcome and cursor of the corrected search |
| Mp4.MvhdOffset | types/video/mp4.go:142-159 | over the corrected atom search, the mvhd data starts at least 16 bytes in and within the file |
| Mp4.SkipPast | types/video/mp4.go:144-150 | over the corrected atom search, finding an atom and moving past its header leaves the cursor at least 8 bytes further on and within the file, or gives the search's error |
| Mp4.FindAndSkip | types/video/mp4.go:144-156 | on the reader, the corrected search followed by a seek past the header leaves the cursor where the corrected search says, or returns its error |
| Mp4.GetMvhdAtom | types/video/mp4.go:142-159 | over the corrected atom search, succeeds exactly when "moov" and then "mvhd" inside it are found, leaving the cursor at the mvhd data; otherwise the search's error |
| Mp4.Read4 | types/video/mp4.go:302-307 | a 4-byte read succeeds exactly when the cursor is before the end |
| Mp4.CreationAt | types/video/mp4.go:299-310 | a creation time exactly when the byte 4 on from mvhd exists; it is never before 1904-01-01, and with a full field it is the epoch plus that big-endian count of seconds |
| Mp4.GetCreationTime | types/video/mp4.go:299-310 | the reader reads the creation time the file holds, or its error |
| Mp4.DurationAt | types/video/mp4.go:272-291 | EOF when the timescale lies past the end, "invalid timescale in mp4" for a zero timescale, and otherwise a duration that is never negative; its value is stated by `Mp4.DurationOfFullMvhd` |
| Mp4.DurationOfFullMvhd | types/video/mp4.go:272-291 | when both words lie in the file and the timescale is not zero, the duration is the big-endian word 16 bytes past mvhd over the one 12 bytes past it, rounded to the nearest second |
| Mp4.GetDuration | types/video/mp4.go:272-291 | the reader reads the duration the file holds, or its error |
| Mp4.RoundedSeconds | types/video/mp4.go:287-289 | the duration is never negative and within half a second of the raw count divided by the timescale |
| Mp4.ReadAt | types/video/mp4.go:275-286 | a read at the end of the file gives nothing; otherwise the buffer keeps its length and the copy count is what is left, up to the buffer size |
| Mp4.ReadAtFull | types/video/mp4.go:275-286 | a read with room for the whole buffer fills it with the next bytes of the file |
| Mp4.Record | types/video/mp4.go:73-94 | the record holds the file's size, the dimensions only when found, and the duration only when it could be read |
| Mp4.Inspect | types/video/mp4.go:55-105 | over the corrected atom search, a missing mvhd gives "cannot find mvhd: ...", a missing creation time "cannot get creation time: ..."; otherwise a video item created at the mvhd creation time, with the location only when found, and the record in Meta |
| Mp4.InspectReader | types/video/mp4.go:55-105 | over the corrected atom search, inspecting on the reader, with its seeks back to mvhd and to the end, gives the item the file determines |
| Mp4.ReadRecord | types/video/mp4.go:73-94 | over the corrected atom search, seeking back to the mvhd atom, reading the duration, and seeking to the end for the size give the record the file determines |
| Mp4.InspectCreatedAfterEpoch | types/video/mp4.go:294-310 | an inspected video is never created before 1904 |
| Mp4.EnsureMeta | types/video/mp4.go:46-52 | the record is decoded from Meta only when the size is still zero |
| Jpeg.Candidates | types/photo/jpeg.go:101-120 | the dates of the usable fields in field order: never the camera-bug date, and none exactly when no field is usable |
| Jpeg.CollectDates | types/photo/jpeg.go:101-120 | the loop over the date fields collects exactly the dates of the usable fields, in order, and never the camera-bug date |
| Jpeg.FirstCandidate | types/photo/jpeg.go:103-120 | the first date comes from the first usable field |
| Jpeg.CreatedOf | types/photo/jpeg.go:121-125 | a creation time exactly when there is a first date and it is not the zero time; otherwise "Could not get date photo taken" |
| Jpeg.CreatedPrefersDigitized | types/photo/jpeg.go:39 | a usable DateTimeDigitized is the creation time |
| Jpeg.CreatedFallsBack | types/photo/jpeg.go:39 | without a usable DateTimeDigitized, a usable DateTime is the creation time |
| Jpeg.OrientationOf | types/photo/jpeg.go:128-131 | Normal without an orientation tag; otherwise its first integer converted to a 64-bit unsigned flag, and a panic for a tag without integers |
| Jpeg.Oriented | types/photo/jpeg.go:132-135 | the four quarter-turn orientations swap width and height, the others keep them |
| Jpeg.OrientedTwice | types/photo/jpeg.go:132-135 | swapping twice gives the stored dimensions back |
| Jpeg.StringTag | types/photo/jpeg.go:139-144 | a tag's text exactly when it is present and string-valued |
| Jpeg.DeviceParts | types/photo/jpeg.go:138-150 | the device is empty exactly when neither Make nor Model gives text; a lone one is the whole device; with both, Make, one space, then Model |
| Jpeg.DecimalDegrees | types/photo/jpeg.go:192-199 | degrees plus minutes and seconds in sixtieths; valid minutes and seconds stay within the degree |
| Jpeg.DecimalDegreesMinutes | types/photo/jpeg.go:192-199 | with no seconds, the fraction of the degree is the minutes over sixty |
| Jpeg.LocationOf | types/photo/jpeg.go:170-186 | the position stays zero unless both coordinates are three rationals; then it is defined exactly when no denominator is zero, and otherwise the rational constructor panics |
| Jpeg.MetaOf | types/photo/jpeg.go:127-156 | the record holds the size, the orientation, the device and the dimensions as displayed |
| Jpeg.InspectJpeg | types/photo/jpeg.go:78-167 | a header or EXIF error is returned as is and a missing date gives "Could not get date photo taken"; success exactly when the date, orientation and position can be read, giving a photo item with that creation time, position and record |
| Jpeg.JpegPhoto.constructor | types/photo/jpeg.go:25-27 | a new inspecter has an empty record |
| Jpeg.JpegPhoto.Inspect | types/photo/jpeg.go:78-167 | the record is reset and filled in step by step, giving the item the decoded tags determine and, on success, exactly that record; a failure keeps the old size |
| Jpeg.JpegPhoto.SetOrientation | types/photo/jpeg.go:127-136 | fails exactly when the orientation cannot be read; otherwise keeps that orientation and swaps width and height for a quarter turn, changing nothing else |
| Jpeg.JpegPhoto.SetDevice | types/photo/jpeg.go:138-150 | the device becomes Make, Model or both joined by a space, and nothing else changes |
| Jpeg.JpegPhoto.EnsureMeta | types/photo/jpeg.go:69-75 | the record is decoded from Meta only when the size is still zero, and kept when decoding fails |
| TagType.NewlineIndex | types/tag/tag.go:33 | the offset of the first line feed, or none when there is none |
| TagType.NewlineIndexAfter | types/tag/tag.go:33 | a line feed after a run without one is found there |
| TagType.ReadLine | types/tag/tag.go:32-33 | empty data gives the stream's error or EOF; a line is at most 512 bytes, holds no line feed and is a prefix of the data |
| TagType.SlugRoundTrip | types/tag/tag.go:27-48 | a slug of fewer than 512 bytes written on its own line, ended by "\n" or "\r\n", reads back |
| TagType.LongLineIsCut | types/tag/tag.go:12 | a first line longer than the buffer is cut to its first 512 bytes |
| TagType.LastLineIgnoresFailure | types/tag/tag.go:33-36 | a last line without a line feed is read whole even when the stream then fails |
| TagType.InspectTag | types/tag/tag.go:27-48 | fails exactly when no line can be read, with that error; otherwise a tag item whose Meta holds the slug |
| TagType.Tag.constructor | types/tag/tag.go:14-16 | a new inspecter has no slug |
| TagType.Tag.Inspect | types/tag/tag.go:27-48 | gives the tag item and keeps the slug only when a line was read |
| TagType.Tag.EnsureMeta | types/tag/tag.go:18-24 | the slug is decoded from Meta only when there is none yet, and kept when decoding fails |
| Hub.Member | ui/src/lib/Hub.js:88 | reading a property throws exactly on undefined and null; an object gives its own property or undefined |
| Hub.StripDots | ui/src/lib/Hub.js:86 | the path is never longer, and is unchanged exactly when it neither starts nor ends with a dot |
| Hub.Split | ui/src/lib/Hub.js:86 | at least one key, none holding a dot, and a single key exactly when the path has no dot |
| Hub.SplitJoin | ui/src/lib/Hub.js:86 | joining the keys with dots gives the path back |
| Hub.JoinSplit | ui/src/lib/Hub.js:86 | splitting dot-free keys joined with dots gives the keys back |
| Hub.SplitNoDot | ui/src/lib/Hub.js:86 | a path without a dot is a single key |
| Hub.SetKeys | ui/src/lib/Hub.js:95-97 | `_set` always has at least one key to write |
| Hub.Lookup | ui/src/lib/Hub.js:88 | the walk throws exactly when a key is read from undefined or null |
| Hub.SetIn | ui/src/lib/Hub.js:92-115 | after `_set` the path holds the value; the change flag says whether a defined value was deleted, or whether the serialised value differs; keys beside the path keep their values; a missing first key never throws; errors are TypeErrors |
| Hub.LookupThroughObjects | ui/src/lib/Hub.js:82-90 | through objects, `get` finds the value at the path |
| Hub.GetAfterSet | ui/src/lib/Hub.js:82-115 | after a successful `_set` of a defined value, `get` of the same path returns it |
| Hub.SetRef | ui/src/lib/Hub.js:93-97 | a falsy path changes nothing and reports no change; a throw leaves the state as it was |
| Hub.SetEach | ui/src/lib/Hub.js:119-123 | no keys, no change |
| Hub.SetEachAppend | ui/src/lib/Hub.js:121-123 | the keys are set in order: setting two runs is setting the first and then the second, the flags OR-ed, stopping at a throw |
| Hub.SetAll | ui/src/lib/Hub.js:117-126 | `set` with null as the object throws the TypeError of `Object.keys(null)` |
| Hub.Hub.constructor | ui/src/lib/Hub.js:8-22 | the hub starts with an empty state, no stores and nothing scheduled |
| Hub.Hub.Dispatch | ui/src/lib/Hub.js:13-21 | schedules one dispatch unless one is pending, so at most one is ever pending; the state does not change |
| Hub.Hub.RunDispatch | ui/src/lib/Hub.js:15-18 | the scheduled callback emits one "dispatch" event and clears the flag |
| Hub.Hub.Get | ui/src/lib/Hub.js:82-90 | a falsy path gives undefined; otherwise the walk of the keys through the state, stopping at the first falsy value |
| Hub.Hub.SetPath | ui/src/lib/Hub.js:92-115 | the state and the change flag are those `_set` gives on the tree, and nothing is scheduled |
| Hub.Hub.Set | ui/src/lib/Hub.js:117-131 | the state and the flag are those of setting the path or each key; a dispatch is scheduled exactly when something changed |
| Hub.Hub.Unset | ui/src/lib/Hub.js:133-135 | unset is a set of undefined: the path is deleted and a dispatch is scheduled when a defined value was there |
| Hub.Hub.Inflate | ui/src/lib/Hub.js:49-60 | the state is replaced; it succeeds exactly when every dumped store name is registered and every created store's own `inflate` accepts its dump, creating them all; otherwise it stops at the first failing dump: an unregistered name throws "Cannot create Store: `<name>`" keeping the stores created before it, and a store's refusal is rethrown after that store was created |
| Hub.Created | ui/src/lib/Hub.js:51-58 | the stores after inflating are the old ones plus every dumped name |
| JsArray.IndexOf | ui/src/lib/ItemStore.js:60 | the first position holding the value, and -1 exactly when it is absent |
| JsArray.SpliceOne | ui/src/lib/ItemStore.js:61 | removes exactly the element at a valid start; a start of -1 removes the last element instead, and an empty list stays empty |
| JsArray.Without | ui/src/lib/SelectionStore.js:41 | the reference removal of the first occurrence: the same list when the value is absent, one shorter when present |
| JsArray.WithoutMultiset | ui/src/lib/SelectionStore.js:41 | removal takes away exactly one occurrence of the value and nothing else |
| JsArray.SpliceIndexOf | ui/src/lib/ItemStore.js:60-61 | splicing where indexOf finds a present value removes its first occurrence |
| JsArray.WithoutAppended | ui/src/lib/SelectionStore.js:35-41 | pushing a new value and then removing it gives the list back |
| JsArray.WithoutNoDuplicates | ui/src/lib/SelectionStore.js:41 | removal from a list without repeats leaves one without repeats and without the value |
| JsArray.SpliceIndexOfUnique | ui/src/lib/SelectionStore.js:39-44 | in a list without repeats, splicing where indexOf finds a value removes exactly that value, keeps every other one and leaves no repeats |
| JsArray.PrependNoDuplicates | ui/src/lib/ItemStore.js:48 | unshifting a new value keeps the list free of repeats |
| JsArray.AppendNoDuplicates | ui/src/lib/SelectionStore.js:35 | pushing a new value keeps the list free of repeats |
| ItemStore.AfterPutAsWritten | ui/src/lib/ItemStore.js:45-55 | an entry is evicted exactly when the array outgrows the capacity, and then the key unmapped is always "undefined" |
| ItemStore.AfterPut | ui/src/lib/ItemStore.js:45-55 | an entry is evicted exactly when the array outgrows the capacity; without eviction the new entry heads the array and the key maps to it; with one, the evicted entry's own key is unmapped |
| ItemStore.AfterGet | ui/src/lib/ItemStore.js:56-65 | an unmapped key changes nothing and gives undefined; a mapped key gives its value, keeps the map and puts its entry at the head |
| ItemStore.Truncate | ui/src/lib/ItemStore.js:38-43 | what is left is the longest prefix within the capacity, and exactly the popped entries' keys are unmapped, the rest keeping their entries |
| ItemStore.AfterSetCapacity | ui/src/lib/ItemStore.js:33-44 | refused with "n must be a number greater than 0" exactly for a non-number or a number below one (NaN and Infinity pass); otherwise the capacity is set and the array never grows |
| ItemStore.EmptyIsGood | ui/src/lib/ItemStore.js:28-32 | a reset store keeps the cache invariant |
| ItemStore.PutKeepsGood | ui/src/lib/ItemStore.js:45-55 | the corrected put keeps the invariant, puts the new entry first, keeps the older entries in order, and returns the tail entry whose key is no longer mapped |
| ItemStore.GetKeepsGood | ui/src/lib/ItemStore.js:56-65 | get of a mapped key keeps the invariant and rearranges the same entries: its entry first, then the others in order |
| ItemStore.GetTwice | ui/src/lib/ItemStore.js:56-65 | a second get of the same key changes nothing more |
| ItemStore.SetCapacityKeepsGood | ui/src/lib/ItemStore.js:33-44 | setting the capacity keeps the invariant |
| ItemStore.EvictedKeyStaysMapped | ui/src/lib/ItemStore.js:51 | as written, with capacity 1, putting "a" then "b" evicts "a" but leaves it mapped; a later get of "a" returns the evicted value and drops the live "b" entry |
| ItemStore.EvictedKeyIsUnmapped | ui/src/lib/ItemStore.js:45-55 | the corrected put unmaps "a" in the same run, so the store stays good and get of "a" finds nothing |
| ItemStore.ItemStore.constructor | ui/src/lib/ItemStore.js:7-10 | a new store is reset and keeps the invariant |
| ItemStore.ItemStore.Reset | ui/src/lib/ItemStore.js:28-32 | an empty array and map and the largest capacity |
| ItemStore.ItemStore.Dump | ui/src/lib/ItemStore.js:13-19 | the dump holds the capacity and the array, and a good store's dump fits its capacity, so setting it again drops nothing |
| ItemStore.ItemStore.Put | ui/src/lib/ItemStore.js:45-55 | the corrected put leaves the state and evicted entry the cache function gives, and keeps the invariant |
| ItemStore.ItemStore.PutAsWritten | ui/src/lib/ItemStore.js:45-55 | put as written leaves the state and evicted entry of the as-written cache function |
| ItemStore.ItemStore.Get | ui/src/lib/ItemStore.js:56-65 | leaves the state and value the cache function gives; on a good store the invariant holds and the entries are the same, rearranged |
| ItemStore.ItemStore.SetCapacity | ui/src/lib/ItemStore.js:33-44 | a refused capacity changes nothing and throws; otherwise the popping loop leaves the state the cache function gives, and the invariant holds |
| SelectionStore.SelectionStore.constructor | ui/src/lib/SelectionStore.js:5-8 | a new store is reset: nothing selected |
| SelectionStore.SelectionStore.Reset | ui/src/lib/SelectionStore.js:11-14 | nothing is selected and the list and map agree |
| SelectionStore.SelectionStore.Inflate | ui/src/lib/SelectionStore.js:18-21 | the map is the dumped data (an empty map for a falsy one) and the list holds each of its keys exactly once |
| SelectionStore.SelectionStore.Contains | ui/src/lib/SelectionStore.js:25-27 | true exactly for a mapped id, which in a valid store is a selected id |
| SelectionStore.SelectionStore.AddItem | ui/src/lib/SelectionStore.js:31-38 | a selected id changes nothing; otherwise the item store's get runs, and only an item it has is appended, mapped and notified once; the list and map keep agreeing |
| SelectionStore.SelectionStore.RemoveItem | ui/src/lib/SelectionStore.js:39-44 | an unselected id changes nothing; otherwise it is spliced out where indexOf finds it, unmapped and notified once, which in a valid store removes its only occurrence |
| SelectionStore.SelectionStore.ToggleItem | ui/src/lib/SelectionStore.js:48-54 | a selected id ends unselected and leaves the item store alone; an unselected one ends selected exactly when the item store has it, appended at the end |

## Left out

- Concurrency: the worker goroutines and the fan-in of results in `Import`, and the watch loop with its event channel (core/importer_fs.go:59-157), are not modelled. The import step each worker runs is modelled, and the pending-import table is modelled as a class.
- The goroutine in `doRecursiveScan` and the channel it fills are not modelled: the scan yields its results as a sequence, in walk order.
- `ReindexStore` and the store iterator's channel are not modelled; the read of every record (`StoreFs.ReadAll`) is.
- `StoreFs.Set` writes the content file and the record file from two goroutines; the model writes them one after the other, so which write finishes first is not modelled.
- core/debounce.go is not part of this model. A debounced call is recorded in `ImporterFs.PendingImports.triggered`, and its firing is the explicit `Fire` call, so timers and the order in which they fire are not modelled.
- core/thumbnails.go and core/cache.go are not part of this model: they drive external image tools and an on-disk cache.
- Floating point: latitudes, longitudes, JPEG GPS rationals and the MP4 duration are computed in exact reals, not float64, so rounding and NaN are not modelled.
- `Mp4.DurationAt`: the duration is rounded in exact reals; float64 rounding of very long durations is not modelled. When the duration word is cut short by the end of the file, the value read (which keeps bytes of the timescale in the reused buffer) is not stated beyond being non-negative.
- `Jpeg.LocationOf`: the degrees are exact reals; float conversion of the rationals is not modelled.
- The MP4 dimensions (the track-header matrix, `atan2`, fixed-point numbers), `parseISO6709` and `getMp4Location` are not modelled. Their results are parameters of the MP4 inspecter (`Mp4.Extras`).
- SHA-1, the JSON encoder and decoder, the JPEG header and EXIF decoders, `time.Parse`, the extension-to-MIME table and `JSON.stringify` are parameters. Where a property needs JSON to decode what it encoded, it says so as a hypothesis (`StoreFs.RoundTrips`).
- HTTP: routing, `ServeContent`, request parsing and the HTTP client of the Elasticsearch indexer are not modelled. The handlers take their parsed arguments, and the search server's responses are parameters.
- ui/src/lib/json_xhr.js and ui/src/lib/logic.js are not part of this model: they are browser requests and view logic.
- The process wiring is not part of this model: core/service.go, the cmd and build programs, the embedded UI, core/store.go, the exporters, the null importer, api_urls.js, bootstrap.js, app_state.js, the JSX views and orientation.js.
- The factory registrations of the fs store, the fs importer and the inspecter types (`init` functions in store_fs.go, importer_fs.go and the type packages) are not modelled. The registries are maps passed to the operations that use them.
- `SetTagItems` in core/tags.go is a stub that returns a channel nobody closes; it is not modelled.
- `ItemStore.inflate` is not modelled: its `forEach` callback runs without the store as `this` (ui/src/lib/ItemStore.js:23-25), so it cannot fill the map as written.
- `SelectionStore.SelectionStore.AddItem` takes the item store as a parameter in place of `this._hub.getStore("items")` (ui/src/lib/SelectionStore.js:22-24); the hub's store registry is not modelled.
- The `selected` getter of the selection store reads a field that does not exist (ui/src/lib/SelectionStore.js:28-30); it is not modelled.
- SelectionStore's `dump` and `getItem`, and the hub's `getStore`, `toJSON`, `register`, `on` and dispatch events, are not modelled apart from what `Hub.Hub` keeps: the stores and the pending dispatches.
- JavaScript objects are maps: inherited prototype properties, the order of `Object.keys`, arrays as hub values, `NaN` and `-0` are not modelled.
- Entry objects in the item cache are identified by a serial `id`, not by reference; aliasing between the cache array and the map is captured only through these ids.
- `Config.ExpandHome`: requires a non-empty path, because the Go code indexes `s[0]` and panics on "".
- `SelectionStore.SelectionStore.Inflate`: requires the dumped data to be an object or falsy; a truthy primitive is not modelled.
- `Api.ApiGetItem`: requires a well-formed "sha1-" hash. A hash shorter than 9 characters panics in `getPath`, and other malformed hashes are not modelled.
- `Api.ApiDeleteItem`: requires a well-formed hash, as `Api.ApiGetItem` does.
- `Api.ApiSetItemTags`: requires a well-formed hash, as `Api.ApiGetItem` does.
- `Api.ApiSetItemDescription`: requires a well-formed hash, as `Api.ApiGetItem` does.
- `Api.LookupItem`: requires a well-formed hash, as `Api.ApiGetItem` does.
- `ItemUpdates.ItemUpdate`: requires a hash of at least 9 characters, because `getPath` slices it and panics on a shorter one.
- `Tags.SetItemTags`, `Tags.AddTagToItem` and `Tags.RemoveTagFromItem` require a hash of at least 9 characters, for the same reason.
- `StoreFs.Location` and the other store operations require a hash of at least 9 characters, for the same reason.
- `BufferPools.BufferPool.constructor`: requires a non-negative pool size; making a channel of negative capacity panics in Go.
- `BufferPools.BufferPool.Get`: requires a non-negative buffer size when the pool is empty; making a slice of negative length panics in Go.
- `Scan.ToLower`: lowers only the ASCII capitals A-Z; Go's `strings.ToLower` (core/recursive_scan.go:59) lowers every Unicode capital, so an extension with non-ASCII capitals is looked up differently. Unicode case tables are not modelled.
- `StoreFs.Codec`: the JSON encoder is a total function, so `StoreFs.Update`, `StoreFs.Set`, `ItemUpdates.ItemUpdate` and `IndexerEs` indexing never fail to encode. In the source `enc.Encode(item)` (core/store_fs.go:128-129) and `json.Marshal(i)` (core/indexer_elasticsearch.go:63-66) can fail, for example with `ErrUnknownItemType` from `MarshalText`, and a failed encode after `os.Create` leaves an empty `.meta` file; neither is modelled.
- `Mp4.MvhdOffset`, `Mp4.SkipPast`, `Mp4.FindAndSkip`, `Mp4.GetMvhdAtom`, `Mp4.Inspect`, `Mp4.InspectReader` and `Mp4.ReadRecord` are built on the corrected atom search (`Mp4.FindAtomFrom`, `Mp4.FindAtom`), not on the search as written. As written, a "moov" after an atom with a 64-bit size is not found, so `Inspect` fails with "cannot find mvhd: atom not found", and on `Mp4.TruncatedFile` it never returns; both appear under Findings.
- `Hub.Hub.Inflate`: which dumps a store's own `inflate` refuses is a parameter (`refuses`), and what a store does with an accepted dump is not modelled. The one store in the source, `ItemStore`, throws a TypeError for any non-empty `data` (ui/src/lib/ItemStore.js:23-25, see the `ItemStore.inflate` line), so a hub dump holding a used item cache cannot be inflated.
- `Hub.SetIn`, `Hub.Hub.Get`, `Hub.Hub.Set` and the rest of the hub work on immutable value trees. The source shares objects by reference: `_set` stores the value object itself, `get` returns the object inside the state, so a caller can change the state through it without a change event, and an array path is consumed in place by `k.shift()` (ui/src/lib/Hub.js:88, 102, 111, 136-140). Sharing, mutation through returned references and the emptied path array are not modelled.
- `Os.Join`: the joined path is `dir + "/" + name`, while Go's `path.Join` (core/recursive_scan.go:45) also cleans the result. For a directory with a trailing slash, the root "/", or a name holding "." or ".." segments the two differ; the same holds for the store roots joined in `StoreFs.Location`. Path cleaning is not modelled.
- `Mp4.FindAsWrittenHangs`: the unbounded search loop as written is run with a fuel bound; a search that runs out of fuel stands for one that never ends.

## Findings

| source | as written | input that shows it | evidently intended | confidence | as-written member | corrected member |
|---|---|---|---|---|---|---|
| core/importer_fs.go:171-175 | when `os.Stat` fails, the debounced function returns before `wg.Done()` | a watched file deleted before its debounce fires: the wait group stays one above the pending count, so `wg.Wait` at shutdown blocks forever | mark the wait group done on every path | not executed | ImporterFs.PendingImports.FireAsWritten | ImporterFs.PendingImports.Fire |
| core/indexer_elasticsearch.go:32 | the `index` setting is read from the `baseurl` variable | `{"index":"photos"}` fails with "ES-Indexer Config `index` must be a string value: got `photos`"; `{"base":"http://es:9200","index":"photos"}` names the index "http://es:9200" | type-assert the `index` value itself | not executed | IndexerEs.EsFactoryAsWrittenIgnoresIndex | IndexerEs.EsFactory |
| core/api.go:382 | `item.Deleted.IsZero()` is called on a nil `*time.Time` (also at lines 399, 430 and 465) | any item that was never deleted: the handler panics | treat a nil `Deleted` as not deleted | not executed | Api.DeletedCheckAsWrittenPanicsOnLiveItems | Api.LookupItem |
| types/video/mp4.go:315-356 | the atom search ignores a short read of the header and seeks forward forever | `Mp4.TruncatedFile`, a 16-byte "free" atom followed by `00 00 00 02 'a' 'b'` | stop with an error when a header runs past the end of the data (the corrected search gives an unexpected EOF) | not executed | Mp4.FindAsWrittenHangs | Mp4.FindFixedStopsOnTruncatedFile |
| types/video/mp4.go:334-337 | for an atom of size 1 the 64-bit length buffer is allocated but never read, and the search skips by the wrong amount | `Mp4.ExtendedFile`, where a "moov" after an atom with a 64-bit size is reported missing | read the 64-bit length and skip by it | not executed | Mp4.ExtendedLengthIsLost | Mp4.FindAtomFrom |
| ui/src/lib/ItemStore.js:51 | eviction deletes `_map[oldest.Hash]`, not the evicted key | capacity 1, put "a", then put "b": "a" stays mapped, and a later get("a") returns the evicted value and drops "b" | delete the evicted entry's key | not executed | ItemStore.EvictedKeyStaysMapped | ItemStore.EvictedKeyIsUnmapped |
