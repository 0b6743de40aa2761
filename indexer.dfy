/** core/indexer.go: sort-direction parsing, pagination, the indexer
    registry, and the search index as the import pipeline sees it. */
module Indexer {

  import opened Common
  import opened Items

  /** `SortDir` is a Go bool. */
  type SortDir = bool

  const SortDirAscending: SortDir := true
  const SortDirDescending: SortDir := false

  /** `(*SortDir).UnmarshalText`: the receiver's new value and the error. */
  function UnmarshalSortDir(b: string, receiver: SortDir): (r: (SortDir, Option<Error>))
    ensures b == "asc" ==> r == (SortDirAscending, None)
    ensures b == "desc" ==> r == (SortDirDescending, None)
    ensures b != "asc" && b != "desc" ==>
              r == (receiver, Some(Message("Unknown sort direction: " + b)))
  {
    if b == "asc" then (SortDirAscending, None)
    else if b == "desc" then (SortDirDescending, None)
    else (receiver, Some(Message("Unknown sort direction: " + b)))
  }

  /** `Pagination`: offset and limit of a search. */
  datatype Pagination = Pagination(From: int, Size: int)

  /** `SearchResult`: the total hit count, the page served, the page after it
      (`None` when there is none) and the raw JSON of each result. */
  datatype SearchResult = SearchResult(Count: int, Page: Pagination, Next: Option<Pagination>, Results: seq<Bytes>)

  /** A setting of a `ServiceConfig` (a Go `interface{}`): a string, or any
      other value, kept as its `%v` rendering. */
  datatype ConfValue = ConfString(s: string) | ConfOther(shown: string)

  /** `ServiceConfig`: the registered type name and its settings. */
  datatype ServiceConfig = ServiceConfig(Type: string, Conf: map<string, ConfValue>)

  /** A registered factory, as a function of the configuration. */
  type Factory<T> = ServiceConfig -> Result<T>

  /** The lookup shared by `indexerRegistryGet`, `importerRegistryGet` and
      `storeRegistryGet`: `what` names the kind of service in the message. */
  function RegistryGet<T>(what: string, registry: map<string, Factory<T>>, conf: ServiceConfig): (r: Result<T>)
    ensures conf.Type !in registry ==> r == Err(Message(what + " does not exist: `" + conf.Type + "`"))
    ensures conf.Type in registry ==> r == registry[conf.Type](conf)
  {
    if conf.Type in registry then registry[conf.Type](conf)
    else Err(Message(what + " does not exist: `" + conf.Type + "`"))
  }

  /** The search index as the pipeline uses it: `Index(item)` sends the item
      and either succeeds or reports an error. Every call is recorded. */
  class SearchIndex {
    /** Every item passed to `Index`, in call order. */
    var calls: seq<Item>
    /** What the index holds, by hash. */
    var docs: map<string, Item>
    /** Whether the index accepts writes. */
    const reachable: bool

    constructor (reachable: bool)
      ensures calls == [] && docs == map[] && this.reachable == reachable
    {
      calls := [];
      docs := map[];
      this.reachable := reachable;
    }

    method Index(item: Item) returns (err: Option<Error>)
      modifies this
      ensures calls == old(calls) + [item]
      ensures err.None? <==> reachable
      ensures reachable ==> docs == old(docs)[item.Hash := item]
      ensures !reachable ==> docs == old(docs) && err == Some(IndexFailed(item.Hash))
    {
      calls := calls + [item];
      if reachable {
        docs := docs[item.Hash := item];
        err := None;
      } else {
        err := Some(IndexFailed(item.Hash));
      }
    }
  }
}
