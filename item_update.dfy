/** The service a record edit goes through, and `item_update` from
    core/item.go: store the record, then index it. */
module ItemUpdates {

  import opened Common
  import opened Items
  import opened Os
  import opened StoreFs
  import opened Indexer

  /** The parts of `Service` the edits use: the file store (a root directory
      on a filesystem, with its JSON codec) and the search index. */
  datatype Service = Service(fs: FileSystem, root: Path, codec: Codec, index: SearchIndex)

  /** `Update` can write the record of `hash`: its shard directory exists and
      the record file may be created. */
  predicate CanUpdate(s: Service, hash: string)
    requires |hash| >= 9
    reads s.fs
  {
    ShardDir(s.root, hash) in s.fs.dirs && MetaPath(s.root, hash) !in s.fs.denied
  }

  /** `item_update`: the store is written first and the index is only asked
      when that succeeded. */
  method ItemUpdate(s: Service, item: Item) returns (err: Option<Error>)
    requires |item.Hash| >= 9
    modifies s.fs, s.index
    ensures s.fs.dirs == old(s.fs.dirs)
    ensures old(CanUpdate(s, item.Hash)) ==>
              s.fs.files == old(s.fs.files)[MetaPath(s.root, item.Hash) := s.codec.encode(item)] &&
              s.index.calls == old(s.index.calls) + [item] &&
              (err.None? <==> s.index.reachable)
    ensures !old(CanUpdate(s, item.Hash)) ==>
              err.Some? && s.fs.files == old(s.fs.files) &&
              s.index.calls == old(s.index.calls) && s.index.docs == old(s.index.docs)
  {
    err := Update(s.fs, s.root, item, s.codec);
    if err.Some? {
      return;
    }
    err := s.index.Index(item);
  }
}
