/** core/store_fs.go: the content-addressed file store. An item's bytes live
    at `<root>/<hash[5:7]>/<hash[7:9]>/<hash>` and its record, JSON-encoded,
    next to them with the suffix ".meta". */
module StoreFs {

  import opened Common
  import opened Items
  import opened Os
  import opened Scan

  const MetafileExt: string := ".meta"
  const MetafileMime: string := "application/vnd.opfs.meta+json"

  /** JSON encoding and decoding of an item record (encoding/json). */
  datatype Codec = Codec(encode: Item -> Bytes, decode: Bytes -> Result<Item>)

  /** The JSON round trip for one record. */
  predicate RoundTrips(codec: Codec, item: Item) {
    codec.decode(codec.encode(item)) == Ok(item)
  }

  /** `getPath`: two directory levels named by the first two hex pairs after
      the "sha1-" prefix. The Go slicing panics on a hash shorter than 9. */
  function GetPath(hash: string): (p: Path)
    requires |hash| >= 9
    ensures |p| == 5 && p[2] == '/'
  {
    Join(hash[5..7], hash[7..9])
  }

  /** The shard directory is determined by characters 5 to 8 of the hash,
      and by nothing else. */
  lemma GetPathDependsOnlyOnShard(h1: string, h2: string)
    requires |h1| >= 9 && |h2| >= 9
    ensures GetPath(h1) == GetPath(h2) <==> h1[5..9] == h2[5..9]
  {
    if GetPath(h1) == GetPath(h2) {
      assert h1[5..7] == GetPath(h1)[..2] && h2[5..7] == GetPath(h2)[..2];
      assert h1[7..9] == GetPath(h1)[3..] && h2[7..9] == GetPath(h2)[3..];
      assert h1[5..9] == h1[5..7] + h1[7..9];
      assert h2[5..9] == h2[5..7] + h2[7..9];
    } else {
      assert h1[5..7] == h1[5..9][..2] && h2[5..7] == h2[5..9][..2];
      assert h1[7..9] == h1[5..9][2..] && h2[7..9] == h2[5..9][2..];
    }
  }

  /** The directory `Set` creates for a hash. */
  function ShardDir(root: Path, hash: string): Path
    requires |hash| >= 9
  {
    Join(root, GetPath(hash))
  }

  /** `Location`: where the item's bytes are kept. */
  function Location(root: Path, hash: string): (p: Path)
    requires |hash| >= 9
    ensures |p| == |root| + 7 + |hash|
    ensures p[..|root|] == root && p[|p| - |hash|..] == hash
  {
    Join(ShardDir(root, hash), hash)
  }

  /** Distinct hashes are kept at distinct locations. */
  lemma LocationInjective(root: Path, h1: string, h2: string)
    requires |h1| >= 9 && |h2| >= 9
    requires Location(root, h1) == Location(root, h2)
    ensures h1 == h2
  {
    var p := Location(root, h1);
    assert h1 == p[|p| - |h1|..] && h2 == p[|p| - |h2|..];
  }

  /** Where `Meta` looks for the record: the location plus ".meta". */
  function MetaPath(root: Path, hash: string): (p: Path)
    requires |hash| >= 9
    ensures |p| == |Location(root, hash)| + |MetafileExt|
  {
    Location(root, hash) + MetafileExt
  }

  /** `Update` writes exactly the file `Meta` reads. */
  lemma UpdatePathIsMetaPath(root: Path, hash: string)
    requires |hash| >= 9
    ensures Join(ShardDir(root, hash), hash + MetafileExt) == MetaPath(root, hash)
  {
  }

  /** For hashes of one length (every "sha1-" hash has 45 characters) no
      record path is a content path. */
  lemma MetaPathIsNoLocation(root: Path, h1: string, h2: string)
    requires |h1| >= 9 && |h1| == |h2|
    ensures MetaPath(root, h1) != Location(root, h2)
  {
  }

  /** `readMetafile`: open the file and decode the record. */
  function ReadMetafile(fs: FileSystem, p: Path, codec: Codec): (r: Result<Item>)
    reads fs
    ensures p !in fs.files ==> r == Err(NotExist(p))
    ensures p in fs.files ==> r == codec.decode(fs.files[p])
  {
    match fs.Open(p)
    case Err(e) => Err(e)
    case Ok(b) => codec.decode(b)
  }

  /** `Meta`: the record stored for a hash. */
  function Meta(fs: FileSystem, root: Path, hash: string, codec: Codec): (r: Result<Item>)
    requires |hash| >= 9
    reads fs
    ensures MetaPath(root, hash) !in fs.files ==> r == Err(NotExist(MetaPath(root, hash)))
  {
    ReadMetafile(fs, MetaPath(root, hash), codec)
  }

  /** `Get`: the stored bytes for a hash. */
  function Get(fs: FileSystem, root: Path, hash: string): (r: Result<Bytes>)
    requires |hash| >= 9
    reads fs
    ensures Location(root, hash) !in fs.files ==> r == Err(NotExist(Location(root, hash)))
    ensures Location(root, hash) in fs.files ==> r == Ok(fs.files[Location(root, hash)])
  {
    fs.Open(Location(root, hash))
  }

  /** `files` after a write that happens only when `ok` holds. */
  function WriteIf(files: map<Path, Bytes>, p: Path, data: Bytes, ok: bool): map<Path, Bytes> {
    if ok then files[p := data] else files
  }

  /** `Update`: rewrite the record file of an item whose directory exists;
      nothing else on disk changes. */
  method Update(fs: FileSystem, root: Path, item: Item, codec: Codec) returns (err: Option<Error>)
    requires |item.Hash| >= 9
    modifies fs
    ensures fs.dirs == old(fs.dirs)
    ensures err.None? <==> ShardDir(root, item.Hash) in old(fs.dirs) && MetaPath(root, item.Hash) !in fs.denied
    ensures err.None? ==> fs.files == old(fs.files)[MetaPath(root, item.Hash) := codec.encode(item)]
    ensures err.Some? ==> fs.files == old(fs.files)
    ensures err.None? && RoundTrips(codec, item) ==> Meta(fs, root, item.Hash, codec) == Ok(item)
    ensures forall h :: |h| == |item.Hash| ==> Get(fs, root, h) == old(Get(fs, root, h))
  {
    var hash := item.Hash;
    UpdatePathIsMetaPath(root, hash);
    err := fs.WriteFile(ShardDir(root, hash), hash + MetafileExt, codec.encode(item));
    forall h | |h| == |item.Hash|
      ensures Get(fs, root, h) == old(Get(fs, root, h))
    {
      MetaPathIsNoLocation(root, hash, h);
    }
  }

  /** `Set`: store a new item's bytes and record. A present content file
      refuses the item; the two writes (concurrent in the Go code) are made
      one after the other, and a failed record write is reported first. */
  method Set(fs: FileSystem, root: Path, item: Item, rd: Stream, codec: Codec) returns (err: Option<Error>)
    requires |item.Hash| >= 9
    modifies fs
    ensures old(fs.Exists(Location(root, item.Hash))) ==>
              err == Some(DuplicateItem(item.Hash)) && fs.files == old(fs.files) && fs.dirs == old(fs.dirs)
    ensures !old(fs.Exists(Location(root, item.Hash))) && ShardDir(root, item.Hash) in fs.denied ==>
              err == Some(PermissionDenied(ShardDir(root, item.Hash))) && fs.files == old(fs.files) && fs.dirs == old(fs.dirs)
    ensures !old(fs.Exists(Location(root, item.Hash))) && ShardDir(root, item.Hash) !in fs.denied ==>
              fs.dirs == old(fs.dirs) + {ShardDir(root, item.Hash)} &&
              fs.files == WriteIf(WriteIf(old(fs.files), MetaPath(root, item.Hash), codec.encode(item), MetaPath(root, item.Hash) !in fs.denied),
                                  Location(root, item.Hash), rd.data, Location(root, item.Hash) !in fs.denied)
    ensures err.None? <==>
              !old(fs.Exists(Location(root, item.Hash))) && ShardDir(root, item.Hash) !in fs.denied &&
              MetaPath(root, item.Hash) !in fs.denied && Location(root, item.Hash) !in fs.denied && rd.failure.None?
    ensures err.None? ==> Get(fs, root, item.Hash) == Ok(rd.data)
    ensures err.None? && RoundTrips(codec, item) ==> Meta(fs, root, item.Hash, codec) == Ok(item)
  {
    var dir := ShardDir(root, item.Hash);
    var name := Join(dir, item.Hash);
    if fs.Exists(name) {
      return Some(DuplicateItem(item.Hash));
    }
    err := fs.MkdirAll(dir);
    if err.Some? {
      return;
    }
    var err1 := Update(fs, root, item, codec);
    var err2 := fs.WriteFile(dir, item.Hash, rd.data);
    if err2.None? {
      err2 := rd.failure;
    }
    MetaPathIsNoLocation(root, item.Hash, item.Hash);
    if err1.Some? {
      return err1;
    }
    return err2;
  }

  /** What `Iterate` delivers for the scanned record files: the decoded
      items and, separately, the errors, both in scan order. */
  function ReadAll(fs: FileSystem, results: seq<ScanResult>, codec: Codec): (seq<Item>, seq<Error>)
    reads fs
  {
    if results == [] then ([], [])
    else
      var prev := ReadAll(fs, results[..|results| - 1], codec);
      match ReadMetafile(fs, results[|results| - 1].Path, codec)
      case Ok(item) => (prev.0 + [item], prev.1)
      case Err(e) => (prev.0, prev.1 + [e])
  }

  /** Every scanned record file gives exactly one item or one error: a bad
      record does not stop the others. */
  lemma {:induction false} ReadAllAccountsForEveryFile(fs: FileSystem, results: seq<ScanResult>, codec: Codec)
    ensures |ReadAll(fs, results, codec).0| + |ReadAll(fs, results, codec).1| == |results|
    decreases |results|
  {
    if results != [] {
      ReadAllAccountsForEveryFile(fs, results[..|results| - 1], codec);
    }
  }

  /** When every record file decodes, `Iterate` yields one item per file and
      no error. */
  lemma {:induction false} ReadAllDecodable(fs: FileSystem, results: seq<ScanResult>, codec: Codec)
    requires forall k :: 0 <= k < |results| ==> ReadMetafile(fs, results[k].Path, codec).Ok?
    ensures ReadAll(fs, results, codec).1 == []
    ensures |ReadAll(fs, results, codec).0| == |results|
    decreases |results|
  {
    if results != [] {
      ReadAllDecodable(fs, results[..|results| - 1], codec);
      assert ReadMetafile(fs, results[|results| - 1].Path, codec).Ok?;
    }
  }

  /** `Iterate`, sequentialised: scan the store for record files and read each
      one. `aborted` is a scan that panicked on a directory read error. */
  method Iterate(fs: FileSystem, root: Path, tree: Listing, table: map<string, string>, codec: Codec)
    returns (items: seq<Item>, errs: seq<Error>, aborted: bool)
    ensures (items, errs) == ReadAll(fs, Walk(root, tree, {MetafileMime}, table).0, codec)
    ensures aborted == Walk(root, tree, {MetafileMime}, table).1
  {
    var results;
    results, aborted := RecursiveScan(root, tree, {MetafileMime}, table);
    items, errs := [], [];
    var i := 0;
    while i < |results|
      invariant 0 <= i <= |results|
      invariant (items, errs) == ReadAll(fs, results[..i], codec)
    {
      assert results[..i + 1][..i] == results[..i];
      var r := ReadMetafile(fs, results[i].Path, codec);
      if r.Ok? {
        items := items + [r.value];
      } else {
        errs := errs + [r.error];
      }
      i := i + 1;
    }
    assert results[..i] == results;
  }
}
