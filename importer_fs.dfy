/** core/importer_fs.go: importing one scanned file (`importSingle`) and the
    table of pending, debounced imports the directory watcher keeps. */
module ImporterFs {

  import opened Common
  import opened Times
  import opened Items
  import opened Os
  import opened Scan
  import opened StoreFs
  import opened Indexer
  import opened ItemUpdates
  import opened Importer

  /** What `Inspect` needs besides the file: the inspecter registry, SHA-1 and
      the two clock readings. */
  datatype Inspection = Inspection(
    registry: map<string, Inspecter>,
    sha1: Bytes -> Digest,
    createdNow: Clock,
    addedNow: Clock)

  /** The item `importSingle` inspects from the scanned file. */
  function InspectFile(fs: FileSystem, scan: ScanResult, ins: Inspection): (r: Result<Item>)
    reads fs
    ensures scan.Path !in fs.files ==> r == Err(NotExist(scan.Path))
    ensures r.Ok? ==> WellFormedHash(r.value.Hash)
  {
    match fs.Open(scan.Path)
    case Err(e) => Err(e)
    case Ok(data) =>
      var r := Inspect(scan.Mime, Base(scan.Path), Stream(data, None), ins.registry, ins.sha1, ins.createdNow, ins.addedNow);
      if r.Ok? then InspectHashFormat(scan.Mime, Base(scan.Path), Stream(data, None), ins.registry, ins.sha1, ins.createdNow, ins.addedNow); r
      else r
  }

  /** The store step `importSingle` chooses, decided before anything is
      written: stop with an error, merge into the stored record and `Update`
      it, or `Set` a new item with the file's bytes. */
  datatype Plan =
    | Stop(err: Error)
    | Merge(item: Item)
    | Store(item: Item, data: Bytes)

  function PlanImport(s: Service, scan: ScanResult, ins: Inspection): (p: Plan)
    reads s.fs
    ensures p.Merge? || p.Store? ==> WellFormedHash(p.item.Hash)
  {
    match InspectFile(s.fs, scan, ins)
    case Err(e) => Stop(e)
    case Ok(item) =>
      match Meta(s.fs, s.root, item.Hash, s.codec)
      case Ok(existing) =>
        if MergeReady(item, existing) then Merge(MergeItemData(item, existing))
        else Stop(Panic("nil pointer dereference"))
      case Err(_) => Store(item, s.fs.files[scan.Path])
  }

  /** What the plan stores: a new item keeps what inspection found (so its
      Added is the import clock and its tags are the inspected ones); a
      re-import keeps the stored Added, Name and Description and puts the
      stored tags first. The import options play no part. */
  lemma PlanItem(s: Service, scan: ScanResult, ins: Inspection)
    ensures var p := PlanImport(s, scan, ins);
            var found := InspectFile(s.fs, scan, ins);
            (p.Store? ==> found.Ok? && p.item == found.value && p.item.Added == ins.addedNow &&
                          p.data == s.fs.files[scan.Path] && Meta(s.fs, s.root, p.item.Hash, s.codec).Err?) &&
            (p.Merge? ==> found.Ok? && Meta(s.fs, s.root, found.value.Hash, s.codec).Ok? &&
                          var existing := Meta(s.fs, s.root, found.value.Hash, s.codec).value;
                          p.item.Added == existing.Added && p.item.Name == existing.Name &&
                          p.item.Description == existing.Description &&
                          p.item.Tags == existing.Tags + found.value.Tags &&
                          p.item.Hash == found.value.Hash)
  {
  }

  /** Whether the plan's store write succeeds in the current state. */
  predicate StoreSucceeds(s: Service, p: Plan)
    requires p.Merge? || p.Store?
    requires |p.item.Hash| >= 9
    reads s.fs
  {
    if p.Merge? then CanUpdate(s, p.item.Hash)
    else
      !s.fs.Exists(Location(s.root, p.item.Hash)) && ShardDir(s.root, p.item.Hash) !in s.fs.denied &&
      MetaPath(s.root, p.item.Hash) !in s.fs.denied && Location(s.root, p.item.Hash) !in s.fs.denied
  }

  /** The store step of `importSingle`: `Update` the merged record, or `Set`
      the new item (the reader is rewound first, so `Set` copies the whole
      file). Only the record and content paths of the item are written. */
  method StoreStep(s: Service, p: Plan) returns (err: Option<Error>)
    requires p.Merge? || p.Store?
    requires WellFormedHash(p.item.Hash)
    modifies s.fs
    ensures err.None? <==> old(StoreSucceeds(s, p))
    ensures p.Merge? ==> s.fs.dirs == old(s.fs.dirs)
    ensures old(s.fs.files).Keys <= s.fs.files.Keys
    ensures forall q :: q in old(s.fs.files) && q != MetaPath(s.root, p.item.Hash) && q != Location(s.root, p.item.Hash) ==>
              q in s.fs.files && s.fs.files[q] == old(s.fs.files)[q]
    ensures err.None? ==> MetaPath(s.root, p.item.Hash) in s.fs.files &&
                          s.fs.files[MetaPath(s.root, p.item.Hash)] == s.codec.encode(p.item)
    ensures err.None? && p.Store? ==> Location(s.root, p.item.Hash) in s.fs.files &&
                                      s.fs.files[Location(s.root, p.item.Hash)] == p.data
  {
    if p.Merge? {
      err := Update(s.fs, s.root, p.item, s.codec);
    } else {
      err := Set(s.fs, s.root, p.item, Stream(p.data, None), s.codec);
    }
    MetaPathIsNoLocation(s.root, p.item.Hash, p.item.Hash);
  }

  /** `importSingle`. Opening, inspecting and looking up the stored record
      only read, and give the plan; then, each only if the one before it
      succeeded: the store step, indexing, and removing the source file when
      asked to. */
  method ImportSingle(s: Service, scan: ScanResult, opts: ImportOptions, ins: Inspection) returns (err: Option<Error>)
    modifies s.fs, s.index
    ensures var p := old(PlanImport(s, scan, ins));
            p.Stop? ==> err == Some(p.err) && unchanged(s.fs) && unchanged(s.index)
    ensures var p := old(PlanImport(s, scan, ins));
            p.Merge? ==> s.fs.dirs == old(s.fs.dirs)
    ensures var p := old(PlanImport(s, scan, ins));
            !p.Stop? ==>
              // the index sees the planned item, and only after the store step succeeded
              (s.index.calls == old(s.index.calls) + [p.item] <==> old(StoreSucceeds(s, p))) &&
              (!old(StoreSucceeds(s, p)) ==> err.Some? && s.index.calls == old(s.index.calls) && scan.Path in s.fs.files) &&
              // the source file goes only when asked to and indexing succeeded
              (scan.Path !in s.fs.files ==> opts.DeleteAfterImport && s.index.reachable && old(StoreSucceeds(s, p))) &&
              (err.None? <==> old(StoreSucceeds(s, p)) && s.index.reachable &&
                              (opts.DeleteAfterImport ==> scan.Path !in s.fs.denied))
    ensures var p := old(PlanImport(s, scan, ins));
            !p.Stop? && err.None? ==>
              // the store holds the record, and the bytes of a new item
              (RoundTrips(s.codec, p.item) && !(opts.DeleteAfterImport && scan.Path == MetaPath(s.root, p.item.Hash)) ==>
                 Meta(s.fs, s.root, p.item.Hash, s.codec) == Ok(p.item)) &&
              (p.Store? ==> Get(s.fs, s.root, p.item.Hash) == Ok(p.data))
  {
    var plan := PlanImport(s, scan, ins);
    if plan.Stop? {
      return Some(plan.err);
    }
    assert scan.Path in s.fs.files;
    err := StoreStep(s, plan);
    if err.Some? {
      return;
    }
    err := s.index.Index(plan.item);
    if err.Some? {
      return;
    }
    if opts.DeleteAfterImport {
      err := s.fs.Remove(scan.Path);
    }
  }

  /** The watcher's table of pending imports (`pendingImports`) and the wait
      group that shutdown waits on. A pending entry is a debounced function
      that captured the options of the event that created it. */
  /** Removing a present key takes one key away. */
  lemma KeysRemoved<V>(m: map<Path, V>, k: Path)
    requires k in m
    ensures |(m - {k}).Keys| == |m.Keys| - 1
  {
    assert (m - {k}).Keys == m.Keys - {k};
  }

  class PendingImports {
    /** `pendingImports`: each path with the options its function captured. */
    var pending: map<Path, ImportOptions>
    /** The wait group's counter. */
    var waiting: int
    /** Every call that (re)started a path's debounce timer, in order. */
    var triggered: seq<Path>
    /** The errors sent on `out`. */
    var errors: seq<Error>
    /** The jobs handed to the import workers. */
    var jobs: seq<ScanResult>

    /** Shutdown can finish once every pending entry has fired: one wait-group
        count per entry. */
    predicate Balanced()
      reads this
    {
      waiting == |pending.Keys|
    }

    constructor ()
      ensures pending == map[] && waiting == 0 && triggered == [] && errors == [] && jobs == []
      ensures Balanced()
    {
      pending := map[];
      waiting := 0;
      triggered := [];
      errors := [];
      jobs := [];
    }

    /** `pendingImport`: a new path gets an entry and one wait-group count; a
        path already pending only restarts its timer, keeping the options it
        was created with. */
    method PendingImport(name: Path, opts: ImportOptions)
      modifies this
      ensures name !in old(pending) ==> pending == old(pending)[name := opts] && waiting == old(waiting) + 1
      ensures name in old(pending) ==> pending == old(pending) && waiting == old(waiting)
      ensures triggered == old(triggered) + [name]
      ensures errors == old(errors) && jobs == old(jobs)
      ensures old(Balanced()) ==> Balanced()
    {
      if name !in pending {
        waiting := waiting + 1;
        pending := pending[name := opts];
      }
      triggered := triggered + [name];
    }

    /** The file information `os.Stat` gives for an existing path. */
    static function StatInfo(fs: FileSystem, name: Path): FileInfo
      reads fs
    {
      FileInfo(Base(name), if name in fs.files then |fs.files[name]| else 0)
    }

    /** The job a firing hands on: the scan result of a path that still
        exists and has a wanted type. */
    static function FiredJobs(fs: FileSystem, name: Path, opts: ImportOptions, table: map<string, string>): (r: seq<ScanResult>)
      reads fs
      ensures |r| <= 1
      ensures !fs.Exists(name) ==> r == []
      ensures r != [] ==> r[0].Path == name && r[0].Mime in MimeSet(opts.MimeTypes)
    {
      if !fs.Exists(name) then []
      else
        match NewScanResult(name, MimeSet(opts.MimeTypes), StatInfo(fs, name), table)
        case Some(res) => [res]
        case None => []
    }

    /** The debounced function firing, as the Go code has it: the entry is
        removed first; a path that no longer exists sends the stat error and
        returns without marking the wait group done. */
    method FireAsWritten(name: Path, fs: FileSystem, table: map<string, string>)
      requires name in pending
      modifies this
      ensures pending == old(pending) - {name}
      ensures !fs.Exists(name) ==> errors == old(errors) + [NotExist(name)] && waiting == old(waiting)
      ensures !fs.Exists(name) && old(Balanced()) ==> waiting == |pending.Keys| + 1
      ensures fs.Exists(name) ==> errors == old(errors) && waiting == old(waiting) - 1
      ensures jobs == old(jobs) + FiredJobs(fs, name, old(pending)[name], table)
      ensures triggered == old(triggered)
    {
      var opts := pending[name];
      KeysRemoved(pending, name);
      pending := pending - {name};
      if !fs.Exists(name) {
        errors := errors + [NotExist(name)];
        return;
      }
      var mimeMap := SliceToMap(opts.MimeTypes);
      var res := NewScanResult(name, mimeMap, StatInfo(fs, name), table);
      if res.Some? {
        jobs := jobs + [res.value];
      }
      waiting := waiting - 1;
    }

    /** The debounced function with the wait group marked done on every path,
        so a file that vanishes before its import cannot block shutdown. */
    method Fire(name: Path, fs: FileSystem, table: map<string, string>)
      requires name in pending
      modifies this
      ensures pending == old(pending) - {name}
      ensures waiting == old(waiting) - 1
      ensures !fs.Exists(name) ==> errors == old(errors) + [NotExist(name)]
      ensures fs.Exists(name) ==> errors == old(errors)
      ensures jobs == old(jobs) + FiredJobs(fs, name, old(pending)[name], table)
      ensures triggered == old(triggered)
      ensures old(Balanced()) ==> Balanced()
    {
      var opts := pending[name];
      KeysRemoved(pending, name);
      pending := pending - {name};
      if !fs.Exists(name) {
        errors := errors + [NotExist(name)];
      } else {
        var mimeMap := SliceToMap(opts.MimeTypes);
        var res := NewScanResult(name, mimeMap, StatInfo(fs, name), table);
        if res.Some? {
          jobs := jobs + [res.value];
        }
      }
      waiting := waiting - 1;
    }
  }
}
