/** core/recursive_scan.go: a depth-first walk of a directory tree that
    emits every file whose extension maps to one of the wanted MIME types. */
module Scan {

  import opened Common
  import opened Os

  /** What `os.FileInfo` tells the scanner about a plain file. */
  datatype FileInfo = FileInfo(name: string, size: nat)

  /** A directory entry as `Readdir` returns it. */
  datatype Entry =
    | File(info: FileInfo)
    | Dir(name: string, listing: Listing)

  /** What reading a directory gives: it cannot be opened at all, or it yields
      `entries` over its `Readdir` batches and then either `io.EOF` or, when
      `fails` holds, another error. */
  datatype Listing =
    | Unopenable
    | Listed(entries: seq<Entry>, fails: bool)

  function EntryName(e: Entry): string {
    match e
    case File(info) => info.name
    case Dir(name, _) => name
  }

  /** `ScanResult`. */
  datatype ScanResult = ScanResult(Path: Path, Mime: string, Info: FileInfo)

  /** `path.Ext`: the suffix from the final '.' of the final path element,
      or "" when that element has no '.'. */
  function Ext(p: string): (e: string)
    ensures |e| <= |p| && e == p[|p| - |e|..]
    ensures e != "" ==> e[0] == '.' && forall k :: 1 <= k < |e| ==> e[k] != '.' && e[k] != '/'
    decreases |p|
  {
    if |p| == 0 || p[|p| - 1] == '/' then ""
    else if p[|p| - 1] == '.' then "."
    else
      var e := Ext(p[..|p| - 1]);
      if e == "" then "" else e + [p[|p| - 1]]
  }

  /** The extension of `p + e` is `e` when `e` is a dot followed by no further
      dot or slash. */
  lemma {:induction false} ExtOfSuffix(p: string, e: string)
    requires |e| >= 1 && e[0] == '.'
    requires forall k :: 1 <= k < |e| ==> e[k] != '.' && e[k] != '/'
    ensures Ext(p + e) == e
    decreases |e|
  {
    var s := p + e;
    if |e| == 1 {
      assert s[|s| - 1] == '.';
    } else {
      var e' := e[..|e| - 1];
      var c := e[|e| - 1];
      assert c != '.' && c != '/';
      assert s[..|s| - 1] == p + e' && s[|s| - 1] == c;
      ExtOfSuffix(p, e');
      assert Ext(s) == Ext(p + e') + [c];
      assert e' + [c] == e;
    }
  }


  function LowerChar(c: char): char {
    if 'A' <= c <= 'Z' then (c as int + 32) as char else c
  }

  /** `strings.ToLower` on ASCII letters. */
  function ToLower(s: string): (r: string)
    ensures |r| == |s|
    ensures forall k :: 0 <= k < |s| ==> r[k] == LowerChar(s[k])
  {
    seq(|s|, k requires 0 <= k < |s| => LowerChar(s[k]))
  }

  /** `mime.TypeByExtension` over an extension table; "" when unknown. */
  function TypeByExtension(table: map<string, string>, ext: string): string {
    if ext in table then table[ext] else ""
  }

  /** The MIME type the scanner assigns to a path. */
  function MimeOf(table: map<string, string>, p: Path): string {
    TypeByExtension(table, ToLower(Ext(p)))
  }

  /** `newScanResult`: a result exactly when the MIME type of the lower-cased
      extension is wanted. */
  function NewScanResult(fullpath: Path, mimeMap: set<string>, info: FileInfo, table: map<string, string>): (r: Option<ScanResult>)
    ensures r.Some? <==> MimeOf(table, fullpath) in mimeMap
    ensures r.Some? ==> r.value == ScanResult(fullpath, MimeOf(table, fullpath), info)
  {
    var m := MimeOf(table, fullpath);
    if m in mimeMap then Some(ScanResult(fullpath, m, info)) else None
  }

  /** Upper- and lower-case spellings of an extension are accepted alike. */
  lemma ExtensionCaseInsensitive(p: Path, e1: string, e2: string, mimeMap: set<string>, info: FileInfo, table: map<string, string>)
    requires |e1| >= 1 && e1[0] == '.' && forall k :: 1 <= k < |e1| ==> e1[k] != '.' && e1[k] != '/'
    requires |e2| >= 1 && e2[0] == '.' && forall k :: 1 <= k < |e2| ==> e2[k] != '.' && e2[k] != '/'
    requires ToLower(e1) == ToLower(e2)
    ensures MimeOf(table, p + e1) == MimeOf(table, p + e2)
    ensures NewScanResult(p + e1, mimeMap, info, table).Some? <==> NewScanResult(p + e2, mimeMap, info, table).Some?
  {
    ExtOfSuffix(p, e1);
    ExtOfSuffix(p, e2);
  }

  /** The walk as a value: the results in emission order and whether a
      `Readdir` error aborted the scan (the Go code panics). */
  function Walk(dir: Path, listing: Listing, mimeMap: set<string>, table: map<string, string>): (seq<ScanResult>, bool)
    decreases listing
  {
    match listing
    case Unopenable => ([], false)
    case Listed(entries, fails) =>
      var w := WalkEntries(dir, entries, mimeMap, table);
      (w.0, w.1 || fails)
  }

  /** The entries of one directory, in `Readdir` order, stopping at the first
      sub-walk that panics. */
  function WalkEntries(dir: Path, entries: seq<Entry>, mimeMap: set<string>, table: map<string, string>): (seq<ScanResult>, bool)
    decreases entries
  {
    if entries == [] then ([], false)
    else
      var prev := WalkEntries(dir, entries[..|entries| - 1], mimeMap, table);
      if prev.1 then prev
      else
        var step := WalkEntry(dir, entries[|entries| - 1], mimeMap, table);
        (prev.0 + step.0, step.1)
  }

  function WalkEntry(dir: Path, e: Entry, mimeMap: set<string>, table: map<string, string>): (seq<ScanResult>, bool)
    decreases e
  {
    match e
    case Dir(name, sub) => Walk(Join(dir, name), sub, mimeMap, table)
    case File(info) =>
      var r := NewScanResult(Join(dir, info.name), mimeMap, info, table);
      (if r.Some? then [r.value] else [], false)
  }

  /** `recursiveScan`: the results sent on `out`, in order, and whether the
      scan panicked. */
  method RecursiveScan(dir: Path, listing: Listing, mimeMap: set<string>, table: map<string, string>)
    returns (out: seq<ScanResult>, panicked: bool)
    ensures (out, panicked) == Walk(dir, listing, mimeMap, table)
    decreases listing
  {
    if listing.Unopenable? {
      return [], false;
    }
    out, panicked := ScanEntries(dir, listing.entries, mimeMap, table);
    panicked := panicked || listing.fails;
  }

  /** The `Readdir` loop of `recursiveScan` over one directory's entries. */
  method ScanEntries(dir: Path, entries: seq<Entry>, mimeMap: set<string>, table: map<string, string>)
    returns (out: seq<ScanResult>, panicked: bool)
    ensures (out, panicked) == WalkEntries(dir, entries, mimeMap, table)
    decreases entries
  {
    out := [];
    var i := 0;
    while i < |entries|
      invariant 0 <= i <= |entries|
      invariant (out, false) == WalkEntries(dir, entries[..i], mimeMap, table)
    {
      assert entries[..i + 1][..i] == entries[..i];
      var more, p := ScanEntry(dir, entries[i], mimeMap, table);
      out := out + more;
      if p {
        WalkEntriesPanicSticks(dir, entries[..i + 1], entries[i + 1..], mimeMap, table);
        assert entries[..i + 1] + entries[i + 1..] == entries;
        return out, true;
      }
      i := i + 1;
    }
    assert entries[..i] == entries;
    panicked := false;
  }

  /** One entry: a directory is scanned recursively, a file is offered to
      `newScanResult`. */
  method ScanEntry(dir: Path, e: Entry, mimeMap: set<string>, table: map<string, string>)
    returns (out: seq<ScanResult>, panicked: bool)
    ensures (out, panicked) == WalkEntry(dir, e, mimeMap, table)
    decreases e
  {
    var full := Join(dir, EntryName(e));
    match e
    case Dir(_, sub) =>
      out, panicked := RecursiveScan(full, sub, mimeMap, table);
    case File(info) =>
      var r := NewScanResult(full, mimeMap, info, table);
      out := if r.Some? then [r.value] else [];
      panicked := false;
  }

  /** Once a sub-walk panics, later entries add nothing. */
  lemma {:induction false} WalkEntriesPanicSticks(dir: Path, a: seq<Entry>, b: seq<Entry>, mimeMap: set<string>, table: map<string, string>)
    requires WalkEntries(dir, a, mimeMap, table).1
    ensures WalkEntries(dir, a + b, mimeMap, table) == WalkEntries(dir, a, mimeMap, table)
    decreases |b|
  {
    if b != [] {
      var ab := a + b;
      assert ab[..|ab| - 1] == a + b[..|b| - 1];
      WalkEntriesPanicSticks(dir, a, b[..|b| - 1], mimeMap, table);
    } else {
      assert a + b == a;
    }
  }

  /** The last entry's walk is appended to the walk of those before it,
      unless that one already panicked. */
  lemma WalkEntriesSnoc(dir: Path, es: seq<Entry>, mimeMap: set<string>, table: map<string, string>)
    requires es != []
    ensures var prev := WalkEntries(dir, es[..|es| - 1], mimeMap, table);
            var step := WalkEntry(dir, es[|es| - 1], mimeMap, table);
            WalkEntries(dir, es, mimeMap, table) == if prev.1 then prev else (prev.0 + step.0, step.1)
  {
  }

  /** Walking `a + b` is walking `a` and then, unless that panicked, `b`. */
  lemma {:induction false} WalkEntriesAppend(dir: Path, a: seq<Entry>, b: seq<Entry>, mimeMap: set<string>, table: map<string, string>)
    ensures var wa := WalkEntries(dir, a, mimeMap, table);
            var wb := WalkEntries(dir, b, mimeMap, table);
            WalkEntries(dir, a + b, mimeMap, table) == if wa.1 then wa else (wa.0 + wb.0, wb.1)
    decreases |b|
  {
    var wa := WalkEntries(dir, a, mimeMap, table);
    if b == [] {
      assert a + b == a;
      assert wa.0 + [] == wa.0;
    } else {
      var ab := a + b;
      var b' := b[..|b| - 1];
      assert ab[..|ab| - 1] == a + b';
      assert ab[|ab| - 1] == b[|b| - 1];
      WalkEntriesAppend(dir, a, b', mimeMap, table);
      WalkEntriesSnoc(dir, ab, mimeMap, table);
      WalkEntriesSnoc(dir, b, mimeMap, table);
      var wb' := WalkEntries(dir, b', mimeMap, table);
      if !wa.1 && !wb'.1 {
        var step := WalkEntry(dir, b[|b| - 1], mimeMap, table);
        assert wa.0 + wb'.0 + step.0 == wa.0 + (wb'.0 + step.0);
      }
    }
  }

  /** A directory that cannot be opened contributes nothing and does not stop
      the walk of its siblings. */
  lemma UnopenableDirIsSkipped(dir: Path, a: seq<Entry>, name: string, b: seq<Entry>, mimeMap: set<string>, table: map<string, string>)
    ensures WalkEntries(dir, a + [Dir(name, Unopenable)] + b, mimeMap, table) == WalkEntries(dir, a + b, mimeMap, table)
  {
    var u := [Dir(name, Unopenable)];
    WalkEntriesAppend(dir, a, u, mimeMap, table);
    WalkEntriesAppend(dir, a + u, b, mimeMap, table);
    WalkEntriesAppend(dir, a, b, mimeMap, table);
    assert WalkEntries(dir, u, mimeMap, table) == ([], false) by {
      assert u[..0] == [];
      assert WalkEntry(dir, u[0], mimeMap, table) == ([], false);
      assert WalkEntries(dir, [], mimeMap, table) == ([], false);
    }
    var (oa, pa) := WalkEntries(dir, a, mimeMap, table);
    assert oa + [] == oa;
  }

  /** Every emitted result is one `newScanResult` accepts for its own path:
      its MIME type is wanted. */
  lemma {:induction false} WalkResultsAccepted(dir: Path, listing: Listing, mimeMap: set<string>, table: map<string, string>)
    ensures forall r :: r in Walk(dir, listing, mimeMap, table).0 ==>
              r.Mime in mimeMap && NewScanResult(r.Path, mimeMap, r.Info, table) == Some(r)
    decreases listing
  {
    if listing.Listed? {
      WalkEntriesResultsAccepted(dir, listing.entries, mimeMap, table);
    }
  }

  lemma {:induction false} WalkEntriesResultsAccepted(dir: Path, entries: seq<Entry>, mimeMap: set<string>, table: map<string, string>)
    ensures forall r :: r in WalkEntries(dir, entries, mimeMap, table).0 ==>
              r.Mime in mimeMap && NewScanResult(r.Path, mimeMap, r.Info, table) == Some(r)
    decreases entries
  {
    if entries != [] {
      WalkEntriesResultsAccepted(dir, entries[..|entries| - 1], mimeMap, table);
      var e := entries[|entries| - 1];
      match e
      case Dir(name, sub) => WalkResultsAccepted(Join(dir, name), sub, mimeMap, table);
      case File(info) =>
    }
  }

  /** A wanted file directly in the scanned directory is emitted, whatever its
      name looks like (names starting with '.' included). */
  lemma WantedFileIsEmitted(dir: Path, info: FileInfo, mimeMap: set<string>, table: map<string, string>)
    requires MimeOf(table, Join(dir, info.name)) in mimeMap
    ensures Walk(dir, Listed([File(info)], false), mimeMap, table)
            == ([ScanResult(Join(dir, info.name), MimeOf(table, Join(dir, info.name)), info)], false)
  {
    var es := [File(info)];
    assert es[..0] == [];
    assert WalkEntries(dir, [], mimeMap, table) == ([], false);
    var res := ScanResult(Join(dir, info.name), MimeOf(table, Join(dir, info.name)), info);
    assert WalkEntry(dir, es[|es| - 1], mimeMap, table) == ([res], false);
    assert [] + [res] == [res];
    assert WalkEntries(dir, es, mimeMap, table)
        == ([ScanResult(Join(dir, info.name), MimeOf(table, Join(dir, info.name)), info)], false);
  }
}
