/** core/importer.go: import options, the MIME filter set, the scan an
    import starts from, and the importer registry. */
module Importer {

  import opened Common
  import opened Times
  import opened Os
  import opened Scan
  import opened Indexer

  /** `ImportOptions`. */
  datatype ImportOptions = ImportOptions(
    Dir: Path,                  // directory to scan
    MimeTypes: seq<string>,     // MIME types to import
    Tags: seq<string>,          // tags for the imports (not read by the file-system importer)
    Time: Time,                 // "added" time for a batch (not read by the file-system importer)
    DeleteAfterImport: bool)    // remove each source file once imported

  /** `sliceToMap`: the strings as a set (a `map[string]struct{}`). */
  method SliceToMap(s: seq<string>) returns (smap: set<string>)
    ensures forall e :: e in smap <==> e in s
    ensures smap == MimeSet(s)
  {
    smap := {};
    var i := 0;
    while i < |s|
      invariant 0 <= i <= |s|
      invariant forall e :: e in smap <==> e in s[..i]
    {
      smap := smap + {s[i]};
      i := i + 1;
    }
    assert s[..i] == s;
  }

  /** The set `sliceToMap` builds, as a value. */
  function MimeSet(s: seq<string>): (m: set<string>)
    ensures forall e :: e in m <==> e in s
  {
    set e | e in s
  }

  /** Repeated entries collapse: the set is no larger than the list, and
      equal in size exactly when the list has no repeats. */
  lemma {:induction false} MimeSetSize(s: seq<string>)
    ensures |MimeSet(s)| <= |s|
    ensures |MimeSet(s)| == |s| <==> NoDuplicates(s)
    decreases |s|
  {
    if s != [] {
      var init := s[..|s| - 1];
      var last := s[|s| - 1];
      MimeSetSize(init);
      assert MimeSet(s) == MimeSet(init) + {last};
      if last in init {
        assert MimeSet(s) == MimeSet(init);
        var k :| 0 <= k < |init| && init[k] == last;
        assert s[k] == s[|s| - 1];
      } else {
        assert |MimeSet(s)| == |MimeSet(init)| + 1;
        if NoDuplicates(s) {
          assert NoDuplicates(init) by {
            forall i, j | 0 <= i < j < |init| ensures init[i] != init[j] {
              assert init[i] == s[i] && init[j] == s[j];
            }
          }
        }
        if NoDuplicates(init) {
          forall i, j | 0 <= i < j < |s| ensures s[i] != s[j] {
            if j == |s| - 1 {
              assert s[i] == init[i];
            } else {
              assert s[i] == init[i] && s[j] == init[j];
            }
          }
        }
      }
    }
  }

  /** `performScan`: the walk of `opts.Dir` (whose tree is `tree`) keeping
      exactly the files whose MIME type is one of `opts.MimeTypes`. */
  method PerformScan(opts: ImportOptions, tree: Listing, table: map<string, string>)
    returns (out: seq<ScanResult>, panicked: bool)
    ensures (out, panicked) == Walk(opts.Dir, tree, MimeSet(opts.MimeTypes), table)
    ensures forall r :: r in out ==> r.Mime in opts.MimeTypes
  {
    var mimeMap := SliceToMap(opts.MimeTypes);
    assert mimeMap == MimeSet(opts.MimeTypes);
    out, panicked := RecursiveScan(opts.Dir, tree, mimeMap, table);
    WalkResultsAccepted(opts.Dir, tree, mimeMap, table);
  }
}
