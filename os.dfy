/** The part of the operating system the store and the importer use: files
    holding bytes, directories, and paths on which the OS refuses to create
    or remove anything (permissions, a full disk). */
module Os {

  import opened Common

  type Path = string

  /** `path.Join(dir, name)` for a clean `dir` and a single-element `name`. */
  function Join(dir: Path, name: string): (p: Path)
    ensures |p| == |dir| + 1 + |name|
    ensures p[..|dir|] == dir && p[|dir|] == '/' && p[|dir| + 1..] == name
  {
    dir + "/" + name
  }

  lemma JoinInjective(dir: Path, a: string, b: string)
    requires Join(dir, a) == Join(dir, b)
    ensures a == b
  {
    assert a == Join(dir, a)[|dir| + 1..];
  }

  /** `p` without its trailing '/' characters. */
  function TrimTrailingSlashes(p: string): (r: string)
    ensures |r| <= |p| && r == p[..|r|]
    ensures r != "" ==> r[|r| - 1] != '/'
    decreases |p|
  {
    if p != "" && p[|p| - 1] == '/' then TrimTrailingSlashes(p[..|p| - 1]) else p
  }

  /** The characters after the last '/' of `p`. */
  function AfterLastSlash(p: string): (r: string)
    ensures |r| <= |p| && r == p[|p| - |r|..]
    ensures '/' !in r
    decreases |p|
  {
    if p == "" || p[|p| - 1] == '/' then "" else AfterLastSlash(p[..|p| - 1]) + [p[|p| - 1]]
  }

  /** `path.Base`: the last element of a path, "." for the empty path and "/"
      for a path of slashes. */
  function Base(p: Path): (b: string)
    ensures b != ""
  {
    if p == "" then "."
    else
      var t := TrimTrailingSlashes(p);
      var last := AfterLastSlash(t);
      if last == "" then "/" else last
  }

  /** The base of a joined path is the name joined on. */
  lemma {:induction false} BaseOfJoin(dir: Path, name: string)
    requires name != "" && '/' !in name
    ensures Base(Join(dir, name)) == name
  {
    var p := Join(dir, name);
    assert p[|p| - 1] == name[|name| - 1];
    assert TrimTrailingSlashes(p) == p;
    AfterLastSlashOfSuffix(dir + "/", name);
    assert dir + "/" + name == p;
  }

  lemma {:induction false} AfterLastSlashOfSuffix(prefix: string, name: string)
    requires prefix != "" && prefix[|prefix| - 1] == '/' && '/' !in name
    ensures AfterLastSlash(prefix + name) == name
    decreases |name|
  {
    if name == "" {
      assert prefix + name == prefix;
    } else {
      var init := name[..|name| - 1];
      var c := name[|name| - 1];
      assert name == init + [c];
      assert prefix + name == (prefix + init) + [c];
      assert '/' !in init by {
        forall k | 0 <= k < |init| ensures init[k] != '/' { assert init[k] == name[k]; }
      }
      AfterLastSlashOfSuffix(prefix, init);
      AfterLastSlashSnoc(prefix + init, c);
    }
  }

  /** A character other than '/' extends the last component. */
  lemma AfterLastSlashSnoc(q: string, c: char)
    requires c != '/'
    ensures AfterLastSlash(q + [c]) == AfterLastSlash(q) + [c]
  {
    assert (q + [c])[..|q|] == q;
  }

  class FileSystem {
    var files: map<Path, Bytes>
    var dirs: set<Path>
    /** Paths where creating a file or directory, or removing a file, fails. */
    const denied: set<Path>

    constructor (files: map<Path, Bytes>, dirs: set<Path>, denied: set<Path>)
      ensures this.files == files && this.dirs == dirs && this.denied == denied
    {
      this.files := files;
      this.dirs := dirs;
      this.denied := denied;
    }

    /** `os.Stat(p)` succeeds for an existing file or directory. */
    predicate Exists(p: Path)
      reads this
    {
      p in files || p in dirs
    }

    /** `os.Open(p)` followed by reading the whole file. */
    function Open(p: Path): (r: Result<Bytes>)
      reads this
      ensures r.Ok? <==> p in files
      ensures r.Ok? ==> r.value == files[p]
      ensures r.Err? ==> r.error == NotExist(p)
    {
      if p in files then Ok(files[p]) else Err(NotExist(p))
    }

    /** `os.MkdirAll(dir, perm)`. */
    method MkdirAll(dir: Path) returns (err: Option<Error>)
      modifies this
      ensures files == old(files)
      ensures err.None? <==> dir !in denied
      ensures err.Some? ==> err.value == PermissionDenied(dir) && dirs == old(dirs)
      ensures err.None? ==> dirs == old(dirs) + {dir}
    {
      if dir in denied {
        err := Some(PermissionDenied(dir));
      } else {
        dirs := dirs + {dir};
        err := None;
      }
    }

    /** `os.Create(Join(dir, name))` followed by writing `data`: creating needs
        the directory to exist and the path not to be refused. */
    method WriteFile(dir: Path, name: string, data: Bytes) returns (err: Option<Error>)
      modifies this
      ensures dirs == old(dirs)
      ensures err.None? <==> dir in old(dirs) && Join(dir, name) !in denied
      ensures dir !in old(dirs) ==> err == Some(NotExist(Join(dir, name)))
      ensures dir in old(dirs) && Join(dir, name) in denied ==> err == Some(PermissionDenied(Join(dir, name)))
      ensures err.None? ==> files == old(files)[Join(dir, name) := data]
      ensures err.Some? ==> files == old(files)
    {
      var p := Join(dir, name);
      if dir !in dirs {
        err := Some(NotExist(p));
      } else if p in denied {
        err := Some(PermissionDenied(p));
      } else {
        files := files[p := data];
        err := None;
      }
    }

    /** `os.Remove(p)` of a file. */
    method Remove(p: Path) returns (err: Option<Error>)
      modifies this
      ensures dirs == old(dirs)
      ensures err.None? <==> p in old(files) && p !in denied
      ensures p !in old(files) ==> err == Some(NotExist(p))
      ensures p in old(files) && p in denied ==> err == Some(PermissionDenied(p))
      ensures err.None? ==> files == old(files) - {p}
      ensures err.Some? ==> files == old(files)
    {
      if p !in files {
        err := Some(NotExist(p));
      } else if p in denied {
        err := Some(PermissionDenied(p));
      } else {
        files := files - {p};
        err := None;
      }
    }
  }
}
