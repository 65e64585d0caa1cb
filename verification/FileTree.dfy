/** Files on disk, and the file names the jobs care about (src/jobs/fs_jobs.go, src/jobs/renumber_pages.go).
    A directory is there when something is under it; one that was made and may be empty has an entry of its own.
    Directories made above a destination have none. */
module FileTree {
  import opened JobModel
  import opened Text

  datatype Content = Bytes(data: string) | Archive(members: map<string, Content>) | Directory

  type Disk = map<Path, Content>

  predicate Nested(a: Path, b: Path) {
    a <= b || b <= a
  }

  /** Neither a file nor a directory is there. */
  predicate Absent(d: Disk, dir: Path) {
    forall f <- d :: !(dir <= f)
  }

  predicate IsDirectory(d: Disk, dir: Path) {
    (dir in d && d[dir].Directory?) || exists f <- d :: dir < f
  }

  /** d' differs from d only under `dir`. */
  ghost predicate SameOutside(d: Disk, d': Disk, dir: Path) {
    forall f: Path :: !(dir <= f) ==> (f in d <==> f in d') && (f in d ==> d'[f] == d[f])
  }

  /** d' differs from d only in what is at `file`. */
  ghost predicate SameBeside(d: Disk, d': Disk, file: Path) {
    forall f: Path :: f != file ==> (f in d <==> f in d') && (f in d ==> d'[f] == d[f])
  }

  /** d' is d with some files under `dir` removed. */
  ghost predicate SomeRemoved(d: Disk, d': Disk, dir: Path) {
    SameOutside(d, d', dir) && forall f <- d' :: f in d && d'[f] == d[f]
  }

  function Name(f: Path): string {
    if f == [] then "" else f[|f| - 1]
  }

  /** Dot files and Thumbs.db; a file without a name is kept. */
  predicate Fraggable(name: string) {
    name != "" && (name[0] == '.' || Lower(name) == "thumbs.db")
  }

  /** filepath.Ext: from the last dot on. */
  function Ext(name: string): (e: string)
    ensures |e| <= |name|
    decreases |name|
  {
    if name == "" then ""
    else if name[|name| - 1] == '.' then "."
    else
      var front := Ext(name[..|name| - 1]);
      if front == "" then "" else front + [name[|name| - 1]]
  }

  predicate IsDerivative(name: string) {
    Ext(name) == ".xml" || Ext(name) == ".jp2"
  }

  // ---------------------------------------------------------------- path facts

  lemma BothPrefixes(a: Path, b: Path, f: Path)
    requires a <= f && b <= f
    ensures Nested(a, b)
  {
    if |a| <= |b| {
      assert a == f[..|a|] == b[..|a|];
    } else {
      assert b == f[..|b|] == a[..|b|];
    }
  }

  /** A file is under at most one of two directories that do not contain each other. */
  lemma UnderOne(a: Path, b: Path, f: Path)
    requires !Nested(a, b)
    ensures !(a <= f && b <= f)
  {
    if a <= f && b <= f {
      BothPrefixes(a, b, f);
    }
  }
}
