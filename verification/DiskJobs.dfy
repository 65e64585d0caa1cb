/** The filesystem jobs, operation by operation (src/jobs/fs_jobs.go, src/jobs/remove_errored_issue_jobs.go,
    src/jobs/archive_backups.go).  Listings are parameters, and `failAt` is the number of the operation that fails. */
module DiskJobs {
  import opened JobModel
  import opened FileTree
  import opened FileMoves
  import opened Sequences
  import opened DiskModel

  // ---------------------------------------------------------------- moving entries one by one

  lemma InEntry(dir: Path, name: string, f: Path)
    ensures dir + [name] <= f <==> dir < f && f[|dir|] == name
  {
    if dir + [name] <= f {
      assert f[|dir|] == (dir + [name])[|dir|];
    }
  }

  lemma Relocate(src: Path, dest: Path, name: string, f: Path)
    requires src < f && f[|src|] == name
    ensures src + [name] <= f && dest + [name] + f[|src + [name]|..] == dest + f[|src|..]
  {
    assert f[|src|..] == [name] + f[|src| + 1..];
  }

  lemma EntryArrived(d: Disk, now: Disk, next: Disk, src: Path, dest: Path, moved: set<string>, name: string, f: Path)
    requires EntriesMoved(d, now, src, dest, moved) && name !in moved
    requires Renamed(now, next, src + [name], dest + [name])
    requires f in d && src < f && f[|src|] == name
    ensures dest + f[|src|..] in next && next[dest + f[|src|..]] == d[f]
  {
    Relocate(src, dest, name, f);
    assert f in now;
  }

  lemma OtherEntryStays(d: Disk, now: Disk, next: Disk, src: Path, dest: Path, moved: set<string>, name: string,
          f: Path)
    requires EntriesMoved(d, now, src, dest, moved) && !Nested(src, dest)
    requires Renamed(now, next, src + [name], dest + [name])
    requires f in d && src < f && f[|src|] in moved
    ensures dest + f[|src|..] in next && next[dest + f[|src|..]] == d[f]
  {
    var g := dest + f[|src|..];
    assert dest <= g;
    UnderOne(src, dest, g);
    InEntry(src, name, g);
  }

  lemma EntryStayed(d: Disk, now: Disk, next: Disk, src: Path, dest: Path, moved: set<string>, name: string, f: Path)
    requires EntriesMoved(d, now, src, dest, moved) && Renamed(now, next, src + [name], dest + [name])
    requires f in d && !(src < f && f[|src|] in moved + {name})
    ensures f in next && next[f] == d[f]
  {
    InEntry(src, name, f);
  }

  lemma EntryOrigin(d: Disk, now: Disk, next: Disk, src: Path, dest: Path, moved: set<string>, name: string, f: Path)
    requires EntriesMoved(d, now, src, dest, moved) && !Nested(src, dest)
    requires Renamed(now, next, src + [name], dest + [name]) && f in next && dest + [name] <= f
    ensures dest < f && f[|dest|] == name && src + f[|dest|..] in d
  {
    InEntry(dest, name, f);
    Relocate(dest, src, name, f);
    var g := src + f[|dest|..];
    assert g in now && src <= g;
    UnderOne(src, dest, g);
  }

  lemma OtherOrigin(d: Disk, now: Disk, next: Disk, src: Path, dest: Path, moved: set<string>, name: string, f: Path)
    requires EntriesMoved(d, now, src, dest, moved)
    requires Renamed(now, next, src + [name], dest + [name]) && f in next && !(dest + [name] <= f)
    ensures (f in d && !(src < f && f[|src|] in moved + {name}))
          || (dest < f && f[|dest|] in moved && src + f[|dest|..] in d)
  {
    InEntry(src, name, f);
  }

  /** Moving one more entry. */
  lemma MovedOneMore(d: Disk, now: Disk, next: Disk, src: Path, dest: Path, moved: set<string>, name: string)
    requires EntriesMoved(d, now, src, dest, moved) && name !in moved && !Nested(src, dest)
    requires Renamed(now, next, src + [name], dest + [name])
    ensures EntriesMoved(d, next, src, dest, moved + {name})
  {
    forall f <- d | src < f && f[|src|] in moved + {name}
      ensures dest + f[|src|..] in next && next[dest + f[|src|..]] == d[f]
    {
      if f[|src|] == name {
        EntryArrived(d, now, next, src, dest, moved, name, f);
      } else {
        OtherEntryStays(d, now, next, src, dest, moved, name, f);
      }
    }
    forall f <- d | !(src < f && f[|src|] in moved + {name}) ensures f in next && next[f] == d[f] {
      EntryStayed(d, now, next, src, dest, moved, name, f);
    }
    forall f <- next
      ensures (f in d && !(src < f && f[|src|] in moved + {name}))
            || (dest < f && f[|dest|] in moved + {name} && src + f[|dest|..] in d)
    {
      if dest + [name] <= f {
        EntryOrigin(d, now, next, src, dest, moved, name, f);
      } else {
        OtherOrigin(d, now, next, src, dest, moved, name, f);
      }
    }
  }

  /** An entry that has not been moved has nothing in its place at the destination. */
  lemma PlaceIsFree(d: Disk, now: Disk, src: Path, dest: Path, moved: set<string>, name: string)
    requires EntriesMoved(d, now, src, dest, moved) && name !in moved && forall f <- d :: !(dest < f)
    ensures Absent(now, dest + [name])
  {
    forall f <- now ensures !(dest + [name] <= f) {
      InEntry(dest, name, f);
    }
  }

  function Paths(found: seq<Path>, n: nat): set<Path>
    requires n <= |found|
  {
    set k | 0 <= k < n :: found[k]
  }

  /** Only fraggable files are found, and all those directly in the directory. */
  ghost predicate FoundIn(d: Disk, loc: Path, found: seq<Path>) {
    && (forall f <- found :: loc <= f && Fraggable(Name(f)) && !(f in d && d[f].Directory?))
    && (forall f <- d :: loc <= f && |f| == |loc| + 1 && Fraggable(Name(f)) && !d[f].Directory? ==> f in found)
  }

  /** Removing fraggable files under the directory, all those directly in it when the job succeeds. */
  lemma RemovedFraggables(d: Disk, loc: Path, found: seq<Path>, n: nat)
    requires n <= |found| && FoundIn(d, loc, found)
    ensures CleanEffect(d, d - Paths(found, n), loc, n == |found|)
  {
    var d' := d - Paths(found, n);
    forall f <- Paths(found, n) ensures loc <= f && Fraggable(Name(f)) && !(f in d && d[f].Directory?) {
      var k :| 0 <= k < n && found[k] == f;
      assert found[k] in found;
    }
    forall f <- found ensures f in Paths(found, |found|) {
      var k :| 0 <= k < |found| && found[k] == f;
    }
  }

  /** `names` are the entries of the directory. */
  ghost predicate EntriesOf(d: Disk, dir: Path, names: seq<string>) {
    Unique(names) && forall f <- d :: dir < f ==> f[|dir|] in names
  }

  /** The entry is a file and the archive has it. */
  predicate InTar(d: Disk, backup: Path, name: string, members: map<string, Content>) {
    && !IsDirectory(d, backup + [name]) && backup + [name] in d
    && "original/" + name in members && members["original/" + name] == d[backup + [name]]
  }

  lemma StillInTar(d: Disk, backup: Path, name: string, other: string, members: map<string, Content>, c: Content)
    requires InTar(d, backup, name, members) && name != other
    ensures InTar(d, backup, name, members["original/" + other := c])
  {
    assert ("original/" + name)[|"original/"|..] == name;
    assert ("original/" + other)[|"original/"|..] == other;
  }

  lemma AllInTar(d: Disk, backup: Path, names: seq<string>, members: map<string, Content>)
    requires EntriesOf(d, backup, names) && forall k :: 0 <= k < |names| ==> InTar(d, backup, names[k], members)
    ensures Archivable(d, backup) && ArchiveHolds(Archive(members), d, backup)
  {
    forall f <- d | backup < f
      ensures |f| == |backup| + 1 && !d[f].Directory?
      ensures "original/" + f[|backup|] in members && members["original/" + f[|backup|]] == d[f]
    {
      var k :| 0 <= k < |names| && names[k] == f[|backup|];
      InEntry(backup, names[k], f);
      assert InTar(d, backup, names[k], members);
      assert !(backup + [names[k]] < f);
      assert f == backup + [names[k]];
    }
  }

  function DerivativesAmong(names: seq<string>, n: nat): set<string>
    requires n <= |names|
  {
    set k | 0 <= k < n && IsDerivative(names[k]) :: names[k]
  }

  lemma DerivativesStep(names: seq<string>, n: nat)
    requires Unique(names) && n < |names|
    ensures names[n] !in DerivativesAmong(names, n)
    ensures DerivativesAmong(names, n + 1) == DerivativesAmong(names, n)
          + if IsDerivative(names[n]) then {names[n]} else {}
  {
  }

  /** Where a file under src is copied to. */
  function CopyOf(src: Path, dest: Path, f: Path): Path
    requires src <= f
  {
    dest + f[|src|..]
  }

  /** Everything under src is at the destination already. */
  ghost predicate Synced(d: Disk, src: Path, dest: Path) {
    forall f <- d :: src <= f ==> CopyOf(src, dest, f) in d && d[CopyOf(src, dest, f)] == d[f]
  }

  lemma CopiesDiffer(src: Path, dest: Path, f: Path, g: Path)
    requires src <= f && src <= g && CopyOf(src, dest, f) == CopyOf(src, dest, g)
    ensures f == g
  {
    assert CopyOf(src, dest, f)[|dest|..] == f[|src|..] && CopyOf(src, dest, g)[|dest|..] == g[|src|..];
    assert f == src + f[|src|..] && g == src + g[|src|..];
  }

  /** The log is the actions in order, each with an empty line after it. */
  predicate LogHolds(log: string, actions: seq<string>) {
    if actions == [] then log == ""
    else
      var last := actions[|actions| - 1] + "\n\n";
      |last| <= |log| && log[|log| - |last|..] == last && LogHolds(log[..|log| - |last|], actions[..|actions| - 1])
  }

  lemma OneMoreAction(log: string, actions: seq<string>, action: string)
    requires LogHolds(log, actions)
    ensures LogHolds(log + action + "\n\n", actions + [action])
  {
    var last := action + "\n\n";
    assert log + action + "\n\n" == log + last;
    assert (actions + [action])[..|actions|] == actions;
    assert (log + last)[..|log|] == log && (log + last)[|log|..] == last;
  }

  class Storage {
    var disk: Disk

    constructor (disk: Disk)
      ensures this.disk == disk
    {
      this.disk := disk;
    }

    /** os.Rename of a directory entry; nothing to rename, or a place that is taken, makes it fail. */
    method Rename(src: Path, dest: Path, fails: bool) returns (ok: bool)
      modifies this
      ensures RenameEffect(old(disk), disk, src, dest, ok)
      ensures ok <==> !fails && !Absent(old(disk), src) && Absent(old(disk), dest)
    {
      if fails || Absent(disk, src) || !Absent(disk, dest) {
        return false;
      }
      var kept := map f <- disk | !(src <= f) :: disk[f];
      var targets := set f <- disk | src <= f :: dest + f[|src|..];
      forall t <- targets ensures src + t[|dest|..] in disk {
        var f :| f in disk && src <= f && t == dest + f[|src|..];
        assert src + t[|dest|..] == f;
      }
      var arrived := map t <- targets :: disk[src + t[|dest|..]];
      forall f <- disk | src <= f ensures dest + f[|src|..] in arrived && arrived[dest + f[|src|..]] == disk[f] {
        assert src + (dest + f[|src|..])[|dest|..] == f;
      }
      disk := kept + arrived;
      return true;
    }

    /** SyncDir: every file under the source that is not there already is copied.  The copy that fails may leave `part`
        of the file behind. */
    method SyncDir(src: Path, dest: Path, files: seq<Path>, parentFails: bool, failAt: nat, part: Content)
      returns (ok: bool)
      requires !Nested(src, dest)
      requires forall k :: 0 <= k < |files| ==> src <= files[k] && files[k] in disk
      requires forall f <- disk :: src <= f ==> f in files
      modifies this
      ensures SyncEffect(old(disk), disk, src, dest, ok)
      ensures ok <==> !parentFails && |files| <= failAt
      ensures Synced(old(disk), src, dest) ==> disk == old(disk)
    {
      if parentFails {
        return false;
      }
      for i := 0 to |files|
        invariant i <= failAt && SameOutside(old(disk), disk, dest)
        invariant forall k :: 0 <= k < i ==>
              CopyOf(src, dest, files[k]) in disk && disk[CopyOf(src, dest, files[k])] == old(disk)[files[k]]
        invariant Synced(old(disk), src, dest) ==> disk == old(disk)
      {
        var f := files[i];
        UnderOne(src, dest, f);
        var copy := CopyOf(src, dest, f);
        if copy !in disk || disk[copy] != disk[f] {
          if i == failAt {
            disk := disk[copy := part];
            return false;
          }
          forall k | 0 <= k < i && CopyOf(src, dest, files[k]) == copy ensures files[k] == f {
            CopiesDiffer(src, dest, files[k], f);
          }
          disk := disk[copy := disk[f]];
        } else if i == failAt {
          return false;
        }
      }
      forall f <- old(disk) | src <= f ensures dest + f[|src|..] in disk && disk[dest + f[|src|..]] == old(disk)[f] {
        var k :| 0 <= k < |files| && files[k] == f;
        assert CopyOf(src, dest, files[k]) == dest + f[|src|..];
      }
      return true;
    }

    /** KillDir: os.RemoveAll leaves behind the files in `stuck`. */
    method KillDir(loc: Path, stuck: set<Path>) returns (ok: bool)
      modifies this
      ensures KillEffect(old(disk), disk, loc, ok)
    {
      if loc == [] {
        return false;
      }
      disk := map f <- disk | !(loc <= f) || f in stuck :: disk[f];
      ok := Absent(disk, loc);
    }

    /** CleanFiles: the fraggable files found in the directory are removed one by one. */
    method CleanFiles(loc: Path, found: seq<Path>, failAt: nat) returns (ok: bool)
      requires FoundIn(disk, loc, found)
      modifies this
      ensures CleanEffect(old(disk), disk, loc, ok)
      ensures ok <==> |found| <= failAt
    {
      for i := 0 to |found|
        invariant i <= failAt && disk == old(disk) - Paths(found, i)
      {
        if i == failAt {
          RemovedFraggables(old(disk), loc, found, i);
          return false;
        }
        assert Paths(found, i + 1) == Paths(found, i) + {found[i]};
        disk := disk - {found[i]};
      }
      RemovedFraggables(old(disk), loc, found, |found|);
      return true;
    }

    /** MoveDerivatives: the destination is made, and each entry of the listing with a derivative's extension is
        renamed. Once the destination is made it stays, whatever happens then. */
    method MoveDerivatives(src: Path, dest: Path, names: seq<string>, makeFails: bool, failAt: nat) returns (ok: bool)
      requires EntriesOf(disk, src, names) && !Nested(src, dest)
      modifies this
      ensures MoveDerivativesEffect(old(disk), disk, src, dest, ok)
      ensures !Absent(old(disk), dest) || makeFails ==> !ok && disk == old(disk)
      ensures !makeFails ==> !Absent(disk, dest)
    {
      if !Absent(disk, dest) || makeFails {
        return false;
      }
      disk := disk[dest := Directory];
      ghost var made := disk;
      assert EntriesMoved(made, made, src, dest, {});
      for i := 0 to |names|
        invariant EntriesMoved(made, disk, src, dest, DerivativesAmong(names, i))
      {
        ghost var moved := DerivativesAmong(names, i);
        DerivativesStep(names, i);
        if IsDerivative(names[i]) {
          ghost var now := disk;
          PlaceIsFree(made, disk, src, dest, moved, names[i]);
          var done := Rename(src + [names[i]], dest + [names[i]], i == failAt);
          if !done {
            assert MovedInto(old(disk), disk, src, dest, moved, false);
            assert dest in made && dest in disk;
            return false;
          }
          MovedOneMore(made, now, disk, src, dest, moved, names[i]);
        }
      }
      assert MovedInto(old(disk), disk, src, dest, DerivativesAmong(names, |names|), true);
      return true;
    }

    /** ArchiveBackups: each file of the backup directory goes into the tar, which is only put in place when all
        of them are in it. */
    method ArchiveBackups(location: Path, backup: Path, names: seq<string>, failAt: nat) returns (ok: bool)
      requires backup != [] ==> EntriesOf(disk, backup, names)
      modifies this
      ensures ArchiveEffect(old(disk), disk, location, backup, ok)
      ensures backup == [] ==> ok
    {
      if backup == [] {
        return true;
      }
      if Absent(disk, backup) || IsDirectory(disk, Tarfile(location)) {
        return false;
      }
      var members: map<string, Content> := map[];
      for i := 0 to |names|
        invariant disk == old(disk)
        invariant forall k :: 0 <= k < i ==> InTar(disk, backup, names[k], members)
      {
        if i == failAt || backup + [names[i]] !in disk || IsDirectory(disk, backup + [names[i]]) {
          return false;
        }
        forall k | 0 <= k < i
          ensures InTar(disk, backup, names[k], members["original/" + names[i] := disk[backup + [names[i]]]])
        {
          StillInTar(disk, backup, names[k], names[i], members, disk[backup + [names[i]]]);
        }
        members := members["original/" + names[i] := disk[backup + [names[i]]]];
      }
      if failAt == |names| {
        return false;
      }
      AllInTar(disk, backup, names, members);
      disk := disk[Tarfile(location) := Archive(members)];
      return true;
    }

    /** WriteActionLog: the actions are written to a buffer, which is put in place when all are written. */
    method WriteActionLog(location: Path, actions: seq<string>, failAt: nat) returns (ok: bool)
      modifies this
      ensures WriteActionLogEffect(old(disk), disk, location, ok)
      ensures !ok ==> disk == old(disk)
      ensures ok ==> ActionLog(location) in disk && disk[ActionLog(location)].Bytes?
                     && LogHolds(disk[ActionLog(location)].data, actions)
    {
      var buffer := "";
      for i := 0 to |actions|
        invariant disk == old(disk)
        invariant LogHolds(buffer, actions[..i])
      {
        if i == failAt {
          return false;
        }
        OneMoreAction(buffer, actions[..i], actions[i]);
        assert actions[..i + 1] == actions[..i] + [actions[i]];
        buffer := buffer + actions[i] + "\n\n";
      }
      assert actions[..|actions|] == actions;
      if failAt == |actions| || IsDirectory(disk, ActionLog(location)) {
        return false;
      }
      disk := disk[ActionLog(location) := Bytes(buffer)];
      return true;
    }
  }
}
