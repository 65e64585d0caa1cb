/** Disks after jobs that succeed completely: what the effects of DiskModel allow, they allow somewhere. */
module Outcomes {
  import opened JobModel
  import opened FileTree
  import opened DiskModel

  /** Everything under src is also under dest. */
  function Synced(d: Disk, src: Path, dest: Path): Disk {
    d + map t <- (set f <- d | src <= f :: dest + f[|src|..]) ::
        if src + t[|dest|..] in d then d[src + t[|dest|..]] else Directory
  }

  lemma SyncedAt(d: Disk, src: Path, dest: Path, f: Path)
    requires f in d && src <= f
    ensures dest + f[|src|..] in Synced(d, src, dest) && Synced(d, src, dest)[dest + f[|src|..]] == d[f]
  {
    assert src + (dest + f[|src|..])[|dest|..] == f;
  }

  lemma SyncCanSucceed(d: Disk, src: Path, dest: Path)
    ensures SyncEffect(d, Synced(d, src, dest), src, dest, true)
  {
    var d' := Synced(d, src, dest);
    forall f <- d | src <= f ensures dest + f[|src|..] in d' && d'[dest + f[|src|..]] == d[f] {
      SyncedAt(d, src, dest, f);
    }
    forall f: Path | !(dest <= f) ensures (f in d <==> f in d') && (f in d ==> d'[f] == d[f]) {
    }
  }

  function Killed(d: Disk, loc: Path): Disk {
    map f <- d | !(loc <= f) :: d[f]
  }

  lemma KillCanSucceed(d: Disk, loc: Path)
    requires loc != []
    ensures KillEffect(d, Killed(d, loc), loc, true)
  {
  }

  lemma SplitCanSucceed(d: Disk, out: Path)
    requires Absent(d, out)
    ensures PageSplitEffect(d, d[out := Directory], out, true)
  {
    assert out in d[out := Directory];
  }

  /** The derivative entries of a directory. */
  function DerivativeEntries(d: Disk, src: Path): set<string> {
    set f <- d | src < f && IsDerivative(f[|src|]) :: f[|src|]
  }

  predicate Moves(src: Path, moved: set<string>, f: Path) {
    src < f && f[|src|] in moved
  }

  function EntriesIn(d: Disk, src: Path, dest: Path, moved: set<string>): Disk {
    (map f <- d | !Moves(src, moved, f) :: d[f])
    + map t <- (set f <- d | Moves(src, moved, f) :: dest + f[|src|..]) ::
        if src + t[|dest|..] in d then d[src + t[|dest|..]] else Directory
  }

  lemma EntryIn(d: Disk, src: Path, dest: Path, moved: set<string>, f: Path)
    requires f in d && Moves(src, moved, f)
    ensures dest + f[|src|..] in EntriesIn(d, src, dest, moved)
          && EntriesIn(d, src, dest, moved)[dest + f[|src|..]] == d[f]
  {
    assert src + (dest + f[|src|..])[|dest|..] == f;
  }

  lemma EntriesCanMove(d: Disk, src: Path, dest: Path, moved: set<string>)
    requires forall f <- d :: !(dest < f)
    ensures EntriesMoved(d, EntriesIn(d, src, dest, moved), src, dest, moved)
  {
    var d' := EntriesIn(d, src, dest, moved);
    forall f <- d | src < f && f[|src|] in moved ensures dest + f[|src|..] in d' && d'[dest + f[|src|..]] == d[f] {
      EntryIn(d, src, dest, moved, f);
    }
    forall f <- d | !(src < f && f[|src|] in moved) ensures f in d' && d'[f] == d[f] {
      forall g <- d | Moves(src, moved, g) ensures dest + g[|src|..] != f {
        assert dest < dest + g[|src|..];
      }
    }
    forall f <- d'
      ensures (f in d && !(src < f && f[|src|] in moved)) || (dest < f && f[|dest|] in moved && src + f[|dest|..] in d)
    {
      if !(f in d && !Moves(src, moved, f)) {
        var g :| g in d && Moves(src, moved, g) && f == dest + g[|src|..];
        assert src + f[|dest|..] == g && f[|dest|] == g[|src|];
      }
    }
  }

  function DerivativesOut(d: Disk, src: Path, dest: Path): Disk {
    EntriesIn(d[dest := Directory], src, dest, DerivativeEntries(d[dest := Directory], src))
  }

  lemma MoveCanSucceed(d: Disk, src: Path, dest: Path)
    requires Absent(d, dest)
    ensures MoveDerivativesEffect(d, DerivativesOut(d, src, dest), src, dest, true)
  {
    var made := d[dest := Directory];
    var moved := DerivativeEntries(made, src);
    EntriesCanMove(made, src, dest, moved);
    assert MovedInto(d, DerivativesOut(d, src, dest), src, dest, moved, true);
  }
}
