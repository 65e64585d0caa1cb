/** Renaming the files of one directory one after the other: file src[i] gets the name dst[i].  A rename
    replaces a file that already has the new name. */
module FileMoves {
  import opened FileTree
  import opened Sequences

  /** The files directly in a directory, by name. */
  type Folder = map<string, Content>

  predicate Listed(names: seq<string>, x: string) {
    x in names
  }

  /** `names` lists the folder, in some order. */
  ghost predicate Lists(f: Folder, names: seq<string>) {
    && Unique(names)
    && (forall x {:trigger Listed(names, x)} | x in f :: Listed(names, x))
    && (forall i :: 0 <= i < |names| ==> names[i] in f)
  }

  function Moved(f: Folder, src: string, dest: string): Folder {
    if src == dest || src !in f then f else (f - {src})[dest := f[src]]
  }

  function MoveUpTo(f: Folder, src: seq<string>, dst: seq<string>, n: nat): Folder
    requires |src| == |dst| && n <= |src|
  {
    if n == 0 then f else Moved(MoveUpTo(f, src, dst, n - 1), src[n - 1], dst[n - 1])
  }

  /** The i-th rename replaces another file. */
  ghost predicate Clobbers(f: Folder, src: seq<string>, dst: seq<string>, i: nat)
    requires i < |src| == |dst|
  {
    dst[i] != src[i] && dst[i] in MoveUpTo(f, src, dst, i)
  }

  /** None of the first n renames replaces another file. */
  ghost predicate NoneClobber(f: Folder, src: seq<string>, dst: seq<string>, n: nat)
    requires |src| == |dst| && n <= |src|
  {
    forall i {:trigger Clobbers(f, src, dst, i)} | 0 <= i < n :: !Clobbers(f, src, dst, i)
  }

  /** No new name is used twice, and none is the name of a file that is only renamed later. */
  predicate TargetsFree(src: seq<string>, dst: seq<string>)
    requires |src| == |dst|
  {
    forall i, j :: 0 <= i < j < |src| ==> dst[i] != dst[j] && dst[i] != src[j]
  }

  /** The names in the folder once the first n files have been renamed. */
  function Mixed(src: seq<string>, dst: seq<string>, n: nat): seq<string>
    requires |src| == |dst| && n <= |src|
  {
    dst[..n] + src[n..]
  }

  /** g has exactly f's files, src[i] now being called names[i]. */
  ghost predicate Placed(f: Folder, src: seq<string>, names: seq<string>, g: Folder)
    requires |names| == |src|
  {
    && Lists(g, names)
    && forall i :: 0 <= i < |src| ==> src[i] in f && names[i] in g && g[names[i]] == f[src[i]]
  }

  /** Moving the file called names[n] to a name no other file has. */
  lemma PlacedMove(f: Folder, src: seq<string>, names: seq<string>, n: nat, b: string, g: Folder)
    requires n < |src| == |names| && Placed(f, src, names, g) && (b == names[n] || b !in g)
    ensures Placed(f, src, names[n := b], Moved(g, names[n], b))
  {
    var after := names[n := b];
    var g' := Moved(g, names[n], b);
    assert b in g ==> Listed(names, b);
    forall x <- g' ensures Listed(after, x) {
      if x == b {
        assert after[n] == b;
      } else {
        assert Listed(names, x);
        var i :| 0 <= i < |names| && names[i] == x;
        assert after[i] == x;
      }
    }
  }

  lemma MixedStep(src: seq<string>, dst: seq<string>, n: nat)
    requires |src| == |dst| && n < |src|
    ensures Mixed(src, dst, n)[n] == src[n] && Mixed(src, dst, n + 1) == Mixed(src, dst, n)[n := dst[n]]
  {
  }

  lemma PlacedStep(f: Folder, src: seq<string>, dst: seq<string>, n: nat)
    requires |src| == |dst| && n < |src| && !Clobbers(f, src, dst, n)
    requires Placed(f, src, Mixed(src, dst, n), MoveUpTo(f, src, dst, n))
    ensures Placed(f, src, Mixed(src, dst, n + 1), MoveUpTo(f, src, dst, n + 1))
  {
    MixedStep(src, dst, n);
    PlacedMove(f, src, Mixed(src, dst, n), n, dst[n], MoveUpTo(f, src, dst, n));
  }

  lemma {:induction false} PlacedUnlessClobbered(f: Folder, src: seq<string>, dst: seq<string>, n: nat)
    requires |src| == |dst| && Lists(f, src) && n <= |src|
    requires NoneClobber(f, src, dst, n)
    ensures Placed(f, src, Mixed(src, dst, n), MoveUpTo(f, src, dst, n))
  {
    if n == 0 {
      assert Mixed(src, dst, 0) == src;
    } else {
      PlacedUnlessClobbered(f, src, dst, n - 1);
      assert !Clobbers(f, src, dst, n - 1);
      PlacedStep(f, src, dst, n - 1);
    }
  }

  lemma FreeMeansUnclobbered(f: Folder, src: seq<string>, dst: seq<string>, n: nat)
    requires |src| == |dst| && n < |src| && TargetsFree(src, dst) && Lists(f, src) && NoneClobber(f, src, dst, n)
    ensures !Clobbers(f, src, dst, n)
  {
    var names := Mixed(src, dst, n);
    PlacedUnlessClobbered(f, src, dst, n);
    forall k | 0 <= k < |names| && k != n ensures names[k] != dst[n] {
      assert names[k] == if k < n then dst[k] else src[k];
    }
    if dst[n] in MoveUpTo(f, src, dst, n) {
      assert Listed(names, dst[n]);
      var k :| 0 <= k < |names| && names[k] == dst[n];
      assert names[k] == src[n];
    }
  }

  lemma {:induction false} FreeNeverClobbers(f: Folder, src: seq<string>, dst: seq<string>, n: nat)
    requires |src| == |dst| && Lists(f, src) && TargetsFree(src, dst) && n <= |src|
    ensures NoneClobber(f, src, dst, n)
  {
    if n > 0 {
      FreeNeverClobbers(f, src, dst, n - 1);
      FreeMeansUnclobbered(f, src, dst, n - 1);
    }
  }

  lemma UnclobberedMeansFree(f: Folder, src: seq<string>, dst: seq<string>, i: nat, j: nat)
    requires |src| == |dst| && Lists(f, src) && i < j < |src|
    requires NoneClobber(f, src, dst, |src|)
    ensures dst[i] != dst[j] && dst[i] != src[j]
  {
    assert dst[i] != src[j] by {
      PlacedUnlessClobbered(f, src, dst, i + 1);
      assert Mixed(src, dst, i + 1)[i] == dst[i] && Mixed(src, dst, i + 1)[j] == src[j];
    }
    assert dst[i] != dst[j] by {
      PlacedUnlessClobbered(f, src, dst, |src|);
      assert Mixed(src, dst, |src|)[i] == dst[i] && Mixed(src, dst, |src|)[j] == dst[j];
    }
  }

  /** No rename replaces another file exactly when the new names are free in the listing. */
  lemma NothingReplacedExactly(f: Folder, src: seq<string>, dst: seq<string>)
    requires |src| == |dst| && Lists(f, src)
    ensures NoneClobber(f, src, dst, |src|) <==> TargetsFree(src, dst)
  {
    if TargetsFree(src, dst) {
      FreeNeverClobbers(f, src, dst, |src|);
    }
    if NoneClobber(f, src, dst, |src|) {
      forall i, j | 0 <= i < j < |src| ensures dst[i] != dst[j] && dst[i] != src[j] {
        UnclobberedMeansFree(f, src, dst, i, j);
      }
    }
  }

  /** With free names, any part of the run keeps every file and its content. */
  lemma FreeKeepsEveryFile(f: Folder, src: seq<string>, dst: seq<string>, n: nat)
    requires |src| == |dst| && Lists(f, src) && TargetsFree(src, dst) && n <= |src|
    ensures Placed(f, src, Mixed(src, dst, n), MoveUpTo(f, src, dst, n))
  {
    FreeNeverClobbers(f, src, dst, n);
    PlacedUnlessClobbered(f, src, dst, n);
  }

  lemma {:induction false} SameNamesChangeNothing(f: Folder, src: seq<string>, n: nat)
    requires n <= |src|
    ensures MoveUpTo(f, src, src, n) == f
  {
    if n > 0 {
      SameNamesChangeNothing(f, src, n - 1);
    }
  }

  /** Two placements of the same files under the same names are the same folder. */
  lemma PlacedIsOne(f: Folder, src: seq<string>, names: seq<string>, g: Folder, h: Folder)
    requires |names| == |src| && Placed(f, src, names, g) && Placed(f, src, names, h)
    ensures g == h
  {
    forall x <- g ensures x in h && g[x] == h[x] {
      assert Listed(names, x);
      var i :| 0 <= i < |names| && names[i] == x;
    }
    forall x <- h ensures x in g {
      assert Listed(names, x);
      var i :| 0 <= i < |names| && names[i] == x;
    }
  }

  lemma PlacedTwice(f: Folder, a: seq<string>, b: seq<string>, c: seq<string>, g: Folder, h: Folder)
    requires |a| == |b| == |c| && Placed(f, a, b, g) && Placed(g, b, c, h)
    ensures Placed(f, a, c, h)
  {
  }

  /** A whole run with free names ends in the folder that has every file under its new name. */
  lemma FreeRunEndsIn(f: Folder, src: seq<string>, dst: seq<string>, h: Folder)
    requires |src| == |dst| && Lists(f, src) && TargetsFree(src, dst) && Placed(f, src, dst, h)
    ensures NoneClobber(f, src, dst, |src|) && MoveUpTo(f, src, dst, |src|) == h
  {
    FreeNeverClobbers(f, src, dst, |src|);
    FreeKeepsEveryFile(f, src, dst, |src|);
    assert Mixed(src, dst, |src|) == dst;
    PlacedIsOne(f, src, dst, MoveUpTo(f, src, dst, |src|), h);
  }
}
