/** A chain by itself: its jobs are tried one after the other, each until it succeeds. */
module ChainRuns {
  import opened JobModel
  import opened FileTree
  import opened DiskModel

  /** The number of the next job, the issue row and the disk. */
  datatype Point = Point(pos: nat, issue: Issue, disk: Disk)

  /** One try of the next job. */
  ghost predicate Try(works: seq<Work>, a: Point, b: Point) {
    && a.pos < |works|
    && ((b.pos == a.pos + 1 && Effect(works[a.pos], a.issue, a.disk, b.issue, b.disk, true))
        || (b.pos == a.pos && Effect(works[a.pos], a.issue, a.disk, b.issue, b.disk, false)))
  }

  ghost predicate TryAt(works: seq<Work>, ps: seq<Point>, n: nat)
    requires n + 1 < |ps|
  {
    Try(works, ps[n], ps[n + 1])
  }

  ghost predicate TryRun(works: seq<Work>, ps: seq<Point>) {
    ps != [] && forall n {:trigger TryAt(works, ps, n)} | 0 <= n < |ps| - 1 :: TryAt(works, ps, n)
  }

  lemma OneMoreTry(works: seq<Work>, ps: seq<Point>, p: Point)
    requires TryRun(works, ps) && Try(works, ps[|ps| - 1], p)
    ensures TryRun(works, ps + [p])
  {
    var longer := ps + [p];
    forall n | 0 <= n < |longer| - 1 ensures TryAt(works, longer, n) {
      if n < |ps| - 1 {
        assert TryAt(works, ps, n);
      }
    }
  }
}
