/** When some try of renumbering, after any number of failed ones, replaces a file (src/jobs/renumber_pages.go).
    A job is tried up to 26 times, and as often again each time an operator requeues it. */
module RenumberTries {
  import opened Decimal
  import opened FileMoves
  import opened Sequences
  import opened PageRenumbering
  import opened PageCollisions

  // ---------------------------------------------------------------- the walk over the page numbers

  /** The pages of one number: none, one, two already called as the job would call them, or two others. */
  datatype Kind = Nothing | Single | Named | Other

  /** How many numbers the pages of number v can use up, when the first of them gets number n: two, unless the pair
      has the right name already and stays together. */
  function Weight(kind: Kind, v: nat, n: nat): nat {
    match kind
    case Nothing => 0
    case Single => 1
    case Named => if v == n then 1 else 2
    case Other => 2
  }

  /** The greatest number that failed tries can make a page of number v get. */
  ghost function Greatest(kinds: nat -> Kind, v: nat): nat {
    if v <= 1 then 1 else Greatest(kinds, v - 1) + Weight(kinds(v - 1), v - 1, Greatest(kinds, v - 1))
  }

  /** A pair that can get its own number, in another spelling, right before another page. */
  ghost predicate Stuck(kinds: nat -> Kind, v: nat) {
    v > 0 && kinds(v).Other? && Greatest(kinds, v) == v && !kinds(v + 1).Nothing?
  }

  ghost predicate FreeBelow(kinds: nat -> Kind, c: nat) {
    forall v: nat :: v < c ==> !Stuck(kinds, v)
  }

  ghost predicate Free(kinds: nat -> Kind) {
    forall v: nat :: !Stuck(kinds, v)
  }

  /** The greatest number is at most the page's own, or one more in a gap. */
  lemma {:induction false} GreatestAtMost(kinds: nat -> Kind, v: nat)
    requires v > 0 && FreeBelow(kinds, v)
    ensures Greatest(kinds, v) <= v || (Greatest(kinds, v) == v + 1 && kinds(v).Nothing?)
  {
    if v > 1 {
      GreatestAtMost(kinds, v - 1);
      assert !Stuck(kinds, v - 1);
    }
  }

  /** The second page of a pair of two names gets the pair's number at most, too, or one more before a gap. */
  lemma TiedAtMost(kinds: nat -> Kind, v: nat, tied: bool, number: nat)
    requires v > 0 && Free(kinds) && !kinds(v).Nothing? && (tied ==> kinds(v).Other?)
    requires number <= Greatest(kinds, v) + if tied then 1 else 0
    ensures number <= v || (number == v + 1 && kinds(v + 1).Nothing?)
  {
    GreatestAtMost(kinds, v);
    assert !Stuck(kinds, v);
  }

  lemma {:induction false} GreatestGrows(kinds: nat -> Kind, u: nat, v: nat)
    requires 0 < u <= v
    ensures Greatest(kinds, u) <= Greatest(kinds, v)
  {
    if u < v {
      GreatestGrows(kinds, u, v - 1);
    }
  }

  lemma {:induction false} GreatestInGap(kinds: nat -> Kind, u: nat, v: nat)
    requires 0 < u <= v && forall w :: u <= w < v ==> kinds(w).Nothing?
    ensures Greatest(kinds, u) == Greatest(kinds, v)
  {
    if u < v {
      GreatestInGap(kinds, u, v - 1);
    }
  }

  /** The pages of number u make every later number greater by their weight. */
  lemma GreatestAfter(kinds: nat -> Kind, u: nat, v: nat)
    requires 0 < u < v
    ensures Greatest(kinds, u) + Weight(kinds(u), u, Greatest(kinds, u)) <= Greatest(kinds, v)
  {
    GreatestGrows(kinds, u + 1, v);
  }

  predicate Final(kind: Kind) {
    kind.Single? || kind.Named?
  }

  /** Numbers without a gap, called as the job calls them, stay as they are. */
  lemma {:induction false} GreatestOfFinal(kinds: nat -> Kind, v: nat)
    requires v > 0 && forall u :: 0 < u < v ==> Final(kinds(u))
    ensures Greatest(kinds, v) == v
  {
    if v > 1 {
      GreatestOfFinal(kinds, v - 1);
    }
  }

  /** Less below means less above. */
  lemma {:induction false} LessBelow(kinds: nat -> Kind, kinds': nat -> Kind, c: nat, v: nat)
    requires Free(kinds) && 0 < c <= v && Greatest(kinds', c) <= Greatest(kinds, c)
    requires forall w :: c <= w ==> kinds'(w) == kinds(w)
    ensures Greatest(kinds', v) <= Greatest(kinds, v) && !Stuck(kinds', v)
  {
    if c < v {
      LessBelow(kinds, kinds', c, v - 1);
    }
    GreatestAtMost(kinds, v);
    assert !Stuck(kinds, v);
  }

  /** After a failure between two numbers: 1 to m are final, and from c on nothing has changed. */
  lemma CleanCut(kinds: nat -> Kind, kinds': nat -> Kind, m: nat, c: nat)
    requires Free(kinds) && m < c && m + 1 <= Greatest(kinds, c)
    requires forall u :: 0 < u <= m ==> Final(kinds'(u))
    requires forall u :: m < u < c ==> kinds'(u).Nothing?
    requires forall u :: c <= u ==> kinds'(u) == kinds(u)
    ensures Free(kinds')
  {
    GreatestOfFinal(kinds', m + 1);
    GreatestInGap(kinds', m + 1, c);
    forall v: nat ensures !Stuck(kinds', v) {
      if c <= v {
        LessBelow(kinds, kinds', c, v);
      }
    }
  }

  /** After a failure inside the pair of number c, whose first page got number m. */
  ghost predicate CutAt(kinds: nat -> Kind, kinds': nat -> Kind, m: nat, c: nat) {
    && 0 < m <= c && m <= Greatest(kinds, c) && (kinds(c).Named? || kinds(c).Other?)
    && (forall u :: 0 < u <= m && u != c ==> Final(kinds'(u)))
    && (forall u :: m < u < c ==> kinds'(u).Nothing?)
    && (if m < c then kinds'(c).Single? else kinds'(c) == kinds(c) || kinds'(c).Named?)
    && (forall u :: c < u ==> kinds'(u) == kinds(u))
  }

  lemma GreatestAtCut(kinds: nat -> Kind, kinds': nat -> Kind, m: nat, c: nat)
    requires CutAt(kinds, kinds', m, c)
    ensures Greatest(kinds', c) == if m < c then m + 1 else c
  {
    if m < c {
      GreatestOfFinal(kinds', m + 1);
      GreatestInGap(kinds', m + 1, c);
    } else {
      GreatestOfFinal(kinds', c);
    }
  }

  /** The number after the pair's is not greater than before. */
  lemma GreatestAfterCut(kinds: nat -> Kind, kinds': nat -> Kind, m: nat, c: nat)
    requires CutAt(kinds, kinds', m, c) && Greatest(kinds, c) <= c
    ensures Greatest(kinds', c + 1) <= Greatest(kinds, c + 1)
  {
    GreatestAtCut(kinds, kinds', m, c);
    assert Greatest(kinds', c + 1) == Greatest(kinds', c) + Weight(kinds'(c), c, Greatest(kinds', c));
    assert Greatest(kinds, c + 1) == Greatest(kinds, c) + Weight(kinds(c), c, Greatest(kinds, c));
  }

  lemma CutNotStuck(kinds: nat -> Kind, kinds': nat -> Kind, m: nat, c: nat, v: nat)
    requires CutAt(kinds, kinds', m, c) && Free(kinds) && Greatest(kinds, c) <= c && v <= c
    ensures !Stuck(kinds', v)
  {
    assert !Stuck(kinds, c);
    if v == c {
      GreatestAtCut(kinds, kinds', m, c);
    }
  }

  lemma CutInside(kinds: nat -> Kind, kinds': nat -> Kind, m: nat, c: nat)
    requires Free(kinds) && CutAt(kinds, kinds', m, c)
    ensures Free(kinds')
  {
    GreatestAtMost(kinds, c);
    GreatestAfterCut(kinds, kinds', m, c);
    forall v: nat ensures !Stuck(kinds', v) {
      if c < v {
        LessBelow(kinds, kinds', c + 1, v);
      } else {
        CutNotStuck(kinds, kinds', m, c, v);
      }
    }
  }

  // ---------------------------------------------------------------- the kinds of a listing

  /** Entry i is a page of number v. */
  predicate PageOf(es: seq<Entry>, i: int, v: int) {
    0 <= i < |es| && es[i].IsPage() && PageValue(es[i].prefix) == v
  }

  /** Page prefixes are positive numbers, and no two files share a number and an extension. */
  ghost predicate Loose(es: seq<Entry>) {
    && (forall i :: 0 <= i < |es| && es[i].IsPage() ==> PageValue(es[i].prefix) > 0)
    && (forall i, j | 0 <= i < j < |es| && es[i].IsPage() && es[j].IsPage() ::
          PageValue(es[i].prefix) == PageValue(es[j].prefix) ==> es[i].ext != es[j].ext)
  }

  ghost predicate Has(es: seq<Entry>, v: nat) {
    exists i :: PageOf(es, i, v)
  }

  ghost predicate Two(es: seq<Entry>, v: nat) {
    exists i, j :: i < j && PageOf(es, i, v) && PageOf(es, j, v)
  }

  /** The pages of number v are spelled as the job spells v. */
  ghost predicate Spelled(es: seq<Entry>, v: nat) {
    forall i :: PageOf(es, i, v) ==> es[i].prefix == Pad(v, 4)
  }

  ghost function KindAt(es: seq<Entry>, v: nat): Kind {
    if !Has(es, v) then Nothing else if !Two(es, v) then Single else if Spelled(es, v) then Named else Other
  }

  ghost function Kinds(es: seq<Entry>): nat -> Kind {
    (v: nat) => KindAt(es, v)
  }

  /** A listing from which no number of failed tries leads to a loss. */
  ghost predicate Lossless(es: seq<Entry>) {
    InPageOrder(es) && Loose(es) && Free(Kinds(es))
  }

  lemma AtMostTwoPages(f: Folder, es: seq<Entry>, i: nat, j: nat, k: nat, v: nat)
    requires ListingOf(f, es) && Loose(es) && PageOf(es, i, v) && PageOf(es, j, v) && PageOf(es, k, v)
    ensures i == j || j == k || i == k
  {
    assert Looked(es[i]) && Looked(es[j]) && Looked(es[k]);
    PageExtensions(es[i]);
    PageExtensions(es[j]);
    PageExtensions(es[k]);
  }

  lemma {:induction false} NoPageSeen(es: seq<Entry>, a: nat, b: nat)
    requires a <= b <= |es| && forall w :: a <= w < b ==> !es[w].IsPage()
    ensures Seen(es, a) == Seen(es, b)
  {
    if a < b {
      NoPageSeen(es, a, b - 1);
    }
  }

  /** The page before in the list of its number, if there is one, has the other spelling. */
  ghost predicate Tied(es: seq<Entry>, i: nat, v: nat) {
    PageOf(es, i, v) && exists j :: j < i && PageOf(es, j, v) && es[j].prefix != es[i].prefix
  }

  lemma TiedIsOther(es: seq<Entry>, i: nat, v: nat)
    requires Tied(es, i, v)
    ensures KindAt(es, v) == Other
  {
    var j :| j < i && PageOf(es, j, v) && es[j].prefix != es[i].prefix;
  }

  /** What a page and the page before it in its pair use up. */
  lemma WeightOfLast(es: seq<Entry>, i: nat, v: nat, n: nat)
    requires PageOf(es, i, v)
    ensures (if Tied(es, i, v) then 2 else 1) <= Weight(Kinds(es)(v), v, n)
  {
    if Tied(es, i, v) {
      TiedIsOther(es, i, v);
    }
  }

  /** The second page of a number comes right after the first. */
  lemma FirstOfTwo(f: Folder, es: seq<Entry>, j: nat, i: nat, v: nat)
    requires ListingOf(f, es) && InPageOrder(es) && Loose(es) && j < i && PageOf(es, j, v) && PageOf(es, i, v)
    ensures Seen(es, j + 1) == Seen(es, i) && !Tied(es, j, v)
  {
    forall w | j + 1 <= w < i ensures !es[w].IsPage() {
      if es[w].IsPage() {
        assert PageValue(es[j].prefix) <= PageValue(es[w].prefix) <= PageValue(es[i].prefix);
        AtMostTwoPages(f, es, j, w, i, v);
      }
    }
    NoPageSeen(es, j + 1, i);
    forall k | k < j && PageOf(es, k, v) ensures false {
      AtMostTwoPages(f, es, k, j, i, v);
    }
  }

  /** The prefixes seen up to a page of number v. */
  lemma {:induction false} SeenWithin(f: Folder, es: seq<Entry>, i: nat, v: nat)
    requires ListingOf(f, es) && InPageOrder(es) && Loose(es) && PageOf(es, i, v)
    ensures |Seen(es, i + 1)| <= Greatest(Kinds(es), v) + if Tied(es, i, v) then 1 else 0
    decreases 2 * i + 1
  {
    if j :| j < i && PageOf(es, j, v) {
      FirstOfTwo(f, es, j, i, v);
      SeenWithin(f, es, j, v);
      SeenFacts(es, j + 1, j + 1);
    } else {
      forall w | 0 <= w < i && es[w].IsPage() ensures PageValue(es[w].prefix) < v {
        assert !PageOf(es, w, v);
      }
      SeenBefore(f, es, i, v);
    }
  }

  /** The prefixes seen before the pages of number c. */
  lemma {:induction false} SeenBefore(f: Folder, es: seq<Entry>, n: nat, c: nat)
    requires ListingOf(f, es) && InPageOrder(es) && Loose(es) && n <= |es| && c > 0
    requires forall i :: 0 <= i < n && es[i].IsPage() ==> PageValue(es[i].prefix) < c
    ensures |Seen(es, n)| + 1 <= Greatest(Kinds(es), c)
    decreases 2 * n
  {
    if n == 0 {
      GreatestGrows(Kinds(es), 1, c);
    } else if es[n - 1].IsPage() {
      var u := PageValue(es[n - 1].prefix);
      assert PageOf(es, n - 1, u);
      SeenWithin(f, es, n - 1, u);
      WeightOfLast(es, n - 1, u, Greatest(Kinds(es), u));
      GreatestAfter(Kinds(es), u, c);
    } else {
      SeenBefore(f, es, n - 1, c);
    }
  }

  /** A page's number is at most its own, or one more in a gap. */
  lemma NumberAtMostOwn(f: Folder, es: seq<Entry>, i: nat, v: nat)
    requires ListingOf(f, es) && Lossless(es) && PageOf(es, i, v)
    ensures Number(es, i) <= v || (Number(es, i) == v + 1 && !Has(es, v + 1))
  {
    assert Number(es, i) <= Greatest(Kinds(es), v) + if Tied(es, i, v) then 1 else 0 by {
      NumberInSeen(es, i, i + 1);
      SeenWithin(f, es, i, v);
    }
    if Tied(es, i, v) {
      TiedIsOther(es, i, v);
    }
    TiedAtMost(Kinds(es), v, Tied(es, i, v), Number(es, i));
  }

  lemma SamePrefixDifferentExt(es: seq<Entry>, x: nat, y: nat)
    requires Loose(es) && x < |es| && y < |es| && x != y && es[x].IsPage() && es[y].IsPage()
          && es[x].prefix == es[y].prefix
    ensures es[x].ext != es[y].ext
  {
  }

  /** No page gets the name of a file that is renamed later. */
  lemma LaterNameIsKept(f: Folder, es: seq<Entry>, x: nat, y: nat)
    requires ListingOf(f, es) && Lossless(es) && x < y < |es|
    ensures NewName(es, x) != es[y].name
  {
    assert NamesOf(es)[x] != NamesOf(es)[y];
    if es[x].IsPage() && NewName(es, x) == es[y].name {
      TakenName(f, es, x, y);
      var v := PageValue(es[x].prefix);
      NumberAtMostOwn(f, es, x, v);
      assert PageOf(es, y, Number(es, x));
    }
  }

  lemma LosslessIsFree(f: Folder, es: seq<Entry>)
    requires ListingOf(f, es) && Lossless(es)
    ensures TargetsFree(NamesOf(es), NewNames(es))
  {
    forall x, y | 0 <= x < y < |es| ensures NewName(es, x) != NewName(es, y) && NewName(es, x) != es[y].name {
      if es[x].IsPage() && es[y].IsPage() && es[x].prefix == es[y].prefix {
        SamePrefixDifferentExt(es, x, y);
      }
      TargetsDiffer(f, es, x, y);
      LaterNameIsKept(f, es, x, y);
    }
  }

  /** A whole or partial run on such a listing loses nothing. */
  lemma LosslessRun(f: Folder, es: seq<Entry>, n: nat)
    requires ListingOf(f, es) && Lossless(es) && n <= |es|
    ensures NoneClobber(f, NamesOf(es), NewNames(es), n)
    ensures Placed(f, NamesOf(es), Mixed(NamesOf(es), NewNames(es), n), MoveUpTo(f, NamesOf(es), NewNames(es), n))
  {
    LosslessIsFree(f, es);
    FreeNeverClobbers(f, NamesOf(es), NewNames(es), n);
    FreeKeepsEveryFile(f, NamesOf(es), NewNames(es), n);
  }

  // ---------------------------------------------------------------- a failed try keeps the condition

  lemma LosslessListed(f: Folder, es: seq<Entry>, n: nat)
    requires ListingOf(f, es) && Lossless(es) && n <= |es|
    ensures ListingOf(MoveUpTo(f, NamesOf(es), NewNames(es), n), Partly(es, n))
  {
    LosslessRun(f, es, n);
    PartlyNames(es, n);
    forall i | 0 <= i < |Partly(es, n)| ensures Looked(Partly(es, n)[i]) {
      PartlyLooked(f, es, n, i);
    }
  }

  /** Half way a page has its own prefix or its number. */
  lemma HalfWayPage(f: Folder, es: seq<Entry>, n: nat, i: nat)
    requires ListingOf(f, es) && n <= |es| && i < |es|
    ensures var e := Partly(es, n)[i];
            && e.IsPage() == es[i].IsPage() && e.ext == es[i].ext
            && (e.IsPage() && i < n ==> e.prefix == Pad(Number(es, i), 4) && PageValue(e.prefix) == Number(es, i))
            && (n <= i ==> e == es[i])
  {
    ResultLooked(f, es, i);
  }

  /** p is es after n entries, the pages among them having got the numbers 1 to m. */
  ghost predicate HalfWay(es: seq<Entry>, p: seq<Entry>, n: nat, m: nat) {
    && n <= |es| == |p|
    && (forall i :: 0 <= i < n ==> p[i].IsPage() == es[i].IsPage())
    && (forall i :: 0 <= i < n && p[i].IsPage() ==>
          0 < PageValue(p[i].prefix) <= m && p[i].prefix == Pad(PageValue(p[i].prefix), 4))
    && (forall i :: n <= i < |es| ==> p[i] == es[i])
    && (forall u :: 0 < u <= m ==> Has(p, u))
  }

  lemma NumberUsed(f: Folder, es: seq<Entry>, n: nat, u: nat)
    requires ListingOf(f, es) && n <= |es| && 0 < u <= |Seen(es, n)|
    ensures Has(Partly(es, n), u)
  {
    var i := SeenIsAPage(es, n, u - 1);
    NumberInSeen(es, i, n);
    SeenFacts(es, n, n);
    HalfWayPage(f, es, n, i);
    assert PageOf(Partly(es, n), i, u);
  }

  lemma PartlyIsHalfWay(f: Folder, es: seq<Entry>, n: nat)
    requires ListingOf(f, es) && n <= |es|
    ensures HalfWay(es, Partly(es, n), n, |Seen(es, n)|)
  {
    var p := Partly(es, n);
    forall i | 0 <= i < n
      ensures p[i].IsPage() == es[i].IsPage()
      ensures p[i].IsPage() ==>
                0 < PageValue(p[i].prefix) <= |Seen(es, n)| && p[i].prefix == Pad(PageValue(p[i].prefix), 4)
    {
      HalfWayPage(f, es, n, i);
      if es[i].IsPage() {
        NumberInSeen(es, i, n);
      }
    }
    forall u | 0 < u <= |Seen(es, n)| ensures Has(p, u) {
      NumberUsed(f, es, n, u);
    }
  }

  /** No page from n on has number u. */
  ghost predicate NoneFrom(es: seq<Entry>, n: nat, u: nat) {
    forall i :: n <= i ==> !PageOf(es, i, u)
  }

  /** No page before n has number u. */
  ghost predicate NoneBefore(es: seq<Entry>, n: nat, u: nat) {
    forall i :: i < n ==> !PageOf(es, i, u)
  }

  lemma KindOfDone(es: seq<Entry>, p: seq<Entry>, n: nat, m: nat, u: nat)
    requires HalfWay(es, p, n, m) && 0 < u <= m && NoneFrom(es, n, u)
    ensures Final(KindAt(p, u))
  {
    forall i | PageOf(p, i, u) ensures p[i].prefix == Pad(u, 4) {
      assert n <= i ==> PageOf(es, i, u);
    }
  }

  lemma KindInGap(es: seq<Entry>, p: seq<Entry>, n: nat, m: nat, u: nat)
    requires HalfWay(es, p, n, m) && m < u && NoneFrom(es, n, u)
    ensures KindAt(p, u) == Nothing
  {
    forall i | PageOf(p, i, u) ensures false {
      assert n <= i ==> PageOf(es, i, u);
    }
  }

  lemma SamePages(a: seq<Entry>, b: seq<Entry>, u: nat)
    requires |a| == |b| && forall i :: 0 <= i < |a| && (PageOf(a, i, u) || PageOf(b, i, u)) ==> a[i] == b[i]
    ensures KindAt(a, u) == KindAt(b, u)
  {
    assert forall i :: PageOf(a, i, u) <==> PageOf(b, i, u);
  }

  lemma KindAbove(es: seq<Entry>, p: seq<Entry>, n: nat, m: nat, u: nat)
    requires HalfWay(es, p, n, m) && m < u && NoneBefore(es, n, u)
    ensures KindAt(p, u) == KindAt(es, u)
  {
    SamePages(p, es, u);
  }

  /** The second page of a pair, once the first has a smaller number. */
  lemma KindOfLeft(es: seq<Entry>, p: seq<Entry>, n: nat, m: nat, c: nat, b: nat)
    requires HalfWay(es, p, n, m) && m < c && n <= b && PageOf(es, b, c)
    requires forall i :: n <= i && PageOf(es, i, c) ==> i == b
    ensures KindAt(p, c) == Single
  {
    assert PageOf(p, b, c);
    forall i | PageOf(p, i, c) ensures i == b {
      assert n <= i ==> PageOf(es, i, c);
    }
  }

  /** The second page of a pair, once the first has got their own number. */
  lemma KindOfCut(es: seq<Entry>, p: seq<Entry>, n: nat, c: nat, a: nat, b: nat)
    requires HalfWay(es, p, n, c) && a < n <= b && PageOf(es, a, c) && PageOf(es, b, c) && PageOf(p, a, c)
    requires forall i :: PageOf(p, i, c) ==> i == a || i == b
    ensures KindAt(p, c) == KindAt(es, c) || KindAt(p, c) == Named
  {
    assert PageOf(p, b, c);
    assert Two(es, c) && Two(p, c);
    if Spelled(es, c) {
      assert p[b].prefix == Pad(c, 4);
    }
  }

  /** The first page at or after n. */
  lemma {:induction false} NextPage(es: seq<Entry>, n: nat) returns (i: nat)
    requires n <= |es|
    ensures n <= i <= |es| && (i < |es| ==> es[i].IsPage()) && forall w :: n <= w < i ==> !es[w].IsPage()
    decreases |es| - n
  {
    if n == |es| || es[n].IsPage() {
      i := n;
    } else {
      i := NextPage(es, n + 1);
    }
  }

  /** The first n entries and the others share no number. */
  ghost predicate CutClean(es: seq<Entry>, n: nat) {
    forall a, b, v: nat :: a < n <= b && PageOf(es, a, v) ==> !PageOf(es, b, v)
  }

  lemma NothingLeft(es: seq<Entry>, p: seq<Entry>, n: nat, m: nat)
    requires HalfWay(es, p, n, m) && forall w :: n <= w < |es| ==> !es[w].IsPage()
    ensures Free(Kinds(p))
  {
    forall v: nat ensures !Stuck(Kinds(p), v) {
      assert NoneFrom(es, n, v);
      if 0 < v <= m {
        KindOfDone(es, p, n, m, v);
      } else if m < v {
        KindInGap(es, p, n, m, v);
      }
    }
  }

  /** Numbers below c are before n, and the others are not. */
  ghost predicate SplitAt(es: seq<Entry>, n: nat, c: nat) {
    && (forall i :: 0 <= i < n <= |es| && es[i].IsPage() ==> PageValue(es[i].prefix) < c)
    && (forall i :: n <= i < |es| && es[i].IsPage() ==> c <= PageValue(es[i].prefix))
  }

  lemma FreeAfterCleanCut(es: seq<Entry>, p: seq<Entry>, n: nat, m: nat, c: nat)
    requires HalfWay(es, p, n, m) && Free(Kinds(es)) && SplitAt(es, n, c)
    requires m < c && m + 1 <= Greatest(Kinds(es), c)
    ensures Free(Kinds(p))
  {
    forall u: nat | 0 < u <= m ensures Final(KindAt(p, u)) {
      KindOfDone(es, p, n, m, u);
    }
    forall u: nat | m < u < c ensures KindAt(p, u).Nothing? {
      KindInGap(es, p, n, m, u);
    }
    forall u: nat | c <= u ensures KindAt(p, u) == KindAt(es, u) {
      KindAbove(es, p, n, m, u);
    }
    CleanCut(Kinds(es), Kinds(p), m, c);
  }

  lemma CleanTryKeeps(f: Folder, es: seq<Entry>, n: nat)
    requires ListingOf(f, es) && Lossless(es) && n <= |es| && CutClean(es, n)
    ensures Free(Kinds(Partly(es, n)))
  {
    var p, m := Partly(es, n), |Seen(es, n)|;
    PartlyIsHalfWay(f, es, n);
    var b := NextPage(es, n);
    if b == |es| {
      NothingLeft(es, p, n, m);
    } else {
      var c := PageValue(es[b].prefix);
      assert PageOf(es, b, c);
      CleanIsSplit(es, n, b, c);
      SeenBefore(f, es, n, c);
      GreatestAtMost(Kinds(es), c);
      FreeAfterCleanCut(es, p, n, m, c);
    }
  }

  lemma CleanIsSplit(es: seq<Entry>, n: nat, b: nat, c: nat)
    requires InPageOrder(es) && CutClean(es, n) && n <= b && PageOf(es, b, c)
    requires forall w :: n <= w < b ==> !es[w].IsPage()
    ensures SplitAt(es, n, c)
  {
    forall i | 0 <= i < n && es[i].IsPage() ensures PageValue(es[i].prefix) < c {
      assert PageOf(es, i, PageValue(es[i].prefix));
      assert es[b].IsPage();
    }
  }

  /** Pages a and b are a pair of number c on both sides of a failure after n entries. */
  ghost predicate CutPair(es: seq<Entry>, n: nat, a: nat, b: nat, c: nat) {
    a < n <= b && PageOf(es, a, c) && PageOf(es, b, c)
  }

  lemma BeforePair(f: Folder, es: seq<Entry>, n: nat, a: nat, b: nat, c: nat)
    requires ListingOf(f, es) && InPageOrder(es) && Loose(es) && n <= |es| && CutPair(es, n, a, b, c)
    ensures forall w :: 0 <= w < a && es[w].IsPage() ==> PageValue(es[w].prefix) < c
    ensures forall w :: a < w < b ==> !es[w].IsPage()
    ensures forall w :: b < w < |es| && es[w].IsPage() ==> c < PageValue(es[w].prefix)
  {
    forall w | 0 <= w < |es| && w != a && w != b ensures !PageOf(es, w, c) {
      if PageOf(es, w, c) {
        AtMostTwoPages(f, es, a, b, w, c);
      }
    }
    forall w | 0 <= w < a && es[w].IsPage() ensures PageValue(es[w].prefix) < c {
      assert !PageOf(es, w, c);
    }
    forall w | a < w < b ensures !es[w].IsPage() {
      assert !PageOf(es, w, c);
    }
    forall w | b < w < |es| && es[w].IsPage() ensures c < PageValue(es[w].prefix) {
      assert !PageOf(es, w, c);
    }
  }

  /** The first page of a number gets the next number. */
  lemma FirstPageOf(es: seq<Entry>, i: nat, v: nat)
    requires PageOf(es, i, v) && forall w :: 0 <= w < i && es[w].IsPage() ==> PageValue(es[w].prefix) < v
    ensures es[i].prefix !in Seen(es, i) && Number(es, i) == |Seen(es, i)| + 1 == |Seen(es, i + 1)|
  {
    var s := Seen(es, i);
    forall k | 0 <= k < |s| ensures s[k] != es[i].prefix {
      var w := SeenIsAPage(es, i, k);
    }
    NumberIsNext(es, i);
  }

  lemma NumberOfFirst(f: Folder, es: seq<Entry>, n: nat, a: nat, b: nat, c: nat)
    requires ListingOf(f, es) && InPageOrder(es) && Loose(es) && n <= |es| && CutPair(es, n, a, b, c) && c > 0
    ensures Number(es, a) == |Seen(es, n)| <= Greatest(Kinds(es), c)
  {
    BeforePair(f, es, n, a, b, c);
    FirstPageOf(es, a, c);
    NoPageSeen(es, a + 1, n);
    SeenBefore(f, es, a, c);
  }

  lemma KindOfPair(f: Folder, es: seq<Entry>, n: nat, a: nat, b: nat, c: nat)
    requires ListingOf(f, es) && InPageOrder(es) && Loose(es) && n <= |es| && CutPair(es, n, a, b, c)
    requires Number(es, a) == |Seen(es, n)| <= c
    ensures var k := KindAt(Partly(es, n), c);
            if |Seen(es, n)| < c then k.Single? else k == KindAt(es, c) || k.Named?
  {
    var p, m := Partly(es, n), |Seen(es, n)|;
    PartlyIsHalfWay(f, es, n);
    forall i | n <= i && PageOf(es, i, c) ensures i == b {
      AtMostTwoPages(f, es, a, b, i, c);
    }
    if m < c {
      KindOfLeft(es, p, n, m, c, b);
    } else {
      HalfWayPage(f, es, n, a);
      forall i | PageOf(p, i, c) ensures i == a || i == b {
        HalfWayPage(f, es, n, i);
        if i < n {
          SameNumberSamePrefix(es, a, i);
          AtMostTwoPages(f, es, a, b, i, c);
        } else {
          assert PageOf(es, i, c);
        }
      }
      KindOfCut(es, p, n, c, a, b);
    }
  }

  lemma KindsAroundPair(es: seq<Entry>, p: seq<Entry>, n: nat, m: nat, a: nat, b: nat, c: nat, u: nat)
    requires HalfWay(es, p, n, m) && CutPair(es, n, a, b, c) && m <= c && u > 0 && u != c
    requires forall w :: 0 <= w < a && es[w].IsPage() ==> PageValue(es[w].prefix) < c
    requires forall w :: a < w < b ==> !es[w].IsPage()
    requires forall w :: b < w < |es| && es[w].IsPage() ==> c < PageValue(es[w].prefix)
    ensures var k := KindAt(p, u);
            if u <= m then Final(k) else if u < c then k.Nothing? else k == KindAt(es, u)
  {
    if u <= m {
      KindOfDone(es, p, n, m, u);
    } else if u < c {
      KindInGap(es, p, n, m, u);
    } else {
      KindAbove(es, p, n, m, u);
    }
  }

  lemma PairMeasures(f: Folder, es: seq<Entry>, n: nat, a: nat, b: nat, c: nat)
    requires ListingOf(f, es) && Lossless(es) && n <= |es| && CutPair(es, n, a, b, c)
    ensures Number(es, a) == |Seen(es, n)| && 0 < |Seen(es, n)| <= c && |Seen(es, n)| <= Greatest(Kinds(es), c)
    ensures KindAt(es, c).Named? || KindAt(es, c).Other?
  {
    NumberOfFirst(f, es, n, a, b, c);
    assert Two(es, c);
    GreatestAtMost(Kinds(es), c);
  }

  lemma PairTryKeeps(f: Folder, es: seq<Entry>, n: nat, a: nat, b: nat, c: nat)
    requires ListingOf(f, es) && Lossless(es) && n <= |es| && CutPair(es, n, a, b, c)
    ensures Free(Kinds(Partly(es, n)))
  {
    var p, m := Partly(es, n), |Seen(es, n)|;
    PairMeasures(f, es, n, a, b, c);
    assert CutAt(Kinds(es), Kinds(p), m, c) by {
      PartlyIsHalfWay(f, es, n);
      BeforePair(f, es, n, a, b, c);
      KindOfPair(f, es, n, a, b, c);
      forall u: nat | u > 0 && u != c
        ensures var k := KindAt(p, u);
                if u <= m then Final(k) else if u < c then k.Nothing? else k == KindAt(es, u)
      {
        KindsAroundPair(es, p, n, m, a, b, c, u);
      }
    }
    CutInside(Kinds(es), Kinds(p), m, c);
  }

  lemma LooseAcross(f: Folder, es: seq<Entry>, n: nat, i: nat, j: nat)
    requires ListingOf(f, es) && Lossless(es) && i < n <= j < |es| && es[i].IsPage() && es[j].IsPage()
    requires Number(es, i) == PageValue(es[j].prefix)
    ensures es[i].ext != es[j].ext
  {
    var v := PageValue(es[i].prefix);
    assert PageOf(es, i, v) && PageOf(es, j, Number(es, i));
    NumberAtMostOwn(f, es, i, v);
  }

  lemma PartlyIsLoose(f: Folder, es: seq<Entry>, n: nat)
    requires ListingOf(f, es) && Lossless(es) && n <= |es|
    ensures Loose(Partly(es, n))
  {
    var p := Partly(es, n);
    forall i | 0 <= i < |p| && p[i].IsPage() ensures PageValue(p[i].prefix) > 0 {
      HalfWayPage(f, es, n, i);
    }
    forall i, j | 0 <= i < j < |p| && p[i].IsPage() && p[j].IsPage() && PageValue(p[i].prefix) == PageValue(p[j].prefix)
      ensures p[i].ext != p[j].ext
    {
      HalfWayPage(f, es, n, i);
      HalfWayPage(f, es, n, j);
      if i < n <= j {
        LooseAcross(f, es, n, i, j);
      } else if j < n {
        SameNumberSamePrefix(es, i, j);
      }
    }
  }

  // ---- two listings of one folder

  lemma LooseInBoth(f: Folder, a: seq<Entry>, b: seq<Entry>)
    requires ListingOf(f, a) && Loose(a) && ListingOf(f, b)
    ensures Loose(b)
  {
    forall i | 0 <= i < |b| && b[i].IsPage() ensures PageValue(b[i].prefix) > 0 {
      var _ := FoundIn(f, b, a, i);
    }
    forall i, j | 0 <= i < j < |b| && b[i].IsPage() && b[j].IsPage() && PageValue(b[i].prefix) == PageValue(b[j].prefix)
      ensures b[i].ext != b[j].ext
    {
      var k := FoundIn(f, b, a, i);
      var l := FoundIn(f, b, a, j);
      assert NamesOf(b)[i] != NamesOf(b)[j];
      assert k != l;
    }
  }

  lemma HasInBoth(f: Folder, a: seq<Entry>, b: seq<Entry>, v: nat)
    requires ListingOf(f, a) && ListingOf(f, b)
    ensures Has(a, v) ==> Has(b, v)
    ensures Spelled(a, v) ==> Spelled(b, v)
  {
    if i :| PageOf(a, i, v) {
      var k := FoundIn(f, a, b, i);
      assert PageOf(b, k, v);
    }
    if Spelled(a, v) {
      forall i | PageOf(b, i, v) ensures b[i].prefix == Pad(v, 4) {
        var k := FoundIn(f, b, a, i);
        assert PageOf(a, k, v);
      }
    }
  }

  lemma TwoInBoth(f: Folder, a: seq<Entry>, b: seq<Entry>, v: nat)
    requires ListingOf(f, a) && ListingOf(f, b)
    ensures Two(a, v) ==> Two(b, v)
  {
    if i, j :| i < j && PageOf(a, i, v) && PageOf(a, j, v) {
      var k := FoundIn(f, a, b, i);
      var l := FoundIn(f, a, b, j);
      assert NamesOf(a)[i] != NamesOf(a)[j];
      assert PageOf(b, k, v) && PageOf(b, l, v) && k != l;
    }
  }

  lemma FreeInBoth(f: Folder, a: seq<Entry>, b: seq<Entry>)
    requires ListingOf(f, a) && ListingOf(f, b) && Free(Kinds(a))
    ensures Free(Kinds(b))
  {
    forall v: nat ensures KindAt(a, v) == KindAt(b, v) {
      HasInBoth(f, a, b, v);
      HasInBoth(f, b, a, v);
      TwoInBoth(f, a, b, v);
      TwoInBoth(f, b, a, v);
    }
    forall v: nat ensures !Stuck(Kinds(b), v) {
      if v > 0 {
        LessBelow(Kinds(a), Kinds(b), 1, v);
      }
    }
  }

  lemma LosslessInBoth(f: Folder, a: seq<Entry>, b: seq<Entry>)
    requires ListingOf(f, a) && Lossless(a) && ListingOf(f, b) && InPageOrder(b)
    ensures Lossless(b)
  {
    LooseInBoth(f, a, b);
    FreeInBoth(f, a, b);
  }

  /** The next try meets such a listing again, wherever this one fails. */
  lemma TryKeepsLossless(f: Folder, es: seq<Entry>, n: nat, again: seq<Entry>)
    requires ListingOf(f, es) && Lossless(es) && Follows(f, es, n, again)
    ensures Lossless(again)
  {
    var g := MoveUpTo(f, NamesOf(es), NewNames(es), n);
    LosslessListed(f, es, n);
    PartlyIsLoose(f, es, n);
    LooseInBoth(g, Partly(es, n), again);
    if a, b, c: nat :| a < n <= b && PageOf(es, a, c) && PageOf(es, b, c) {
      PairTryKeeps(f, es, n, a, b, c);
    } else {
      CleanTryKeeps(f, es, n);
    }
    FreeInBoth(g, Partly(es, n), again);
  }

  /** Pages later in page order never get a smaller number. */
  lemma NumbersRise(f: Folder, es: seq<Entry>, a: nat, b: nat)
    requires ListingOf(f, es) && InPageOrder(es) && Loose(es) && a <= b < |es| && es[a].IsPage() && es[b].IsPage()
    ensures Number(es, a) <= Number(es, b)
  {
    if PageValue(es[a].prefix) < PageValue(es[b].prefix) {
      SmallerFirst(es, a, b);
    } else if es[a].prefix != es[b].prefix {
      var v := PageValue(es[b].prefix);
      forall w | 0 <= w < b && es[w].IsPage() ensures es[w].prefix != es[b].prefix {
        if es[w].prefix == es[b].prefix {
          AtMostTwoPages(f, es, a, b, w, v);
        }
      }
      NewIsGreater(es, a, b);
    }
  }

  /** The numbers of the first n entries are not greater than the pages left. */
  ghost predicate BelowRest(es: seq<Entry>, n: nat) {
    forall i, j {:trigger NumberBelow(es, i, j)} | 0 <= i < n <= j < |es| :: NumberBelow(es, i, j)
  }

  predicate NumberBelow(es: seq<Entry>, i: nat, j: nat)
    requires i < |es| && j < |es|
  {
    es[i].IsPage() && es[j].IsPage() ==> Number(es, i) <= PageValue(es[j].prefix)
  }

  /** Then the listing half way is in page order. */
  lemma PartlyRises(f: Folder, es: seq<Entry>, n: nat)
    requires ListingOf(f, es) && InPageOrder(es) && Loose(es) && n <= |es| && BelowRest(es, n)
    ensures InPageOrder(Partly(es, n))
  {
    var p := Partly(es, n);
    forall i, j | 0 <= i < j < |p| && p[i].IsPage() && p[j].IsPage()
      ensures PageValue(p[i].prefix) <= PageValue(p[j].prefix)
    {
      HalfWayPage(f, es, n, i);
      HalfWayPage(f, es, n, j);
      if j < n {
        NumbersRise(f, es, i, j);
      } else if i < n {
        assert NumberBelow(es, i, j);
      }
    }
  }

  lemma FirstAtMostOwn(f: Folder, es: seq<Entry>, i: nat, j: nat, v: nat)
    requires ListingOf(f, es) && Lossless(es) && i < j && PageOf(es, i, v) && PageOf(es, j, v)
    ensures Number(es, i) <= v
  {
    FirstOfTwo(f, es, i, j, v);
    NumberInSeen(es, i, i + 1);
    SeenWithin(f, es, i, v);
    GreatestAtMost(Kinds(es), v);
  }

  lemma LosslessInOrder(f: Folder, es: seq<Entry>, i: nat, j: nat)
    requires ListingOf(f, es) && Lossless(es) && i < j < |es|
    ensures NumberBelow(es, i, j)
  {
    if es[i].IsPage() && es[j].IsPage() {
      var v := PageValue(es[i].prefix);
      assert PageOf(es, i, v);
      if PageValue(es[j].prefix) == v {
        FirstAtMostOwn(f, es, i, j, v);
      } else {
        NumberAtMostOwn(f, es, i, v);
      }
    }
  }

  lemma PartlyIsLossless(f: Folder, es: seq<Entry>, n: nat)
    requires ListingOf(f, es) && Lossless(es) && n <= |es|
    ensures ListingOf(MoveUpTo(f, NamesOf(es), NewNames(es), n), Partly(es, n)) && Lossless(Partly(es, n))
  {
    forall i, j | 0 <= i < n <= j < |es| ensures NumberBelow(es, i, j) {
      LosslessInOrder(f, es, i, j);
    }
    PartlyRises(f, es, n);
    LosslessListed(f, es, n);
    TryKeepsLossless(f, es, n, Partly(es, n));
  }

  // ---------------------------------------------------------------- sequences of tries

  /** A try that met a listing and ended after `done` of its entries. */
  datatype Try = Try(listing: seq<Entry>, done: nat)

  ghost predicate TryOn(f: Folder, t: Try) {
    ListingOf(f, t.listing) && InPageOrder(t.listing) && t.done <= |t.listing|
  }

  function AfterTry(f: Folder, t: Try): Folder
    requires t.done <= |t.listing|
  {
    MoveUpTo(f, NamesOf(t.listing), NewNames(t.listing), t.done)
  }

  /** Tries one after the other, each on what the one before left, however the directory is listed then. */
  ghost predicate Tries(f: Folder, ts: seq<Try>)
    decreases |ts|
  {
    ts == [] || (TryOn(f, ts[0]) && Tries(AfterTry(f, ts[0]), ts[1..]))
  }

  /** None of them replaces a file. */
  ghost predicate ReplacesNothing(f: Folder, ts: seq<Try>)
    requires Tries(f, ts)
    decreases |ts|
  {
    ts == [] ||
    (NoneClobber(f, NamesOf(ts[0].listing), NewNames(ts[0].listing), ts[0].done)
     && ReplacesNothing(AfterTry(f, ts[0]), ts[1..]))
  }

  ghost predicate NeverReplaces(f: Folder) {
    forall ts | Tries(f, ts) :: ReplacesNothing(f, ts)
  }

  lemma OneTry(f: Folder, t: Try)
    requires NeverReplaces(f) && TryOn(f, t)
    ensures NoneClobber(f, NamesOf(t.listing), NewNames(t.listing), t.done) && NeverReplaces(AfterTry(f, t))
  {
    assert Tries(AfterTry(f, t), []);
    assert [t][1..] == [];
    assert Tries(f, [t]);
    forall ts | Tries(AfterTry(f, t), ts) ensures ReplacesNothing(AfterTry(f, t), ts) {
      var all := [t] + ts;
      assert all[1..] == ts;
      assert Tries(f, all);
    }
  }

  /** After such a try the listing half way is a listing of the folder. */
  lemma TryListed(f: Folder, es: seq<Entry>, n: nat)
    requires NeverReplaces(f) && ListingOf(f, es) && InPageOrder(es) && n <= |es|
    ensures var g := MoveUpTo(f, NamesOf(es), NewNames(es), n); NeverReplaces(g) && ListingOf(g, Partly(es, n))
  {
    OneTry(f, Try(es, n));
    PlacedUnlessClobbered(f, NamesOf(es), NewNames(es), n);
    PartlyNames(es, n);
    forall i | 0 <= i < |Partly(es, n)| ensures Looked(Partly(es, n)[i]) {
      PartlyLooked(f, es, n, i);
    }
  }

  lemma {:induction false} LosslessTries(f: Folder, es: seq<Entry>, ts: seq<Try>)
    requires ListingOf(f, es) && Lossless(es) && Tries(f, ts)
    ensures ReplacesNothing(f, ts)
    decreases |ts|
  {
    if ts != [] {
      var listing, n := ts[0].listing, ts[0].done;
      LosslessInBoth(f, es, listing);
      LosslessRun(f, listing, n);
      PartlyIsLossless(f, listing, n);
      LosslessTries(AfterTry(f, ts[0]), Partly(listing, n), ts[1..]);
    }
  }

  // ---------------------------------------------------------------- a pair in the way loses a page

  /** Between the pages of a pair, when the first page's name is new to it, a failure leaves two prefixes. */
  ghost predicate Tears(f: Folder, es: seq<Entry>, i: nat, j: nat, v: nat) {
    && ListingOf(f, es) && InPageOrder(es) && Loose(es) && i < j && PageOf(es, i, v) && PageOf(es, j, v)
    && es[i].prefix == es[j].prefix != Pad(Number(es, i), 4) && Number(es, i) <= v
  }

  lemma TornInOrder(f: Folder, es: seq<Entry>, i: nat, j: nat, v: nat)
    requires Tears(f, es, i, j, v)
    ensures InPageOrder(Partly(es, i + 1))
  {
    forall x, y | 0 <= x < i + 1 <= y < |es| ensures NumberBelow(es, x, y) {
      if es[x].IsPage() && es[y].IsPage() {
        NumbersRise(f, es, x, i);
        assert es[i].IsPage();
      }
    }
    PartlyRises(f, es, i + 1);
  }

  lemma TornIsLoose(f: Folder, es: seq<Entry>, i: nat, j: nat, v: nat)
    requires Tears(f, es, i, j, v)
    ensures Loose(Partly(es, i + 1))
  {
    var p := Partly(es, i + 1);
    forall x | 0 <= x < |p| && p[x].IsPage() ensures PageValue(p[x].prefix) > 0 {
      HalfWayPage(f, es, i + 1, x);
    }
    forall x, y | 0 <= x < y < |p| && p[x].IsPage() && p[y].IsPage() && PageValue(p[x].prefix) == PageValue(p[y].prefix)
      ensures p[x].ext != p[y].ext
    {
      HalfWayPage(f, es, i + 1, x);
      HalfWayPage(f, es, i + 1, y);
      if x <= i {
        NumbersRise(f, es, x, i);
        SameNumberSamePrefix(es, x, i);
        SameNumberSamePrefix(es, x, y);
        assert i < y ==> v <= PageValue(es[y].prefix);
      }
    }
  }

  lemma PrefixedHalfWay(f: Folder, es: seq<Entry>, n: nat)
    requires ListingOf(f, es) && n <= |es|
    ensures Prefixed(es, Partly(es, n), n)
  {
    forall k | 0 <= k < n
      ensures Partly(es, n)[k].IsPage() == es[k].IsPage()
      ensures es[k].IsPage() ==> Partly(es, n)[k].prefix == Pad(Number(es, k), 4)
    {
      HalfWayPage(f, es, n, k);
    }
  }

  lemma NotASmallerNumeral(prefix: string, c: nat, number: nat)
    requires c < number <= PageValue(prefix) && prefix != Pad(number, 4)
    ensures Pad(c + 1, 4) != prefix
  {
    LookAtNewName(c + 1, ".pdf");
  }

  lemma NotANumeral(s: seq<string>, prefix: string, number: nat)
    requires Numerals(s) && |s| == number <= PageValue(prefix) && prefix != Pad(number, 4)
    ensures prefix !in s
  {
    forall c | 0 <= c < |s| ensures s[c] != prefix {
      NotASmallerNumeral(prefix, c, number);
    }
  }

  lemma NewPrefix(es: seq<Entry>, i: nat)
    requires i < |es| && es[i].IsPage() && es[i].prefix !in Seen(es, i)
    ensures |Seen(es, i + 1)| == |Seen(es, i)| + 1
  {
  }

  /** The next try sees one prefix more. */
  lemma TornSeen(f: Folder, es: seq<Entry>, i: nat, j: nat, v: nat)
    requires Tears(f, es, i, j, v)
    ensures var p := Partly(es, i + 1);
            && |Seen(p, i)| == |Seen(es, i)| == Number(es, i) - 1 && |Seen(p, j + 1)| == Number(es, i) + 1
            && p[i].IsPage() && p[i].prefix == Pad(Number(es, i), 4) && PageValue(p[i].prefix) == Number(es, i)
  {
    var p, n := Partly(es, i + 1), Number(es, i);
    BeforePair(f, es, i + 1, i, j, v);
    FirstPageOf(es, i, v);
    PrefixedHalfWay(f, es, i + 1);
    SeenOfRenamed(es, p, i + 1, i);
    SeenOfRenamed(es, p, i + 1, i + 1);
    HalfWayPage(f, es, i + 1, i);
    NoPageSeen(p, i + 1, j);
    NotANumeral(Seen(p, j), p[j].prefix, n);
    NewPrefix(p, j);
  }

  // ---- the walk to the pair

  ghost predicate Listing(f: Folder, es: seq<Entry>) {
    ListingOf(f, es) && InPageOrder(es) && Loose(es)
  }

  /** Pages below v come first, and from entry j on nothing has changed. */
  ghost predicate Alike(es: seq<Entry>, at: seq<Entry>, j: nat, v: nat) {
    && j <= |es| == |at|
    && (forall i :: 0 <= i < j && at[i].IsPage() ==> PageValue(at[i].prefix) < v)
    && (forall i :: 0 <= i < j && es[i].IsPage() ==> PageValue(es[i].prefix) < v)
    && (forall i :: j <= i < |es| ==> at[i] == es[i])
    && (forall i :: j <= i < |es| && es[i].IsPage() ==> v <= PageValue(es[i].prefix))
  }

  /** Tries have led to folder g, listed as at, in which pages below v are told apart as far as failures can. */
  ghost predicate At(es: seq<Entry>, g: Folder, at: seq<Entry>, j: nat, v: nat) {
    && Listing(g, at) && NeverReplaces(g) && Alike(es, at, j, v)
    && |Seen(at, j)| + 1 == Greatest(Kinds(es), v)
  }

  lemma Advance(es: seq<Entry>, at: seq<Entry>, j: nat, v: nat, k: nat)
    requires Alike(es, at, j, v) && j <= k <= |es|
    requires forall i :: j <= i < k && es[i].IsPage() ==> PageValue(es[i].prefix) <= v
    requires forall i :: k <= i < |es| && es[i].IsPage() ==> v < PageValue(es[i].prefix)
    ensures Alike(es, at, k, v + 1)
  {
  }

  lemma PastNone(es: seq<Entry>, at: seq<Entry>, j: nat, v: nat)
    requires Alike(es, at, j, v) && !Has(es, v)
    ensures Alike(es, at, j, v + 1)
  {
    forall i | j <= i < |es| && es[i].IsPage() ensures v < PageValue(es[i].prefix) {
      assert !PageOf(es, i, v);
    }
    Advance(es, at, j, v, j);
  }

  lemma PastSingle(es: seq<Entry>, at: seq<Entry>, j: nat, v: nat, i: nat)
    requires InPageOrder(at) && Alike(es, at, j, v) && PageOf(es, i, v) && !Two(es, v)
    ensures i < |es| && Alike(es, at, i + 1, v + 1) && |Seen(at, i + 1)| == |Seen(at, j)| + 1
  {
    assert forall w :: j <= w < |es| && w != i ==> !PageOf(es, w, v);
    forall w | j <= w < i ensures !at[w].IsPage() {
      assert at[i].IsPage() && !PageOf(es, w, v);
    }
    NoPageSeen(at, j, i);
    FirstPageOf(at, i, v);
    forall w | i + 1 <= w < |es| && es[w].IsPage() ensures v < PageValue(es[w].prefix) {
      assert !PageOf(es, w, v);
    }
    Advance(es, at, j, v, i + 1);
  }

  lemma PairUnchanged(es: seq<Entry>, at: seq<Entry>, j: nat, v: nat, i: nat, k: nat)
    requires Alike(es, at, j, v) && i < k && PageOf(es, i, v) && PageOf(es, k, v)
    ensures j <= i && PageOf(at, i, v) && PageOf(at, k, v) && at[i] == es[i] && at[k] == es[k]
  {
  }

  /** Before and between the two pages of a number. */
  lemma SeenAtPair(f: Folder, at: seq<Entry>, v: nat, i: nat, k: nat)
    requires Listing(f, at) && i < k && PageOf(at, i, v) && PageOf(at, k, v)
    ensures Number(at, i) == |Seen(at, i)| + 1 == |Seen(at, k)| && at[i].prefix in Seen(at, k)
  {
    BeforePair(f, at, i + 1, i, k, v);
    FirstPageOf(at, i, v);
    NoPageSeen(at, i + 1, k);
    SeenFacts(at, i + 1, i + 1);
  }

  lemma PairIsNext(f: Folder, es: seq<Entry>, at: seq<Entry>, j: nat, v: nat, i: nat, k: nat)
    requires Listing(f, at) && Alike(es, at, j, v) && i < k && PageOf(es, i, v) && PageOf(es, k, v)
    ensures j <= i && Seen(at, i) == Seen(at, j) && Alike(es, at, k + 1, v + 1)
  {
    PairUnchanged(es, at, j, v, i, k);
    BeforePair(f, at, i + 1, i, k, v);
    NoPageSeen(at, j, i);
    Advance(es, at, j, v, k + 1);
  }

  lemma SecondIsNew(f: Folder, es: seq<Entry>, i: nat, k: nat, v: nat)
    requires Listing(f, es) && i < k && PageOf(es, i, v) && PageOf(es, k, v) && es[i].prefix != es[k].prefix
    ensures Number(es, k) == |Seen(es, k)| + 1 == |Seen(es, k + 1)|
  {
    BeforePair(f, es, i + 1, i, k, v);
    var s := Seen(es, k);
    forall c | 0 <= c < |s| ensures s[c] != es[k].prefix {
      var w := SeenIsAPage(es, k, c);
    }
    NumberIsNext(es, k);
  }

  lemma KindOfTwo(es: seq<Entry>, v: nat, i: nat, k: nat)
    requires i < k && PageOf(es, i, v) && PageOf(es, k, v)
    ensures KindAt(es, v) == if Spelled(es, v) then Named else Other
  {
  }

  lemma OnlySpelled(f: Folder, es: seq<Entry>, v: nat, i: nat, k: nat)
    requires Listing(f, es) && i < k && PageOf(es, i, v) && PageOf(es, k, v)
    ensures Spelled(es, v) <==> es[i].prefix == es[k].prefix == Pad(v, 4)
  {
    forall w | PageOf(es, w, v) ensures w == i || w == k {
      AtMostTwoPages(f, es, i, k, w, v);
    }
  }

  /** What a pair adds to the greatest number. */
  lemma GreatestAfterTwo(f: Folder, es: seq<Entry>, v: nat, i: nat, k: nat)
    requires Listing(f, es) && i < k && PageOf(es, i, v) && PageOf(es, k, v)
    ensures var n := Greatest(Kinds(es), v);
            Greatest(Kinds(es), v + 1) == n + if es[i].prefix == es[k].prefix == Pad(v, 4) && v == n then 1 else 2
  {
    KindOfTwo(es, v, i, k);
    OnlySpelled(f, es, v, i, k);
  }

  lemma WalkNone(es: seq<Entry>, g: Folder, at: seq<Entry>, j: nat, v: nat)
    requires At(es, g, at, j, v) && v > 0 && !Has(es, v)
    ensures At(es, g, at, j, v + 1)
  {
    PastNone(es, at, j, v);
  }

  lemma WalkSingle(es: seq<Entry>, g: Folder, at: seq<Entry>, j: nat, v: nat, i: nat)
    requires At(es, g, at, j, v) && v > 0 && PageOf(es, i, v) && !Two(es, v)
    ensures i < |es| && At(es, g, at, i + 1, v + 1)
  {
    PastSingle(es, at, j, v, i);
    assert Kinds(es)(v) == Single;
  }

  /** The pages of number v are a pair of two names. */
  lemma WalkTwo(f: Folder, es: seq<Entry>, g: Folder, at: seq<Entry>, j: nat, v: nat, i: nat, k: nat)
    requires Listing(f, es) && At(es, g, at, j, v) && v > 0 && i < k && PageOf(es, i, v) && PageOf(es, k, v)
    requires es[i].prefix != es[k].prefix
    ensures k < |es| && At(es, g, at, k + 1, v + 1)
  {
    PairIsNext(g, es, at, j, v, i, k);
    PairUnchanged(es, at, j, v, i, k);
    SeenAtPair(g, at, v, i, k);
    SecondIsNew(g, at, i, k, v);
    GreatestAfterTwo(f, es, v, i, k);
  }

  lemma OldPrefix(es: seq<Entry>, i: nat)
    requires i < |es| && es[i].prefix in Seen(es, i)
    ensures Seen(es, i + 1) == Seen(es, i)
  {
  }

  /** They are a pair that keeps its one name. */
  lemma WalkNamed(f: Folder, es: seq<Entry>, g: Folder, at: seq<Entry>, j: nat, v: nat, i: nat, k: nat)
    requires Listing(f, es) && At(es, g, at, j, v) && v > 0 && i < k && PageOf(es, i, v) && PageOf(es, k, v)
    requires es[i].prefix == es[k].prefix == Pad(v, 4) && Greatest(Kinds(es), v) == v
    ensures k < |es| && At(es, g, at, k + 1, v + 1)
  {
    PairIsNext(g, es, at, j, v, i, k);
    PairUnchanged(es, at, j, v, i, k);
    SeenAtPair(g, at, v, i, k);
    OldPrefix(at, k);
    GreatestAfterTwo(f, es, v, i, k);
  }

  lemma PairTears(es: seq<Entry>, g: Folder, at: seq<Entry>, j: nat, v: nat, i: nat, k: nat)
    requires At(es, g, at, j, v) && i < k && PageOf(es, i, v) && PageOf(es, k, v)
    requires Greatest(Kinds(es), v) <= v && es[i].prefix == es[k].prefix
    requires v == Greatest(Kinds(es), v) ==> es[i].prefix != Pad(v, 4)
    ensures Tears(g, at, i, k, v) && Number(at, i) == Greatest(Kinds(es), v)
  {
    PairIsNext(g, es, at, j, v, i, k);
    PairUnchanged(es, at, j, v, i, k);
    SeenAtPair(g, at, v, i, k);
    LookAtNewName(Number(at, i), ".pdf");
  }

  lemma TornStaysAlike(f: Folder, es: seq<Entry>, at: seq<Entry>, j: nat, v: nat, i: nat, k: nat)
    requires Tears(f, at, i, k, v) && Alike(es, at, k + 1, v + 1)
    ensures Alike(es, Partly(at, i + 1), k + 1, v + 1)
  {
    var p := Partly(at, i + 1);
    forall w | 0 <= w < k + 1 && p[w].IsPage() ensures PageValue(p[w].prefix) < v + 1 {
      HalfWayPage(f, at, i + 1, w);
      if w <= i {
        NumbersRise(f, at, w, i);
      }
    }
  }

  lemma ListedTorn(f: Folder, es: seq<Entry>, i: nat, k: nat, v: nat)
    requires Tears(f, es, i, k, v) && NeverReplaces(f)
    ensures var g := MoveUpTo(f, NamesOf(es), NewNames(es), i + 1); Listing(g, Partly(es, i + 1)) && NeverReplaces(g)
  {
    TornInOrder(f, es, i, k, v);
    TornIsLoose(f, es, i, k, v);
    TryListed(f, es, i + 1);
  }

  /** They are a pair that a failure tears. */
  lemma WalkTorn(f: Folder, es: seq<Entry>, g: Folder, at: seq<Entry>, j: nat, v: nat, i: nat, k: nat)
    requires Listing(f, es) && At(es, g, at, j, v) && v > 0 && i < k && PageOf(es, i, v) && PageOf(es, k, v)
    requires Greatest(Kinds(es), v) <= v && es[i].prefix == es[k].prefix
    requires v == Greatest(Kinds(es), v) ==> es[i].prefix != Pad(v, 4)
    ensures i < |at| && k < |es|
    ensures At(es, MoveUpTo(g, NamesOf(at), NewNames(at), i + 1), Partly(at, i + 1), k + 1, v + 1)
  {
    PairTears(es, g, at, j, v, i, k);
    ListedTorn(g, at, i, k, v);
    assert Alike(es, Partly(at, i + 1), k + 1, v + 1) by {
      PairIsNext(g, es, at, j, v, i, k);
      TornStaysAlike(g, es, at, j, v, i, k);
    }
    assert |Seen(Partly(at, i + 1), k + 1)| + 1 == Greatest(Kinds(es), v + 1) by {
      TornSeen(g, at, i, k, v);
      GreatestAfterTwo(f, es, v, i, k);
    }
  }

  /** Tries can lead to a folder that is told apart as far as number v. */
  ghost predicate Reached(es: seq<Entry>, v: nat) {
    exists g, at, j :: At(es, g, at, j, v)
  }

  lemma WalkPair(f: Folder, es: seq<Entry>, g: Folder, at: seq<Entry>, j: nat, v: nat, i: nat, k: nat)
    requires Listing(f, es) && At(es, g, at, j, v) && v > 0 && i < k && PageOf(es, i, v) && PageOf(es, k, v)
    requires Greatest(Kinds(es), v) <= v
    ensures Reached(es, v + 1)
  {
    if es[i].prefix != es[k].prefix {
      WalkTwo(f, es, g, at, j, v, i, k);
    } else if es[i].prefix == Pad(v, 4) && v == Greatest(Kinds(es), v) {
      WalkNamed(f, es, g, at, j, v, i, k);
    } else {
      WalkTorn(f, es, g, at, j, v, i, k);
    }
  }

  lemma OnePage(es: seq<Entry>, v: nat) returns (i: nat)
    requires Has(es, v)
    ensures PageOf(es, i, v)
  {
    i :| PageOf(es, i, v);
  }

  lemma TwoPages(es: seq<Entry>, v: nat) returns (i: nat, k: nat)
    requires Two(es, v)
    ensures i < k && PageOf(es, i, v) && PageOf(es, k, v)
  {
    i, k :| i < k && PageOf(es, i, v) && PageOf(es, k, v);
  }

  /** One number further. */
  lemma WalkOn(f: Folder, es: seq<Entry>, v: nat)
    requires Listing(f, es) && Reached(es, v) && v > 0 && (Has(es, v) ==> Greatest(Kinds(es), v) <= v)
    ensures Reached(es, v + 1)
  {
    var g, at, j :| At(es, g, at, j, v);
    if !Has(es, v) {
      WalkNone(es, g, at, j, v);
    } else if !Two(es, v) {
      var i := OnePage(es, v);
      WalkSingle(es, g, at, j, v, i);
    } else {
      var i, k := TwoPages(es, v);
      WalkPair(f, es, g, at, j, v, i, k);
    }
  }

  lemma WalkStart(f: Folder, es: seq<Entry>)
    requires Listing(f, es) && NeverReplaces(f)
    ensures Reached(es, 1)
  {
    assert At(es, f, es, 0, 1);
  }

  lemma WalkStep(f: Folder, es: seq<Entry>, v: nat)
    requires Listing(f, es) && Reached(es, v) && v > 0 && FreeBelow(Kinds(es), v)
    ensures Reached(es, v + 1)
  {
    GreatestAtMost(Kinds(es), v);
    WalkOn(f, es, v);
  }

  lemma {:induction false} Walk(f: Folder, es: seq<Entry>, v: nat)
    requires Listing(f, es) && NeverReplaces(f) && v > 0 && FreeBelow(Kinds(es), v)
    ensures Reached(es, v)
  {
    if v == 1 {
      WalkStart(f, es);
    } else {
      Walk(f, es, v - 1);
      WalkStep(f, es, v - 1);
    }
  }

  // ---- and the loss there

  /** A pair of two names for its own number, with a page of the next number. */
  ghost predicate Poised(g: Folder, at: seq<Entry>, i: nat, k: nat, v: nat) {
    && Listing(g, at) && i < k && PageOf(at, i, v) && PageOf(at, k, v)
    && at[i].prefix != at[k].prefix && |Seen(at, i)| + 1 == v && Has(at, v + 1)
  }

  lemma PoisedTwo(es: seq<Entry>, g: Folder, at: seq<Entry>, j: nat, v: nat, i: nat, k: nat)
    requires At(es, g, at, j, v) && i < k && PageOf(es, i, v) && PageOf(es, k, v) && es[i].prefix != es[k].prefix
    requires Greatest(Kinds(es), v) == v && Has(es, v + 1)
    ensures Poised(g, at, i, k, v)
  {
    PairIsNext(g, es, at, j, v, i, k);
    PairUnchanged(es, at, j, v, i, k);
    var l: nat :| PageOf(es, l, v + 1);
    assert PageOf(at, l, v + 1);
  }

  lemma PoisedTorn(es: seq<Entry>, g: Folder, at: seq<Entry>, j: nat, v: nat, i: nat, k: nat)
    requires At(es, g, at, j, v) && i < k && PageOf(es, i, v) && PageOf(es, k, v)
    requires es[i].prefix == es[k].prefix != Pad(v, 4) && Greatest(Kinds(es), v) == v && Has(es, v + 1)
    ensures i < |at|
    ensures var g' := MoveUpTo(g, NamesOf(at), NewNames(at), i + 1);
            NeverReplaces(g') && Poised(g', Partly(at, i + 1), i, k, v)
  {
    var p := Partly(at, i + 1);
    PairTears(es, g, at, j, v, i, k);
    PairUnchanged(es, at, j, v, i, k);
    TornSeen(g, at, i, k, v);
    ListedTorn(g, at, i, k, v);
    var l: nat :| PageOf(es, l, v + 1);
    assert at[k].IsPage() && at[l].IsPage();
    assert PageOf(p, l, v + 1);
  }

  /** The pages up to the pair's second get the numbers up to v + 1. */
  lemma UpToSecond(g: Folder, at: seq<Entry>, i: nat, k: nat, v: nat)
    requires Listing(g, at) && i < k && PageOf(at, i, v) && PageOf(at, k, v) && at[i].prefix != at[k].prefix
    requires |Seen(at, i)| + 1 == v
    ensures Number(at, k) == v + 1 && |Seen(at, k)| == v
    ensures forall w :: 0 <= w < k && at[w].IsPage() ==> Number(at, w) <= v
    ensures forall w :: k < w < |at| && at[w].IsPage() ==> v < PageValue(at[w].prefix)
  {
    SeenAtPair(g, at, v, i, k);
    SecondIsNew(g, at, i, k, v);
    BeforePair(g, at, i + 1, i, k, v);
    forall w | 0 <= w < k && at[w].IsPage() ensures Number(at, w) <= v {
      NumberInSeen(at, w, k);
    }
  }

  lemma UpToNext(g: Folder, at: seq<Entry>, i: nat, k: nat, v: nat, x: nat, y: nat)
    requires Poised(g, at, i, k, v) && x <= k < y < |at|
    ensures NumberBelow(at, x, y)
  {
    UpToSecond(g, at, i, k, v);
  }

  lemma NextBelowRest(g: Folder, at: seq<Entry>, i: nat, k: nat, v: nat)
    requires Poised(g, at, i, k, v)
    ensures BelowRest(at, k + 1)
  {
    forall x, y | 0 <= x < k + 1 <= y < |at| ensures NumberBelow(at, x, y) {
      UpToNext(g, at, i, k, v, x, y);
    }
  }

  lemma AfterSecond(at: seq<Entry>, k: nat, v: nat, l: nat)
    requires InPageOrder(at) && PageOf(at, k, v) && PageOf(at, l, v + 1)
    ensures k < l
  {
    assert at[k].IsPage() && at[l].IsPage();
  }

  /** Page l has the number that the pair's second page has then. */
  lemma SameNumberThen(g: Folder, at: seq<Entry>, i: nat, k: nat, v: nat, l: nat)
    requires Poised(g, at, i, k, v) && PageOf(at, l, v + 1) && at[l].ext == at[k].ext
    ensures k < l < |at|
    ensures var p := Partly(at, k + 1);
            PageOf(p, k, v + 1) && PageOf(p, l, v + 1) && p[k].name == PageName(v + 1, at[l].ext)
  {
    AfterSecond(at, k, v, l);
    UpToSecond(g, at, i, k, v);
    HalfWayPage(g, at, k + 1, k);
  }

  lemma {:induction false} SeenOfSame(a: seq<Entry>, b: seq<Entry>, n: nat)
    requires n <= |a| && n <= |b| && forall i :: 0 <= i < n ==> a[i] == b[i]
    ensures Seen(a, n) == Seen(b, n)
  {
    if n > 0 {
      SeenOfSame(a, b, n - 1);
    }
  }

  lemma SeenAgain(g: Folder, at: seq<Entry>, i: nat, k: nat, v: nat)
    requires Poised(g, at, i, k, v)
    ensures var p := Partly(at, k + 1);
            && |Seen(p, k)| == v
            && forall w :: 0 <= w < k && p[w].IsPage() ==> PageValue(p[w].prefix) < v + 1
  {
    var p := Partly(at, k + 1);
    UpToSecond(g, at, i, k, v);
    PrefixedHalfWay(g, at, k + 1);
    SeenOfRenamed(at, p, k + 1, k);
    forall w | 0 <= w < k && p[w].IsPage() ensures PageValue(p[w].prefix) < v + 1 {
      HalfWayPage(g, at, k + 1, w);
    }
  }

  /** There page l gets the number v + 1. */
  lemma NextNumberAgain(g: Folder, at: seq<Entry>, i: nat, k: nat, v: nat, l: nat)
    requires Poised(g, at, i, k, v) && k < l && PageOf(at, l, v + 1)
    ensures var q := Exchanged(Partly(at, k + 1), k, l); q[k] == at[l] && Number(q, k) == v + 1
  {
    var p := Partly(at, k + 1);
    var q := Exchanged(p, k, l);
    SeenAgain(g, at, i, k, v);
    SeenOfSame(p, q, k);
    assert PageOf(q, k, v + 1);
    FirstPageOf(q, k, v + 1);
  }

  /** That is the name of an entry listed later. */
  lemma TakesNextName(g: Folder, at: seq<Entry>, i: nat, k: nat, v: nat, l: nat)
    requires Poised(g, at, i, k, v) && k < l && PageOf(at, l, v + 1) && at[l].ext == at[k].ext
    ensures var q := Exchanged(Partly(at, k + 1), k, l); NewName(q, k) == q[l].name
  {
    SameNumberThen(g, at, i, k, v, l);
    NextNumberAgain(g, at, i, k, v, l);
  }

  lemma LaterNameTaken(g: Folder, es: seq<Entry>, k: nat, l: nat)
    requires ListingOf(g, es) && InPageOrder(es) && k < l < |es| && NewName(es, k) == es[l].name
    ensures !NeverReplaces(g)
  {
    assert NewNames(es)[k] == NamesOf(es)[l];
    NothingReplacedExactly(g, NamesOf(es), NewNames(es));
    if NeverReplaces(g) {
      OneTry(g, Try(es, |es|));
    }
  }

  lemma NextListed(g: Folder, at: seq<Entry>, n: nat)
    requires Listing(g, at) && n <= |at| && BelowRest(at, n) && NeverReplaces(g)
    ensures var p, g' := Partly(at, n), MoveUpTo(g, NamesOf(at), NewNames(at), n);
            NeverReplaces(g') && ListingOf(g', p) && InPageOrder(p)
  {
    TryListed(g, at, n);
    PartlyRises(g, at, n);
  }

  /** Pages k and l have one number, and with l listed before it takes the name of k. */
  ghost predicate TakesName(p: seq<Entry>, k: nat, l: nat) {
    && k < l < |p| && p[k].IsPage() && p[l].IsPage() && PageValue(p[k].prefix) == PageValue(p[l].prefix)
    && NewName(Exchanged(p, k, l), k) == p[k].name
  }

  lemma ExchangedLoses(g: Folder, p: seq<Entry>, k: nat, l: nat)
    requires ListingOf(g, p) && InPageOrder(p) && TakesName(p, k, l)
    ensures !NeverReplaces(g)
  {
    ExchangedIsListing(g, p, k, l);
    LaterNameTaken(g, Exchanged(p, k, l), k, l);
  }

  lemma NextLoses(g: Folder, at: seq<Entry>, n: nat, k: nat, l: nat)
    requires Listing(g, at) && n <= |at| && BelowRest(at, n) && TakesName(Partly(at, n), k, l)
    ensures !NeverReplaces(g)
  {
    if NeverReplaces(g) {
      NextListed(g, at, n);
      ExchangedLoses(MoveUpTo(g, NamesOf(at), NewNames(at), n), Partly(at, n), k, l);
    }
  }

  lemma LosesBehind(g: Folder, at: seq<Entry>, i: nat, k: nat, v: nat, l: nat)
    requires Poised(g, at, i, k, v) && PageOf(at, l, v + 1) && at[l].ext == at[k].ext
    ensures !NeverReplaces(g)
  {
    SameNumberThen(g, at, i, k, v, l);
    TakesNextName(g, at, i, k, v, l);
    NextBelowRest(g, at, i, k, v);
    NextLoses(g, at, k + 1, k, l);
  }

  lemma ExchangedPoised(g: Folder, at: seq<Entry>, i: nat, k: nat, v: nat)
    requires Poised(g, at, i, k, v)
    ensures Poised(g, Exchanged(at, i, k), i, k, v)
  {
    var q := Exchanged(at, i, k);
    ExchangedIsListing(g, at, i, k);
    LooseInBoth(g, at, q);
    SeenOfSame(at, q, i);
    var l: nat :| PageOf(at, l, v + 1);
    assert PageOf(q, l, v + 1);
  }

  lemma PoisedLoses(g: Folder, at: seq<Entry>, i: nat, k: nat, v: nat)
    requires Poised(g, at, i, k, v)
    ensures !NeverReplaces(g)
  {
    var l: nat :| PageOf(at, l, v + 1);
    assert Looked(at[i]) && Looked(at[k]) && Looked(at[l]);
    PageExtensions(at[i]);
    PageExtensions(at[k]);
    PageExtensions(at[l]);
    if at[l].ext == at[k].ext {
      LosesBehind(g, at, i, k, v, l);
    } else {
      ExchangedPoised(g, at, i, k, v);
      LosesBehind(g, Exchanged(at, i, k), i, k, v, l);
    }
  }

  lemma StuckLoses(f: Folder, es: seq<Entry>, v: nat)
    requires Listing(f, es) && FreeBelow(Kinds(es), v) && Stuck(Kinds(es), v)
    ensures !NeverReplaces(f)
  {
    if NeverReplaces(f) {
      Walk(f, es, v);
      var g, at, j :| At(es, g, at, j, v);
      var i, k := TwoPages(es, v);
      OnlySpelled(f, es, v, i, k);
      if es[i].prefix != es[k].prefix {
        PoisedTwo(es, g, at, j, v, i, k);
        PoisedLoses(g, at, i, k, v);
      } else {
        PoisedTorn(es, g, at, j, v, i, k);
        PoisedLoses(MoveUpTo(g, NamesOf(at), NewNames(at), i + 1), Partly(at, i + 1), i, k, v);
      }
    }
  }

  lemma {:induction false} FirstStuck(kinds: nat -> Kind, v: nat) returns (u: nat)
    requires Stuck(kinds, v)
    ensures Stuck(kinds, u) && FreeBelow(kinds, u)
  {
    if w: nat :| w < v && Stuck(kinds, w) {
      u := FirstStuck(kinds, w);
    } else {
      u := v;
    }
  }

  lemma LosslessNeverReplaces(f: Folder, es: seq<Entry>)
    requires ListingOf(f, es) && Lossless(es)
    ensures NeverReplaces(f)
  {
    forall ts | Tries(f, ts) ensures ReplacesNothing(f, ts) {
      LosslessTries(f, es, ts);
    }
  }

  /** Whatever tries fail, wherever they fail and however the directory is listed each time, no file is ever replaced:
      exactly when the walk over the first listing meets no pair in the way. */
  lemma TriesReplaceExactly(f: Folder, es: seq<Entry>)
    requires ListingOf(f, es) && InPageOrder(es) && Loose(es)
    ensures NeverReplaces(f) <==> Free(Kinds(es))
  {
    if Free(Kinds(es)) {
      LosslessNeverReplaces(f, es);
    } else {
      var v: nat :| Stuck(Kinds(es), v);
      var u := FirstStuck(Kinds(es), v);
      StuckLoses(f, es, u);
    }
  }

  // ---------------------------------------------------------------- a loss that takes more than one failure

  const TWO_PAIRS := [
    Entry("2.pdf", "2", ".pdf"), Entry("2.tif", "2", ".tif"),
    Entry("3.pdf", "3", ".pdf"), Entry("3.tif", "3", ".tif"), Entry("0004.tif", "0004", ".tif")]

  lemma TwoPairsLooked(i: nat)
    requires i < 5
    ensures Looked(TWO_PAIRS[i])
  {
    var e := TWO_PAIRS[i];
    assert e.name == e.prefix + e.ext;
    PageLooked(e.name, e.prefix, e.ext);
  }

  lemma TwoPairsLists(f: Folder)
    requires f.Keys == {"2.pdf", "2.tif", "3.pdf", "3.tif", "0004.tif"}
    ensures Lists(f, ["2.pdf", "2.tif", "3.pdf", "3.tif", "0004.tif"])
  {
    var names := ["2.pdf", "2.tif", "3.pdf", "3.tif", "0004.tif"];
    forall n <- f ensures Listed(names, n) {
      assert n == names[0] || n == names[1] || n == names[2] || n == names[3] || n == names[4];
    }
  }

  lemma TwoPairsListed(f: Folder)
    requires f.Keys == {"2.pdf", "2.tif", "3.pdf", "3.tif", "0004.tif"}
    ensures ListingOf(f, TWO_PAIRS)
  {
    TwoPairsLists(f);
    assert NamesOf(TWO_PAIRS) == ["2.pdf", "2.tif", "3.pdf", "3.tif", "0004.tif"];
    forall i | 0 <= i < |TWO_PAIRS| ensures Looked(TWO_PAIRS[i]) {
      TwoPairsLooked(i);
    }
  }

  lemma TwoToFour()
    ensures Pad(2, 4) == "0002" && Pad(3, 4) == "0003"
    ensures PageValue("2") == 2 && PageValue("3") == 3 && PageValue("0004") == 4
  {
    SmallNumeral(2, "2", "02", "002", "0002");
    SmallNumeral(3, "3", "03", "003", "0003");
    SmallNumeral(4, "4", "04", "004", "0004");
  }

  /** What the listing's files are. */
  lemma TwoPairsPage(i: nat)
    requires i < 5
    ensures var e := TWO_PAIRS[i];
            && e.IsPage() && PageValue(e.prefix) == 2 + i / 2
            && e.prefix == (if i < 2 then "2" else if i < 4 then "3" else "0004")
            && e.ext == if i % 2 == 0 && i < 4 then ".pdf" else ".tif"
  {
    TwoToFour();
  }

  lemma TwoPairsOrderly()
    ensures Orderly(TWO_PAIRS)
  {
    forall i, j | 0 <= i < j < 5
      ensures PageValue(TWO_PAIRS[i].prefix) <= PageValue(TWO_PAIRS[j].prefix) && PageValue(TWO_PAIRS[i].prefix) > 0
      ensures PageValue(TWO_PAIRS[i].prefix) == PageValue(TWO_PAIRS[j].prefix) ==>
                TWO_PAIRS[i].prefix == TWO_PAIRS[j].prefix && TWO_PAIRS[i].ext != TWO_PAIRS[j].ext
    {
      TwoPairsPage(i);
      TwoPairsPage(j);
    }
    TwoPairsPage(4);
  }

  lemma OrderlyIsLoose(es: seq<Entry>)
    requires Orderly(es)
    ensures Loose(es)
  {
  }

  lemma TwoPairsNumbers()
    ensures Number(TWO_PAIRS, 0) == 1 && Number(TWO_PAIRS, 2) == 2
  {
    TwoToFour();
    var es := TWO_PAIRS;
    assert Seen(es, 1) == ["2"];
    assert Seen(es, 2) == ["2"];
    FirstPageOf(es, 0, 2);
    FirstPageOf(es, 2, 3);
  }

  lemma NoCollision(i: nat, j: nat, m: nat, k: nat)
    ensures !Collides(TWO_PAIRS, i, j, m, k)
  {
    TwoToFour();
    TwoPairsNumbers();
    if Unsettled(TWO_PAIRS, i, j) {
      assert i == 0 || i == 2;
    }
  }

  lemma TwoPairsPagesOf(i: int, v: nat)
    ensures PageOf(TWO_PAIRS, i, v) <==> 0 <= i < 5 && v == 2 + i / 2
  {
    if 0 <= i < 5 {
      TwoPairsPage(i);
    }
  }

  lemma TwoPairsKind(v: nat)
    requires 1 <= v <= 4
    ensures KindAt(TWO_PAIRS, v) == if v == 1 then Nothing else if v == 4 then Single else Other
  {
    forall i ensures PageOf(TWO_PAIRS, i, v) <==> 0 <= i < 5 && v == 2 + i / 2 {
      TwoPairsPagesOf(i, v);
    }
    var first := 2 * (v - 2);
    if v > 1 {
      assert PageOf(TWO_PAIRS, first, v);
      TwoPairsPage(first);
      TwoToFour();
      assert v < 4 ==> PageOf(TWO_PAIRS, first + 1, v);
    }
  }

  lemma TwoPairsStuck()
    ensures Stuck(Kinds(TWO_PAIRS), 3)
  {
    var kinds := Kinds(TWO_PAIRS);
    TwoPairsKind(1);
    TwoPairsKind(2);
    TwoPairsKind(3);
    TwoPairsKind(4);
    assert Greatest(kinds, 1) == 1 && Greatest(kinds, 2) == 1 && Greatest(kinds, 3) == 3;
  }

  /** With two pairs the try after one failed try replaces nothing, but a try after more failed tries can. */
  lemma TwoFailuresCanReplaceAPage(f: Folder)
    requires f.Keys == {"2.pdf", "2.tif", "3.pdf", "3.tif", "0004.tif"}
    ensures ListingOf(f, TWO_PAIRS) && Orderly(TWO_PAIRS)
    ensures forall n: nat, again: seq<Entry> :: RetryReplacesNothing(f, TWO_PAIRS, n, again)
    ensures !NeverReplaces(f)
  {
    TwoPairsListed(f);
    TwoPairsOrderly();
    forall i, j, m, k ensures !Collides(TWO_PAIRS, i, j, m, k) {
      NoCollision(i, j, m, k);
    }
    RetryReplacesExactly(f, TWO_PAIRS);
    TwoPairsStuck();
    OrderlyIsLoose(TWO_PAIRS);
    TriesReplaceExactly(f, TWO_PAIRS);
  }
}
