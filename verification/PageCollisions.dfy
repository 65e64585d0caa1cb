/** When a try of renumbering that follows a failed try replaces a page (src/jobs/renumber_pages.go). */
module PageCollisions {
  import opened Decimal
  import opened FileMoves
  import opened Sequences
  import opened PageRenumbering

  /** Pages i and j are a pair with the right number in another spelling, so that a failure between the two makes every
      later number one greater; and page k, next in number after page m, has the name page m is given then. */
  ghost predicate Collides(es: seq<Entry>, i: nat, j: nat, m: nat, k: nat) {
    && Unsettled(es, i, j) && PageValue(es[i].prefix) == Number(es, i)
    && m < |es| && k < |es| && es[m].IsPage() && es[k].IsPage()
    && Number(es, i) <= Number(es, m) && Number(es, k) == Number(es, m) + 1
    && es[k].name == PageName(Number(es, k), es[m].ext)
  }

  /** If a try can meet the listing `again`, it replaces no file. */
  ghost predicate RetryReplacesNothing(f: Folder, es: seq<Entry>, n: nat, again: seq<Entry>) {
    Follows(f, es, n, again) ==>
      NoneClobber(MoveUpTo(f, NamesOf(es), NewNames(es), n), NamesOf(again), NewNames(again), |again|)
  }

  // ---------------------------------------------------------------- numbers in any listing in page order

  predicate Rising(s: seq<string>) {
    forall j, k :: 0 <= j < k < |s| ==> PageValue(s[j]) <= PageValue(s[k])
  }

  lemma {:induction false} SeenRises(es: seq<Entry>, n: nat)
    requires InPageOrder(es) && n <= |es|
    ensures Rising(Seen(es, n))
  {
    if n > 0 {
      SeenRises(es, n - 1);
      var s := Seen(es, n - 1);
      forall k | 0 <= k < |s| && es[n - 1].IsPage() ensures PageValue(s[k]) <= PageValue(es[n - 1].prefix) {
        var i := SeenIsAPage(es, n - 1, k);
        assert es[i].IsPage();
      }
    }
  }

  lemma RisingPlaces(s: seq<string>, k: nat, l: nat)
    requires Rising(s) && k < |s| && l < |s| && PageValue(s[k]) < PageValue(s[l])
    ensures k < l
  {
  }

  /** A smaller prefix has a smaller number. */
  lemma SmallerFirst(es: seq<Entry>, x: nat, y: nat)
    requires InPageOrder(es) && x < |es| && y < |es| && es[x].IsPage() && es[y].IsPage()
    requires PageValue(es[x].prefix) < PageValue(es[y].prefix)
    ensures Number(es, x) < Number(es, y)
  {
    SeenRises(es, |es|);
    RisingPlaces(Seen(es, |es|), Number(es, x) - 1, Number(es, y) - 1);
  }

  /** A prefix first seen at page y has a greater number than any page before. */
  lemma NewIsGreater(es: seq<Entry>, x: nat, y: nat)
    requires x < y < |es| && es[x].IsPage() && es[y].IsPage()
    requires forall w :: 0 <= w < y && es[w].IsPage() ==> es[w].prefix != es[y].prefix
    ensures Number(es, x) < Number(es, y)
  {
    var s := Seen(es, y);
    forall k | 0 <= k < |s| ensures s[k] != es[y].prefix {
      var w := SeenIsAPage(es, y, k);
    }
    NumberIsNext(es, y);
    NumberInSeen(es, x, y);
  }

  /** Smaller numbers belong to earlier pages with smaller prefixes. */
  lemma SmallerNumber(es: seq<Entry>, a: nat, b: nat)
    requires Orderly(es) && a < |es| && b < |es| && es[a].IsPage() && es[b].IsPage() && Number(es, a) < Number(es, b)
    ensures a < b && PageValue(es[a].prefix) < PageValue(es[b].prefix)
  {
    if PageValue(es[b].prefix) < PageValue(es[a].prefix) {
      NumberOrder(es, b, a);
    }
    SameNumberSamePrefix(es, a, b);
    assert a < b || b < a;
  }

  // ---------------------------------------------------------------- a torn pair

  /** A listing that the next try can meet after a failure between pages i and j. */
  ghost predicate TornListing(f: Folder, es: seq<Entry>, n: nat, again: seq<Entry>, i: nat, j: nat) {
    ListingOf(f, es) && Orderly(es) && Torn(es, n, i, j) && Follows(f, es, n, again)
  }

  /** What entry x of the listing was at first. */
  lemma Origin(f: Folder, es: seq<Entry>, n: nat, again: seq<Entry>, x: nat) returns (a: nat)
    requires ListingOf(f, es) && Orderly(es) && Follows(f, es, n, again) && x < |again|
    ensures a < |es| && again[x] == Partly(es, n)[a] && again[x].IsPage() == es[a].IsPage()
  {
    PartlyListed(f, es, n);
    a := FoundIn(MoveUpTo(f, NamesOf(es), NewNames(es), n), again, Partly(es, n), x);
    PartlyPage(f, es, n, a);
  }

  /** Where entry a is now. */
  lemma Place(f: Folder, es: seq<Entry>, n: nat, again: seq<Entry>, a: nat) returns (x: nat)
    requires ListingOf(f, es) && Orderly(es) && Follows(f, es, n, again) && a < |es|
    ensures x < |again| && again[x] == Partly(es, n)[a] && again[x].IsPage() == es[a].IsPage()
  {
    PartlyListed(f, es, n);
    x := FoundIn(MoveUpTo(f, NamesOf(es), NewNames(es), n), Partly(es, n), again, a);
    PartlyPage(f, es, n, a);
  }

  /** The only pages with the pair's number are the pair. */
  lemma OnlyThePair(f: Folder, es: seq<Entry>, i: nat, j: nat, a: nat)
    requires ListingOf(f, es) && Orderly(es) && Unsettled(es, i, j) && a < |es| && es[a].IsPage()
    requires Number(es, a) == Number(es, i) || es[a].prefix == es[i].prefix
    ensures a == i || a == j
  {
    SameNumberSamePrefix(es, a, i);
    AtMostTwo(f, es, i, j, a);
  }

  /** Half way, a page whose prefix is not greater than another's has a smaller number, or the two are the pair. */
  lemma HalfWayOrder(f: Folder, es: seq<Entry>, n: nat, i: nat, j: nat, a: nat, b: nat)
    requires ListingOf(f, es) && Orderly(es) && Torn(es, n, i, j)
    requires a < |es| && b < |es| && es[a].IsPage() && es[b].IsPage()
    requires Partly(es, n)[a].prefix != Partly(es, n)[b].prefix
    requires PageValue(Partly(es, n)[a].prefix) <= PageValue(Partly(es, n)[b].prefix)
    ensures Number(es, a) < Number(es, b) || Number(es, a) == Number(es, b) == Number(es, i)
  {
    PartlyPage(f, es, n, a);
    PartlyPage(f, es, n, b);
    SameNumberSamePrefix(es, a, b);
    SameNumberSamePrefix(es, a, i);
    if Number(es, b) < Number(es, a) {
      SmallerNumber(es, b, a);
      NumberAtMostValue(es, b);
    } else if Number(es, a) == Number(es, b) && es[a].prefix != es[i].prefix {
      TornElsewhere(es, n, i, j, a, b);
    }
  }

  /** A pair other than the torn one is on one side of the failure. */
  lemma TornElsewhere(es: seq<Entry>, n: nat, i: nat, j: nat, a: nat, b: nat)
    requires Orderly(es) && Torn(es, n, i, j) && a < |es| && b < |es| && es[a].IsPage() && es[b].IsPage()
    requires es[a].prefix == es[b].prefix != es[i].prefix
    ensures a < n <==> b < n
  {
    assert es[i].IsPage() && es[j].IsPage();
  }

  /** The pair has two prefixes, not three. */
  lemma NoThird(f: Folder, es: seq<Entry>, n: nat, i: nat, j: nat, a: nat, b: nat, c: nat)
    requires ListingOf(f, es) && Orderly(es) && Torn(es, n, i, j)
    requires a < |es| && b < |es| && c < |es| && es[a].IsPage() && es[b].IsPage() && es[c].IsPage()
    requires Number(es, a) == Number(es, b) == Number(es, c) == Number(es, i)
    ensures var p := Partly(es, n);
            p[a].prefix == p[b].prefix || p[b].prefix == p[c].prefix || p[a].prefix == p[c].prefix
  {
    OnlyThePair(f, es, i, j, a);
    OnlyThePair(f, es, i, j, b);
    OnlyThePair(f, es, i, j, c);
  }

  // ---------------------------------------------------------------- numbers after the tear

  /** The number a page with number `was` gets at most. */
  function AtMost(pair: nat, was: nat): nat {
    if was < pair then was else was + 1
  }

  /** The prefix of page a half way is the k-th that the next try sees. */
  predicate StandsAt(es: seq<Entry>, n: nat, again: seq<Entry>, k: nat, a: nat)
    requires n <= |es|
  {
    k < |Seen(again, |again|)| && a < |es| && es[a].IsPage() && Partly(es, n)[a].prefix == Seen(again, |again|)[k]
  }

  lemma Behind(f: Folder, es: seq<Entry>, n: nat, again: seq<Entry>, k: nat) returns (a: nat)
    requires ListingOf(f, es) && Orderly(es) && Follows(f, es, n, again) && k < |Seen(again, |again|)|
    ensures StandsAt(es, n, again, k, a)
  {
    var x := SeenIsAPage(again, |again|, k);
    a := Origin(f, es, n, again, x);
  }

  /** Of two neighbouring prefixes seen by the next try, the first stood for a smaller number, or the two are the
      pair's. */
  lemma Neighbours(f: Folder, es: seq<Entry>, n: nat, again: seq<Entry>, i: nat, j: nat, k: nat, a: nat, b: nat)
    requires TornListing(f, es, n, again, i, j) && StandsAt(es, n, again, k, a) && StandsAt(es, n, again, k + 1, b)
    ensures Number(es, a) < Number(es, b) || Number(es, a) == Number(es, b) == Number(es, i)
  {
    SeenRises(again, |again|);
    SeenFacts(again, |again|, |again|);
    HalfWayOrder(f, es, n, i, j, a, b);
  }

  /** Numbers that rise, except that one may come twice. */
  predicate RisingButOnce(r: seq<nat>, pair: nat) {
    && (forall k :: 0 <= k < |r| ==> 0 < r[k])
    && (forall k :: 0 <= k < |r| - 1 ==> r[k] < r[k + 1] || r[k] == r[k + 1] == pair)
    && (forall k :: 0 <= k < |r| - 2 ==> r[k] < r[k + 1] || r[k + 1] < r[k + 2])
  }

  lemma {:induction false} RiseAtMost(r: seq<nat>, pair: nat, k: nat)
    requires RisingButOnce(r, pair) && k < |r|
    ensures k + 1 <= AtMost(pair, r[k])
    ensures r[k] == pair && (k == 0 || r[k - 1] < r[k]) ==> k + 1 <= r[k]
  {
    if k > 0 {
      RiseAtMost(r, pair, k - 1);
      assert r[k - 1] < r[k] || r[k - 1] == r[k] == pair;
      assert k > 1 ==> r[k - 2] < r[k - 1] || r[k - 1] < r[k];
    }
  }

  /** The pages behind the first k prefixes that the next try sees. */
  lemma {:induction false} AllBehind(f: Folder, es: seq<Entry>, n: nat, again: seq<Entry>, k: nat)
    returns (pages: seq<nat>)
    requires ListingOf(f, es) && Orderly(es) && Follows(f, es, n, again) && k <= |Seen(again, |again|)|
    ensures |pages| == k && AllStand(es, n, again, pages)
  {
    pages := [];
    if k > 0 {
      pages := AllBehind(f, es, n, again, k - 1);
      var a := Behind(f, es, n, again, k - 1);
      pages := pages + [a];
    }
  }

  lemma NotThrice(f: Folder, es: seq<Entry>, n: nat, again: seq<Entry>, i: nat, j: nat, k: nat, a: nat, b: nat, c: nat)
    requires TornListing(f, es, n, again, i, j)
    requires StandsAt(es, n, again, k, a) && StandsAt(es, n, again, k + 1, b) && StandsAt(es, n, again, k + 2, c)
    ensures Number(es, a) < Number(es, b) || Number(es, b) < Number(es, c)
  {
    Neighbours(f, es, n, again, i, j, k, a, b);
    Neighbours(f, es, n, again, i, j, k + 1, b, c);
    SeenFacts(again, |again|, |again|);
    if Number(es, a) == Number(es, b) == Number(es, c) {
      NoThird(f, es, n, i, j, a, b, c);
    }
  }

  function Ranks(es: seq<Entry>, pages: seq<nat>): seq<nat> {
    seq(|pages|, l requires 0 <= l < |pages| =>
      var a := pages[l];
      if a < |es| && es[a].IsPage() then Number(es, a) else 0)
  }

  ghost predicate AllStand(es: seq<Entry>, n: nat, again: seq<Entry>, pages: seq<nat>)
    requires n <= |es|
  {
    forall l :: 0 <= l < |pages| ==> StandsAt(es, n, again, l, pages[l])
  }

  lemma RankStep(f: Folder, es: seq<Entry>, n: nat, again: seq<Entry>, i: nat, j: nat, pages: seq<nat>, l: nat)
    requires TornListing(f, es, n, again, i, j) && AllStand(es, n, again, pages) && l + 1 < |pages|
    ensures var r := Ranks(es, pages); r[l] < r[l + 1] || r[l] == r[l + 1] == Number(es, i)
  {
    assert StandsAt(es, n, again, l, pages[l]) && StandsAt(es, n, again, l + 1, pages[l + 1]);
    Neighbours(f, es, n, again, i, j, l, pages[l], pages[l + 1]);
  }

  lemma RankSteps(f: Folder, es: seq<Entry>, n: nat, again: seq<Entry>, i: nat, j: nat, pages: seq<nat>, l: nat)
    requires TornListing(f, es, n, again, i, j) && AllStand(es, n, again, pages) && l + 2 < |pages|
    ensures var r := Ranks(es, pages); r[l] < r[l + 1] || r[l + 1] < r[l + 2]
  {
    assert StandsAt(es, n, again, l, pages[l]) && StandsAt(es, n, again, l + 1, pages[l + 1]);
    assert StandsAt(es, n, again, l + 2, pages[l + 2]);
    NotThrice(f, es, n, again, i, j, l, pages[l], pages[l + 1], pages[l + 2]);
  }

  lemma RanksPositive(es: seq<Entry>, n: nat, again: seq<Entry>, pages: seq<nat>, l: nat)
    requires n <= |es| && AllStand(es, n, again, pages) && l < |pages|
    ensures 0 < Ranks(es, pages)[l]
  {
    assert StandsAt(es, n, again, l, pages[l]);
  }

  lemma RanksRise(f: Folder, es: seq<Entry>, n: nat, again: seq<Entry>, i: nat, j: nat, pages: seq<nat>)
    requires TornListing(f, es, n, again, i, j) && AllStand(es, n, again, pages)
    ensures RisingButOnce(Ranks(es, pages), Number(es, i))
  {
    forall l | 0 <= l < |pages| ensures 0 < Ranks(es, pages)[l] {
      RanksPositive(es, n, again, pages, l);
    }
    forall l | 0 <= l < |pages| - 1
      ensures Ranks(es, pages)[l] < Ranks(es, pages)[l + 1]
            || Ranks(es, pages)[l] == Ranks(es, pages)[l + 1] == Number(es, i)
    {
      RankStep(f, es, n, again, i, j, pages, l);
    }
    forall l | 0 <= l < |pages| - 2
      ensures Ranks(es, pages)[l] < Ranks(es, pages)[l + 1] || Ranks(es, pages)[l + 1] < Ranks(es, pages)[l + 2]
    {
      RankSteps(f, es, n, again, i, j, pages, l);
    }
  }

  lemma PlaceAtMost(f: Folder, es: seq<Entry>, n: nat, again: seq<Entry>, i: nat, j: nat, k: nat, a: nat)
    requires TornListing(f, es, n, again, i, j) && StandsAt(es, n, again, k, a)
    ensures k + 1 <= AtMost(Number(es, i), Number(es, a))
  {
    var before := AllBehind(f, es, n, again, k);
    var pages := before + [a];
    RanksRise(f, es, n, again, i, j, pages);
    RiseAtMost(Ranks(es, pages), Number(es, i), k);
  }

  /** After a tear no number is more than one greater, and none before the pair's is greater. */
  lemma NumberAtMost(f: Folder, es: seq<Entry>, n: nat, again: seq<Entry>, i: nat, j: nat, x: nat, a: nat)
    requires TornListing(f, es, n, again, i, j) && x < |again| && again[x].IsPage()
    requires a < |es| && again[x] == Partly(es, n)[a] && es[a].IsPage()
    ensures Number(again, x) <= AtMost(Number(es, i), Number(es, a))
  {
    PlaceAtMost(f, es, n, again, i, j, Number(again, x) - 1, a);
  }

  /** Smaller numbers have smaller prefixes half way, too. */
  lemma HalfWaySmaller(f: Folder, es: seq<Entry>, n: nat, a: nat, b: nat)
    requires ListingOf(f, es) && Orderly(es) && n <= |es| && a < |es| && b < |es| && es[a].IsPage() && es[b].IsPage()
    requires Number(es, a) < Number(es, b)
    ensures PageValue(Partly(es, n)[a].prefix) < PageValue(Partly(es, n)[b].prefix)
  {
    PartlyPage(f, es, n, a);
    PartlyPage(f, es, n, b);
    SmallerNumber(es, a, b);
    NumberAtMostValue(es, b);
  }

  /** No number gets smaller. */
  lemma {:induction false} NumberAtLeast(f: Folder, es: seq<Entry>, n: nat, again: seq<Entry>, x: nat, a: nat)
    requires ListingOf(f, es) && Orderly(es) && Follows(f, es, n, again) && x < |again| && again[x].IsPage()
    requires a < |es| && again[x] == Partly(es, n)[a] && es[a].IsPage()
    ensures Number(es, a) <= Number(again, x)
    decreases Number(es, a)
  {
    if Number(es, a) > 1 {
      var b := EveryNumberIsUsed(es, Number(es, a) - 1);
      var y := Place(f, es, n, again, b);
      NumberAtLeast(f, es, n, again, y, b);
      HalfWaySmaller(f, es, n, b, a);
      SmallerFirst(again, y, x);
    }
  }

  /** Entry x of the listing is page a. */
  predicate PageAt(es: seq<Entry>, n: nat, again: seq<Entry>, x: nat, a: nat)
    requires n <= |es|
  {
    x < |again| && again[x].IsPage() && a < |es| && es[a].IsPage() && again[x] == Partly(es, n)[a]
  }

  /** When page c, now entry z, gets the next number, every page after it does. */
  lemma {:induction false} NumberIsMore(f: Folder, es: seq<Entry>, n: nat, again: seq<Entry>, z: nat, c: nat, x: nat,
          a: nat)
    requires ListingOf(f, es) && Orderly(es) && Follows(f, es, n, again)
    requires PageAt(es, n, again, z, c) && Number(es, c) < Number(again, z)
    requires PageAt(es, n, again, x, a) && Number(es, c) < Number(es, a)
    ensures Number(es, a) < Number(again, x)
    decreases Number(es, a)
  {
    if Number(es, a) == Number(es, c) + 1 {
      HalfWaySmaller(f, es, n, c, a);
      SmallerFirst(again, z, x);
    } else {
      var b := EveryNumberIsUsed(es, Number(es, a) - 1);
      var y := Place(f, es, n, again, b);
      NumberIsMore(f, es, n, again, z, c, y, b);
      HalfWaySmaller(f, es, n, b, a);
      SmallerFirst(again, y, x);
    }
  }

  // ---------------------------------------------------------------- without a collision the new names are free

  /** Half way, two pages with one prefix have different extensions. */
  lemma HalfWayPair(f: Folder, es: seq<Entry>, n: nat, a: nat, b: nat)
    requires ListingOf(f, es) && Orderly(es) && n <= |es| && a < |es| && b < |es| && a != b
    requires es[a].IsPage() && es[b].IsPage() && Partly(es, n)[a].prefix == Partly(es, n)[b].prefix
    ensures es[a].ext != es[b].ext
  {
    PartlyPage(f, es, n, a);
    PartlyPage(f, es, n, b);
    SameNumberSamePrefix(es, a, b);
    if a < n <= b || b < n <= a {
      NumberAtMostValue(es, if a < b then a else b);
    }
    assert PageValue(es[a].prefix) == PageValue(es[b].prefix);
  }

  lemma TargetsDiffer(g: Folder, again: seq<Entry>, x: nat, y: nat)
    requires ListingOf(g, again) && x < y < |again|
    requires again[x].IsPage() && again[y].IsPage() && again[x].prefix == again[y].prefix ==>
          again[x].ext != again[y].ext
    ensures NewName(again, x) != NewName(again, y)
  {
    ResultLooked(g, again, x);
    ResultLooked(g, again, y);
    assert NamesOf(again)[x] != NamesOf(again)[y];
    if again[x].IsPage() && again[y].IsPage() {
      SameNumberSamePrefix(again, x, y);
    }
    assert Result(again, x) != Result(again, y);
    NameTellsEntry(Result(again, x), Result(again, y));
  }

  /** A page's new name is another page's. */
  lemma TakenName(g: Folder, again: seq<Entry>, x: nat, y: nat)
    requires ListingOf(g, again) && x < |again| && y < |again| && again[x].IsPage()
          && NewName(again, x) == again[y].name
    ensures again[y] == Result(again, x) && again[y].IsPage() && PageValue(again[y].prefix) == Number(again, x)
  {
    ResultLooked(g, again, x);
    assert Looked(again[y]);
    NameTellsEntry(Result(again, x), again[y]);
  }

  /** A page that keeps its number does not take the name of a page listed later. */
  lemma KeptNumberIsFree(f: Folder, es: seq<Entry>, n: nat, i: nat, j: nat, a: nat, b: nat)
    requires ListingOf(f, es) && Orderly(es) && Torn(es, n, i, j)
    requires a < |es| && b < |es| && a != b && es[a].IsPage() && es[b].IsPage() && es[a].ext == es[b].ext
    requires PageValue(Partly(es, n)[a].prefix) <= PageValue(Partly(es, n)[b].prefix)
    ensures PageValue(Partly(es, n)[b].prefix) != Number(es, a)
  {
    PartlyPage(f, es, n, a);
    NumberAtMostValue(es, a);
    if Partly(es, n)[a].prefix == Partly(es, n)[b].prefix {
      HalfWayPair(f, es, n, a, b);
    } else if PageValue(Partly(es, n)[b].prefix) == Number(es, a) {
      HalfWayOrder(f, es, n, i, j, a, b);
      HalfWayOrder(f, es, n, i, j, b, a);
      OnlyThePair(f, es, i, j, a);
      OnlyThePair(f, es, i, j, b);
      assert false;
    }
  }

  /** A page that takes a later name after all makes a collision. */
  lemma GreaterNumberCollides(f: Folder, es: seq<Entry>, n: nat, i: nat, j: nat, a: nat, b: nat)
    requires ListingOf(f, es) && Orderly(es) && Torn(es, n, i, j)
    requires a < |es| && b < |es| && a != b && es[a].IsPage() && es[b].IsPage() && es[a].ext == es[b].ext
    requires PageValue(Partly(es, n)[a].prefix) <= PageValue(Partly(es, n)[b].prefix) == Number(es, a) + 1
    requires Number(es, i) <= Number(es, a) && Partly(es, n)[b].name == PageName(Number(es, a) + 1, es[a].ext)
    ensures Collides(es, i, j, a, b)
  {
    PartlyPage(f, es, n, b);
    SameNumberSamePrefix(es, i, j);
    if Partly(es, n)[a].prefix == Partly(es, n)[b].prefix {
      HalfWayPair(f, es, n, a, b);
    }
    HalfWayOrder(f, es, n, i, j, a, b);
    if Number(es, j) < Number(es, b) {
      SmallerNumber(es, j, b);
    } else {
      OnlyThePair(f, es, i, j, b);
    }
    NumberAtMostValue(es, b);
  }

  /** So a later name is taken only in a collision. */
  lemma TakenMeansCollision(f: Folder, es: seq<Entry>, n: nat, again: seq<Entry>, i: nat, j: nat, x: nat, y: nat)
    requires TornListing(f, es, n, again, i, j) && x < y < |again| && again[x].IsPage()
    requires NewName(again, x) == again[y].name
    ensures exists m, k :: Collides(es, i, j, m, k)
  {
    var g := MoveUpTo(f, NamesOf(es), NewNames(es), n);
    TakenName(g, again, x, y);
    var a := Origin(f, es, n, again, x);
    var b := Origin(f, es, n, again, y);
    assert NamesOf(again)[x] != NamesOf(again)[y];
    PartlyPage(f, es, n, a);
    PartlyPage(f, es, n, b);
    NumberAtLeast(f, es, n, again, x, a);
    NumberAtMost(f, es, n, again, i, j, x, a);
    KeptNumberIsFree(f, es, n, i, j, a, b);
    GreaterNumberCollides(f, es, n, i, j, a, b);
  }

  lemma NewNameIsFree(f: Folder, es: seq<Entry>, n: nat, again: seq<Entry>, i: nat, j: nat, x: nat, y: nat)
    requires TornListing(f, es, n, again, i, j) && x < y < |again| && !(exists m, k :: Collides(es, i, j, m, k))
    ensures NewName(again, x) != NewName(again, y) && NewName(again, x) != again[y].name
  {
    var g := MoveUpTo(f, NamesOf(es), NewNames(es), n);
    assert NamesOf(again)[x] != NamesOf(again)[y];
    var a := Origin(f, es, n, again, x);
    var b := Origin(f, es, n, again, y);
    PartlyPage(f, es, n, a);
    PartlyPage(f, es, n, b);
    if again[x].IsPage() && again[y].IsPage() && again[x].prefix == again[y].prefix {
      HalfWayPair(f, es, n, a, b);
    }
    TargetsDiffer(g, again, x, y);
    if again[x].IsPage() && NewName(again, x) == again[y].name {
      TakenMeansCollision(f, es, n, again, i, j, x, y);
    }
  }

  /** A try after a tear replaces nothing, if there is no collision. */
  lemma TornRetryReplacesNothing(f: Folder, es: seq<Entry>, n: nat, again: seq<Entry>, i: nat, j: nat)
    requires TornListing(f, es, n, again, i, j) && !(exists m, k :: Collides(es, i, j, m, k))
    ensures RetryReplacesNothing(f, es, n, again)
  {
    forall x, y | 0 <= x < y < |again|
      ensures NewName(again, x) != NewName(again, y) && NewName(again, x) != again[y].name
    {
      NewNameIsFree(f, es, n, again, i, j, x, y);
    }
    FreeNeverClobbers(MoveUpTo(f, NamesOf(es), NewNames(es), n), NamesOf(again), NewNames(again), |again|);
  }

  /** Nor does a try after any other failure. */
  lemma UntornRetryReplacesNothing(f: Folder, es: seq<Entry>, n: nat, again: seq<Entry>)
    requires ListingOf(f, es) && Orderly(es) && Follows(f, es, n, again) && Untorn(es, n)
    ensures RetryReplacesNothing(f, es, n, again)
  {
    var g := MoveUpTo(f, NamesOf(es), NewNames(es), n);
    PartlyIsConsistent(f, es, n);
    PartlyListed(f, es, n);
    ConsistentInBoth(g, Partly(es, n), again);
    OrderlyRunLosesNothing(g, again, |again|);
  }

  // ---------------------------------------------------------------- a collision replaces a page

  /** The listing with entries i and j exchanged. */
  function Exchanged(p: seq<Entry>, i: nat, j: nat): seq<Entry>
    requires i < j < |p|
  {
    p[i := p[j]][j := p[i]]
  }

  /** Where entry a of the exchanged listing was. */
  function Other(i: nat, j: nat, a: nat): nat {
    if a == i then j else if a == j then i else a
  }

  lemma ExchangedLists(g: Folder, p: seq<Entry>, i: nat, j: nat)
    requires Lists(g, NamesOf(p)) && i < j < |p|
    ensures Lists(g, NamesOf(Exchanged(p, i, j)))
  {
    var names, after := NamesOf(p), NamesOf(Exchanged(p, i, j));
    forall a | 0 <= a < |after| ensures after[a] == names[Other(i, j, a)] {
    }
    forall x: string | x in g ensures Listed(after, x) {
      assert Listed(names, x);
      var a :| 0 <= a < |names| && names[a] == x;
      assert after[Other(i, j, a)] == x;
    }
    forall a, b | 0 <= a < b < |after| ensures after[a] != after[b] {
      assert names[Other(i, j, a)] != names[Other(i, j, b)];
    }
  }

  lemma ExchangedIsListing(g: Folder, p: seq<Entry>, i: nat, j: nat)
    requires ListingOf(g, p) && InPageOrder(p) && i < j < |p| && p[i].IsPage() && p[j].IsPage()
    requires PageValue(p[i].prefix) == PageValue(p[j].prefix)
    ensures ListingOf(g, Exchanged(p, i, j)) && InPageOrder(Exchanged(p, i, j))
  {
    var q := Exchanged(p, i, j);
    ExchangedLists(g, p, i, j);
    forall a | 0 <= a < |q|
      ensures q[a].IsPage() == p[a].IsPage() && PageValue(q[a].prefix) == PageValue(p[a].prefix)
      ensures Looked(q[a])
    {
      assert Looked(p[Other(i, j, a)]);
    }
  }

  /** Pages other than the pair have other numbers half way. */
  lemma OthersDiffer(f: Folder, es: seq<Entry>, i: nat, j: nat, w: nat)
    requires ListingOf(f, es) && Orderly(es) && Torn(es, i + 1, i, j) && w < |es| && w != i && w != j && es[w].IsPage()
    ensures PageValue(Partly(es, i + 1)[w].prefix) != PageValue(es[i].prefix)
  {
    PartlyPage(f, es, i + 1, w);
    if Number(es, w) == Number(es, i) || es[w].prefix == es[i].prefix {
      OnlyThePair(f, es, i, j, w);
    }
  }

  /** Half way the pair has two prefixes for one number, which no other page has. */
  lemma PairHalfWay(f: Folder, es: seq<Entry>, i: nat, j: nat)
    requires ListingOf(f, es) && Orderly(es) && Torn(es, i + 1, i, j)
    ensures Pair(Partly(es, i + 1), i, j, Number(es, i))
  {
    var p := Partly(es, i + 1);
    PartlyPage(f, es, i + 1, i);
    PartlyPage(f, es, i + 1, j);
    SameNumberSamePrefix(es, i, j);
    forall w | 0 <= w < |p| && w != i && w != j && p[w].IsPage() ensures PageValue(p[w].prefix) != Number(es, i) {
      PartlyPage(f, es, i + 1, w);
      OthersDiffer(f, es, i, j, w);
    }
  }

  ghost predicate Pair(p: seq<Entry>, i: nat, j: nat, number: nat) {
    && i < j < |p| && p[i].IsPage() && p[j].IsPage() && p[i].prefix != p[j].prefix
    && PageValue(p[i].prefix) == PageValue(p[j].prefix) == number
    && forall w :: 0 <= w < |p| && w != i && w != j && p[w].IsPage() ==> PageValue(p[w].prefix) != number
  }

  lemma SecondIsGreater(p: seq<Entry>, i: nat, j: nat, number: nat)
    requires Pair(p, i, j, number)
    ensures Number(p, i) < Number(p, j)
  {
    forall w | 0 <= w < j && p[w].IsPage() ensures p[w].prefix != p[j].prefix {
    }
    NewIsGreater(p, i, j);
  }

  /** In the pair's order the second page gets the next number; exchanged, the first. */
  lemma SecondGetsNext(f: Folder, es: seq<Entry>, i: nat, j: nat)
    requires ListingOf(f, es) && Orderly(es) && Torn(es, i + 1, i, j)
    ensures Partly(es, i + 1)[j].IsPage() && Number(es, i) == Number(es, j) < Number(Partly(es, i + 1), j)
  {
    SameNumberSamePrefix(es, i, j);
    PairHalfWay(f, es, i, j);
    SecondIsGreater(Partly(es, i + 1), i, j, Number(es, i));
    PartlyFollows(f, es, i + 1);
    NumberAtLeast(f, es, i + 1, Partly(es, i + 1), i, i);
  }

  lemma ExchangedPair(p: seq<Entry>, i: nat, j: nat, number: nat)
    requires Pair(p, i, j, number)
    ensures Pair(Exchanged(p, i, j), i, j, number)
  {
  }

  lemma ExchangedFollows(f: Folder, es: seq<Entry>, i: nat, j: nat)
    requires ListingOf(f, es) && Orderly(es) && Torn(es, i + 1, i, j)
    ensures Follows(f, es, i + 1, Exchanged(Partly(es, i + 1), i, j))
    ensures Pair(Exchanged(Partly(es, i + 1), i, j), i, j, Number(es, i))
  {
    PartlyFollows(f, es, i + 1);
    PairHalfWay(f, es, i, j);
    ExchangedPair(Partly(es, i + 1), i, j, Number(es, i));
    ExchangedIsListing(MoveUpTo(f, NamesOf(es), NewNames(es), i + 1), Partly(es, i + 1), i, j);
  }

  lemma FirstGetsNext(f: Folder, es: seq<Entry>, i: nat, j: nat)
    requires ListingOf(f, es) && Orderly(es) && Torn(es, i + 1, i, j)
    ensures var q := Exchanged(Partly(es, i + 1), i, j); q[j].IsPage() && Number(es, i) < Number(q, j)
  {
    var q := Exchanged(Partly(es, i + 1), i, j);
    ExchangedFollows(f, es, i, j);
    SecondIsGreater(q, i, j, Number(es, i));
    SameNumberSamePrefix(es, i, j);
    NumberAtLeast(f, es, i + 1, q, i, j);
  }

  lemma StaysAt(f: Folder, es: seq<Entry>, n: nat, a: nat)
    requires ListingOf(f, es) && Orderly(es) && n <= |es| && a < |es| && es[a].IsPage()
    ensures PageAt(es, n, Partly(es, n), a, a)
  {
    PartlyPage(f, es, n, a);
  }

  /** Every page after the pair gets the next number. */
  lemma LaterGetsNext(f: Folder, es: seq<Entry>, i: nat, j: nat, m: nat)
    requires ListingOf(f, es) && Orderly(es) && Torn(es, i + 1, i, j)
    requires m < |es| && es[m].IsPage() && Number(es, i) < Number(es, m)
    ensures Partly(es, i + 1)[m].IsPage() && Number(es, m) < Number(Partly(es, i + 1), m)
  {
    PartlyFollows(f, es, i + 1);
    SecondGetsNext(f, es, i, j);
    StaysAt(f, es, i + 1, j);
    StaysAt(f, es, i + 1, m);
    NumberIsMore(f, es, i + 1, Partly(es, i + 1), j, j, m, m);
  }

  /** A try that gives a page the name of a later entry replaces a file. */
  lemma LaterNameReplaces(f: Folder, es: seq<Entry>, n: nat, again: seq<Entry>, x: nat, k: nat)
    requires Follows(f, es, n, again) && x < k < |again| && NewName(again, x) == again[k].name
    ensures !RetryReplacesNothing(f, es, n, again)
  {
    var g := MoveUpTo(f, NamesOf(es), NewNames(es), n);
    assert NewNames(again)[x] == NamesOf(again)[k];
    NothingReplacedExactly(g, NamesOf(again), NewNames(again));
  }

  /** Page m, now entry x, gets the next number. */
  lemma NextNumber(f: Folder, es: seq<Entry>, i: nat, j: nat, again: seq<Entry>, x: nat, m: nat)
    requires TornListing(f, es, i + 1, again, i, j) && m < |es| && es[m].IsPage() && Number(es, i) <= Number(es, m)
    requires x < |again| && again[x].IsPage() && again[x] == Partly(es, i + 1)[m] && Number(es, m) < Number(again, x)
    ensures Number(again, x) == Number(es, m) + 1 && again[x].ext == es[m].ext
  {
    NumberAtMost(f, es, i + 1, again, i, j, x, m);
    PartlyPage(f, es, i + 1, m);
  }

  /** So it gets the name of page k. */
  lemma NextName(es: seq<Entry>, i: nat, j: nat, again: seq<Entry>, x: nat, m: nat, k: nat)
    requires Collides(es, i, j, m, k) && x < |again| && again[x].IsPage()
    requires Number(again, x) == Number(es, m) + 1 && again[x].ext == es[m].ext
    ensures NewName(again, x) == es[k].name
  {
  }

  lemma AfterThePair(f: Folder, es: seq<Entry>, i: nat, j: nat, a: nat)
    requires ListingOf(f, es) && Orderly(es) && Torn(es, i + 1, i, j) && a < |es| && es[a].IsPage()
          && Number(es, i) < Number(es, a)
    ensures j < a && Partly(es, i + 1)[a] == es[a]
  {
    SameNumberSamePrefix(es, i, j);
    SmallerNumber(es, j, a);
  }

  lemma CollisionWithFirst(f: Folder, es: seq<Entry>, i: nat, j: nat, k: nat)
    requires ListingOf(f, es) && Orderly(es) && Collides(es, i, j, i, k)
    ensures i < j < |Partly(es, i + 1)| && !RetryReplacesNothing(f, es, i + 1, Exchanged(Partly(es, i + 1), i, j))
  {
    var q := Exchanged(Partly(es, i + 1), i, j);
    ExchangedFollows(f, es, i, j);
    FirstGetsNext(f, es, i, j);
    AfterThePair(f, es, i, j, k);
    NextNumber(f, es, i, j, q, j, i);
    NextName(es, i, j, q, j, i, k);
    LaterNameReplaces(f, es, i + 1, q, j, k);
  }

  /** Page m, with a greater number, takes the name of page k. */
  lemma MovesUp(f: Folder, es: seq<Entry>, i: nat, j: nat, m: nat, k: nat)
    requires ListingOf(f, es) && Orderly(es) && Collides(es, i, j, m, k) && m < k && Partly(es, i + 1)[k] == es[k]
    requires Partly(es, i + 1)[m].IsPage() && Number(es, m) < Number(Partly(es, i + 1), m)
    ensures !RetryReplacesNothing(f, es, i + 1, Partly(es, i + 1))
  {
    PartlyFollows(f, es, i + 1);
    NextNumber(f, es, i, j, Partly(es, i + 1), m, m);
    NextName(es, i, j, Partly(es, i + 1), m, m, k);
    LaterNameReplaces(f, es, i + 1, Partly(es, i + 1), m, k);
  }

  lemma CollisionWithSecond(f: Folder, es: seq<Entry>, i: nat, j: nat, k: nat)
    requires ListingOf(f, es) && Orderly(es) && Collides(es, i, j, j, k)
    ensures !RetryReplacesNothing(f, es, i + 1, Partly(es, i + 1))
  {
    SecondGetsNext(f, es, i, j);
    AfterThePair(f, es, i, j, k);
    MovesUp(f, es, i, j, j, k);
  }

  lemma CollisionBehind(f: Folder, es: seq<Entry>, i: nat, j: nat, m: nat, k: nat)
    requires ListingOf(f, es) && Orderly(es) && Collides(es, i, j, m, k) && Number(es, i) < Number(es, m)
    ensures !RetryReplacesNothing(f, es, i + 1, Partly(es, i + 1))
  {
    LaterGetsNext(f, es, i, j, m);
    AfterThePair(f, es, i, j, k);
    SmallerNumber(es, m, k);
    MovesUp(f, es, i, j, m, k);
  }

  /** Wherever the first try fails and however the directory is listed then, the next try replaces no file: exactly when
      there is no collision in the first listing. */
  lemma RetryReplacesExactly(f: Folder, es: seq<Entry>)
    requires ListingOf(f, es) && Orderly(es)
    ensures (forall n: nat, again: seq<Entry> :: RetryReplacesNothing(f, es, n, again))
       <==> !(exists i, j, m, k :: Collides(es, i, j, m, k))
  {
    if i, j, m, k :| Collides(es, i, j, m, k) {
      if m == i {
        CollisionWithFirst(f, es, i, j, k);
      } else if Number(es, i) < Number(es, m) {
        CollisionBehind(f, es, i, j, m, k);
      } else {
        OnlyThePair(f, es, i, j, m);
        CollisionWithSecond(f, es, i, j, k);
      }
    } else {
      forall n: nat, again: seq<Entry> ensures RetryReplacesNothing(f, es, n, again) {
        if Follows(f, es, n, again) {
          if i, j :| Torn(es, n, i, j) {
            TornRetryReplacesNothing(f, es, n, again, i, j);
          } else {
            UntornRetryReplacesNothing(f, es, n, again);
          }
        }
      }
    }
  }
}
