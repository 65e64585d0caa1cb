/** Checking that a scanned issue has a TIFF for every PDF (verifyScanIssuePDFTIFFPairs in src/issuefinder/scans.go). */
module PairCheck {
  import opened FileTree
  import opened Sorting
  import opened Text

  /** The text before the first dot. */
  function FirstPart(name: string): string {
    if name == "" || name[0] == '.' then "" else [name[0]] + FirstPart(name[1..])
  }

  function FirstParts(names: seq<string>): seq<string> {
    seq(|names|, k requires 0 <= k < |names| => FirstPart(names[k]))
  }

  predicate IsPDF(name: string) {
    Lower(Ext(name)) == ".pdf"
  }

  predicate IsTIFF(name: string) {
    Lower(Ext(name)) == ".tif" || Lower(Ext(name)) == ".tiff"
  }

  function Select(names: seq<string>, p: string -> bool): seq<string> {
    if names == [] then []
    else Select(names[..|names| - 1], p) + if p(names[|names| - 1]) then [names[|names| - 1]] else []
  }

  datatype Outcome = Accepted | NoTIFF | CountsDiffer | PairDiffers(index: nat)

  /** `names` is the directory's listing. */
  method VerifyPairs(names: seq<string>) returns (r: Outcome, ghost pdfs: seq<string>, ghost tiffs: seq<string>)
    ensures Sorted(Select(names, IsPDF), pdfs) && Sorted(Select(names, IsTIFF), tiffs)
    ensures r == Verdict(pdfs, tiffs)
  {
    var pdfFiles, tiffFiles: seq<string> := [], [];
    for k := 0 to |names|
      invariant pdfFiles == Select(names[..k], IsPDF) && tiffFiles == Select(names[..k], IsTIFF)
    {
      assert names[..k + 1][..k] == names[..k];
      var ext := Lower(Ext(names[k]));
      if ext == ".pdf" {
        pdfFiles := pdfFiles + [names[k]];
      } else if ext == ".tif" || ext == ".tiff" {
        tiffFiles := tiffFiles + [names[k]];
      }
    }
    assert names[..|names|] == names;
    StringLeOrders(tiffFiles);
    StringLeOrders(pdfFiles);
    var tiffList := SortBy(tiffFiles, StringLe);
    var pdfList := SortBy(pdfFiles, StringLe);
    pdfs, tiffs := pdfList, tiffList;
    SameLength(pdfFiles, pdfList);
    SameLength(tiffFiles, tiffList);
    if |tiffFiles| == 0 {
      r := NoTIFF;
      return;
    }
    if |tiffFiles| != |pdfFiles| {
      r := CountsDiffer;
      return;
    }
    for k := 0 to |pdfList|
      invariant FirstMismatch(pdfs, tiffs) >= k
    {
      MismatchFrom(pdfs, tiffs, k);
      if FirstPart(pdfList[k]) != FirstPart(tiffList[k]) {
        r := PairDiffers(k);
        return;
      }
    }
    r := Accepted;
  }

  ghost predicate Sorted(list: seq<string>, sorted: seq<string>) {
    SortedBy(sorted, StringLe) && multiset(sorted) == multiset(list)
  }

  lemma SameLength(a: seq<string>, b: seq<string>)
    requires multiset(a) == multiset(b)
    ensures |a| == |b|
  {
    assert |multiset(a)| == |a| && |multiset(b)| == |b|;
  }

  lemma StringLeOrders(list: seq<string>)
    ensures Orders(list, StringLe)
  {
    forall a: string, b: string ensures StringLe(a, b) || StringLe(b, a) {
      StringLeTotal(a, b);
    }
    forall a: string, b: string, c: string | StringLe(a, b) && StringLe(b, c) ensures StringLe(a, c) {
      StringLeTransitive(a, b, c);
    }
  }

  /** The first place where the two lists' names differ before the dot. */
  function FirstMismatch(pdfs: seq<string>, tiffs: seq<string>): nat
    requires |pdfs| == |tiffs|
  {
    if pdfs == [] || FirstPart(pdfs[0]) != FirstPart(tiffs[0]) then 0 else FirstMismatch(pdfs[1..], tiffs[1..]) + 1
  }

  lemma {:induction false} MismatchFrom(pdfs: seq<string>, tiffs: seq<string>, k: nat)
    requires |pdfs| == |tiffs| && k < |pdfs| && k <= FirstMismatch(pdfs, tiffs)
    ensures FirstMismatch(pdfs, tiffs) == k <==> FirstPart(pdfs[k]) != FirstPart(tiffs[k])
  {
    if k > 0 {
      MismatchFrom(pdfs[1..], tiffs[1..], k - 1);
    }
  }

  function Verdict(pdfs: seq<string>, tiffs: seq<string>): Outcome {
    if tiffs == [] then NoTIFF
    else if |tiffs| != |pdfs| then CountsDiffer
    else if FirstMismatch(pdfs, tiffs) < |pdfs| then PairDiffers(FirstMismatch(pdfs, tiffs))
    else Accepted
  }

  lemma {:induction false} NoMismatch(pdfs: seq<string>, tiffs: seq<string>)
    requires |pdfs| == |tiffs|
    ensures FirstMismatch(pdfs, tiffs) <= |pdfs|
    ensures FirstMismatch(pdfs, tiffs) == |pdfs| <==> FirstParts(pdfs) == FirstParts(tiffs)
  {
    var p, t := FirstParts(pdfs), FirstParts(tiffs);
    if pdfs != [] {
      NoMismatch(pdfs[1..], tiffs[1..]);
      assert p == [p[0]] + FirstParts(pdfs[1..]) && t == [t[0]] + FirstParts(tiffs[1..]);
      assert p == t ==> p[0] == t[0] && p[1..] == t[1..];
    }
  }

  // ---------------------------------------------------------------- the check is exact

  /** The name has a dot. */
  predicate Dotted(name: string) {
    |FirstPart(name)| < |name|
  }

  /** The order in which base names are sorted: as if a dot followed. */
  predicate BaseLe(a: string, b: string) {
    StringLe(a + ".", b + ".")
  }

  lemma {:induction false} FirstPartSplits(name: string)
    ensures |FirstPart(name)| <= |name| && FirstPart(name) == name[..|FirstPart(name)|] && '.' !in FirstPart(name)
    ensures |FirstPart(name)| < |name| ==> name[|FirstPart(name)|] == '.'
  {
    if name != "" && name[0] != '.' {
      FirstPartSplits(name[1..]);
    }
  }

  /** What follows the first dot does not decide between different base names. */
  lemma {:induction false} DotDecides(p: string, s: string, q: string, t: string)
    requires '.' !in p && '.' !in q && StringLe(p + "." + s, q + "." + t)
    ensures StringLe(p + ".", q + ".")
    decreases |p|
  {
    var x, y := p + "." + s, q + "." + t;
    if p != "" && q != "" && p[0] == q[0] {
      assert x[1..] == p[1..] + "." + s && y[1..] == q[1..] + "." + t;
      assert (p + ".")[1..] == p[1..] + "." && (q + ".")[1..] == q[1..] + ".";
      DotDecides(p[1..], s, q[1..], t);
    } else if p == "" && q == "" {
      StringLeTotal(".", ".");
      assert p + "." == "." && q + "." == ".";
    } else {
      assert x[0] == (p + ".")[0] && y[0] == (q + ".")[0];
      assert x[0] != y[0];
    }
  }

  lemma SplitAtDot(x: string)
    requires Dotted(x)
    ensures x == FirstPart(x) + "." + x[|FirstPart(x)| + 1..] && '.' !in FirstPart(x)
  {
    FirstPartSplits(x);
  }

  lemma NamesInBaseOrder(x: string, y: string)
    requires Dotted(x) && Dotted(y) && StringLe(x, y)
    ensures BaseLe(FirstPart(x), FirstPart(y))
  {
    SplitAtDot(x);
    SplitAtDot(y);
    DotDecides(FirstPart(x), x[|FirstPart(x)| + 1..], FirstPart(y), y[|FirstPart(y)| + 1..]);
  }

  predicate AllDotted(names: seq<string>) {
    forall k :: 0 <= k < |names| ==> Dotted(names[k])
  }

  lemma BasesSorted(names: seq<string>)
    requires AllDotted(names) && SortedBy(names, StringLe)
    ensures SortedBy(FirstParts(names), BaseLe)
  {
    forall i, j | 0 <= i < j < |names| ensures BaseLe(FirstParts(names)[i], FirstParts(names)[j]) {
      NamesInBaseOrder(names[i], names[j]);
    }
  }

  lemma BaseLeAntisymmetric(a: string, b: string)
    requires BaseLe(a, b) && BaseLe(b, a)
    ensures a == b
  {
    StringLeTotal(a + ".", b + ".");
    assert a == (a + ".")[..|a + "."| - 1] && b == (b + ".")[..|b + "."| - 1];
  }

  /** The check accepts exactly when there is a TIFF and PDFs and TIFFs have the same first parts, each as often. */
  lemma PairCheckExact(pdfs: seq<string>, tiffs: seq<string>)
    requires SortedBy(pdfs, StringLe) && SortedBy(tiffs, StringLe) && AllDotted(pdfs) && AllDotted(tiffs)
    ensures Verdict(pdfs, tiffs).Accepted? <==> tiffs != [] && multiset(FirstParts(pdfs)) == multiset(FirstParts(tiffs))
  {
    var p, t := FirstParts(pdfs), FirstParts(tiffs);
    assert |multiset(p)| == |pdfs| && |multiset(t)| == |tiffs|;
    if |pdfs| == |tiffs| {
      NoMismatch(pdfs, tiffs);
    }
    if multiset(p) == multiset(t) {
      BasesSorted(pdfs);
      BasesSorted(tiffs);
      forall x, y | x in p && y in p && BaseLe(x, y) && BaseLe(y, x) ensures x == y {
        BaseLeAntisymmetric(x, y);
      }
      SortedIsOne(p, t, BaseLe);
    }
  }

  lemma WithoutOne(a: seq<string>, b: seq<string>, k: nat)
    requires multiset(a) == multiset(b) && a != [] && k < |b| && b[k] == a[0]
    ensures multiset(a[1..]) == multiset(b[..k] + b[k + 1..])
  {
    assert a == [a[0]] + a[1..] && b == b[..k] + [b[k]] + b[k + 1..];
    assert multiset(a) == multiset{a[0]} + multiset(a[1..]);
    assert multiset(b) == multiset{a[0]} + multiset(b[..k] + b[k + 1..]);
    assert multiset(a[1..]) == multiset(a) - multiset{a[0]};
    assert multiset(b[..k] + b[k + 1..]) == multiset(b) - multiset{a[0]};
  }

  lemma PartsOfFirst(a: seq<string>)
    requires a != []
    ensures multiset(FirstParts(a)) == multiset{FirstPart(a[0])} + multiset(FirstParts(a[1..]))
  {
    assert FirstParts(a) == [FirstPart(a[0])] + FirstParts(a[1..]);
  }

  lemma {:induction false} SamePartsReordered(a: seq<string>, b: seq<string>)
    requires multiset(a) == multiset(b)
    ensures multiset(FirstParts(a)) == multiset(FirstParts(b))
    decreases |a|
  {
    SameLength(a, b);
    if a != [] {
      assert a[0] in multiset(b);
      var k :| 0 <= k < |b| && b[k] == a[0];
      WithoutOne(a, b, k);
      SamePartsReordered(a[1..], b[..k] + b[k + 1..]);
      PartsOfFirst(a);
      PartsAround(b, k);
    }
  }

  lemma PartsAround(b: seq<string>, k: nat)
    requires k < |b|
    ensures multiset(FirstParts(b)) == multiset{FirstPart(b[k])} + multiset(FirstParts(b[..k] + b[k + 1..]))
  {
    assert FirstParts(b) == FirstParts(b[..k]) + [FirstPart(b[k])] + FirstParts(b[k + 1..]);
    assert FirstParts(b[..k] + b[k + 1..]) == FirstParts(b[..k]) + FirstParts(b[k + 1..]);
  }

  lemma ExtHasDot(name: string)
    requires Ext(name) != ""
    ensures Dotted(name)
  {
    FirstPartSplits(name);
    ExtStartsWithDot(name);
    assert name[|name| - |Ext(name)|] == '.';
  }

  /** filepath.Ext is the end of the name from its last dot. */
  lemma {:induction false} ExtStartsWithDot(name: string)
    requires Ext(name) != ""
    ensures Ext(name) == name[|name| - |Ext(name)|..] && Ext(name)[0] == '.' && '.' !in Ext(name)[1..]
    decreases |name|
  {
    if name[|name| - 1] != '.' {
      ExtStartsWithDot(name[..|name| - 1]);
    }
  }

  lemma {:induction false} SelectKeeps(names: seq<string>, p: string -> bool, k: nat)
    requires k < |Select(names, p)|
    ensures p(Select(names, p)[k])
  {
    if k < |Select(names[..|names| - 1], p)| {
      SelectKeeps(names[..|names| - 1], p, k);
    }
  }

  lemma SelectedHaveDots(names: seq<string>, sorted: seq<string>, p: string -> bool)
    requires (forall x :: p(x) ==> Ext(x) != "") && Sorted(Select(names, p), sorted)
    ensures AllDotted(sorted)
  {
    forall k | 0 <= k < |sorted| ensures Dotted(sorted[k]) {
      assert sorted[k] in multiset(Select(names, p));
      var j :| 0 <= j < |Select(names, p)| && Select(names, p)[j] == sorted[k];
      SelectKeeps(names, p, j);
      ExtHasDot(sorted[k]);
    }
  }

  /** The same, said of any directory's listing. */
  lemma ListingCheckExact(names: seq<string>, pdfs: seq<string>, tiffs: seq<string>)
    requires Sorted(Select(names, IsPDF), pdfs) && Sorted(Select(names, IsTIFF), tiffs)
    ensures Verdict(pdfs, tiffs).Accepted? <==>
            Select(names, IsTIFF) != [] && multiset(FirstParts(Select(names, IsPDF)))
                == multiset(FirstParts(Select(names, IsTIFF)))
  {
    var p, t := Select(names, IsPDF), Select(names, IsTIFF);
    SelectedHaveDots(names, pdfs, IsPDF);
    SelectedHaveDots(names, tiffs, IsTIFF);
    PairCheckExact(pdfs, tiffs);
    SamePartsReordered(p, pdfs);
    SamePartsReordered(t, tiffs);
    SameLength(t, tiffs);
  }

  // ---------------------------------------------------------------- first parts and stems

  /** The name without its extension. */
  function Stem(name: string): string {
    name[..|name| - |Ext(name)|]
  }

  function Stems(names: seq<string>): seq<string> {
    seq(|names|, k requires 0 <= k < |names| => Stem(names[k]))
  }

  /** Exactly one dot. */
  predicate OneDot(name: string) {
    var n := |FirstPart(name)|;
    n < |name| && forall k :: n < k < |name| ==> name[k] != '.'
  }

  predicate AllOneDot(names: seq<string>) {
    forall k :: 0 <= k < |names| ==> OneDot(names[k])
  }

  lemma {:induction false} NoExtNoDot(name: string)
    requires Ext(name) == ""
    ensures '.' !in name
    decreases |name|
  {
    if name != "" {
      NoExtNoDot(name[..|name| - 1]);
    }
  }

  /** Of a name with a dot, the first part is the stem exactly when there is only that dot; otherwise it is shorter. */
  lemma FirstPartIsStem(name: string)
    requires Dotted(name)
    ensures FirstPart(name) == Stem(name) <==> OneDot(name)
    ensures |FirstPart(name)| <= |Stem(name)|
  {
    FirstPartSplits(name);
    var n, m := |FirstPart(name)|, |name| - |Ext(name)|;
    assert name[n] == '.';
    if Ext(name) == "" {
      NoExtNoDot(name);
    }
    ExtStartsWithDot(name);
    assert name[m] == '.';
    assert forall k :: m < k < |name| ==> name[k] == Ext(name)[1..][k - m - 1];
  }

  /** The TIFFs named by the PDFs' first parts. */
  function TIFFNames(pdfs: seq<string>): seq<string> {
    seq(|pdfs|, k requires 0 <= k < |pdfs| => FirstPart(pdfs[k]) + ".tif")
  }

  lemma TIFFName(p: string)
    requires '.' !in p
    ensures FirstPart(p + ".tif") == p && OneDot(p + ".tif") && IsTIFF(p + ".tif") && Stem(p + ".tif") == p
  {
    ExtOfTIFF(p);
    TIFFFirstPart(p);
  }

  lemma TIFFFirstPart(p: string)
    requires '.' !in p
    ensures FirstPart(p + ".tif") == p && OneDot(p + ".tif")
  {
    FirstPartOf(p, "tif");
    assert p + "." + "tif" == p + ".tif";
    forall k | |p| < k < |p + ".tif"| ensures (p + ".tif")[k] != '.' {
      assert (p + ".tif")[k] == ".tif"[k - |p|];
    }
  }

  lemma {:induction false} FirstPartOf(p: string, rest: string)
    requires '.' !in p
    ensures FirstPart(p + "." + rest) == p
  {
    if p != "" {
      FirstPartOf(p[1..], rest);
      assert (p + "." + rest)[1..] == p[1..] + "." + rest;
    }
  }

  lemma ExtOfTIFF(p: string)
    ensures Ext(p + ".tif") == ".tif"
  {
    var a, b, c, d := p + ".tif", p + ".ti", p + ".t", p + ".";
    assert Ext(d) == ".";
    assert c[..|c| - 1] == d;
    assert Ext(c) == ".t";
    assert b[..|b| - 1] == c;
    assert Ext(b) == ".ti";
    assert a[..|a| - 1] == b;
  }

  /** A common end after the dot keeps the order. */
  lemma {:induction false} SameEnd(p: string, q: string, end: string)
    requires '.' !in p && '.' !in q && BaseLe(p, q)
    ensures StringLe(p + "." + end, q + "." + end)
    decreases |p|
  {
    var x, y := p + "." + end, q + "." + end;
    if p != "" && q != "" && p[0] == q[0] {
      assert x[1..] == p[1..] + "." + end && y[1..] == q[1..] + "." + end;
      assert (p + ".")[1..] == p[1..] + "." && (q + ".")[1..] == q[1..] + ".";
      SameEnd(p[1..], q[1..], end);
    } else if p == "" && q == "" {
      StringLeTotal(x, y);
    } else {
      assert x[0] == (p + ".")[0] && y[0] == (q + ".")[0];
    }
  }

  /** A list of TIFFs, each with one dot, as the check sorts it. */
  ghost predicate PlainTIFFs(tiffs: seq<string>) {
    SortedBy(tiffs, StringLe) && AllOneDot(tiffs) && forall k :: 0 <= k < |tiffs| ==> IsTIFF(tiffs[k])
  }

  lemma TIFFNamesArePlain(pdfs: seq<string>)
    requires SortedBy(pdfs, StringLe) && AllDotted(pdfs)
    ensures PlainTIFFs(TIFFNames(pdfs)) && FirstParts(TIFFNames(pdfs)) == FirstParts(pdfs)
    ensures Stems(TIFFNames(pdfs)) == FirstParts(pdfs)
  {
    forall k | 0 <= k < |pdfs|
      ensures FirstPart(TIFFNames(pdfs)[k]) == FirstPart(pdfs[k]) && OneDot(TIFFNames(pdfs)[k])
            && IsTIFF(TIFFNames(pdfs)[k])
      ensures Stem(TIFFNames(pdfs)[k]) == FirstPart(pdfs[k])
    {
      FirstPartSplits(pdfs[k]);
      TIFFName(FirstPart(pdfs[k]));
    }
    forall i, j | 0 <= i < j < |pdfs| ensures StringLe(TIFFNames(pdfs)[i], TIFFNames(pdfs)[j]) {
      FirstPartSplits(pdfs[i]);
      FirstPartSplits(pdfs[j]);
      NamesInBaseOrder(pdfs[i], pdfs[j]);
      SameEnd(FirstPart(pdfs[i]), FirstPart(pdfs[j]), "tif");
      assert TIFFNames(pdfs)[i] == FirstPart(pdfs[i]) + "." + "tif"
          && TIFFNames(pdfs)[j] == FirstPart(pdfs[j]) + "." + "tif";
    }
  }

  function Size(names: seq<string>): nat {
    if names == [] then 0 else |names[0]| + Size(names[1..])
  }

  lemma {:induction false} SameSize(a: seq<string>, b: seq<string>)
    requires multiset(a) == multiset(b)
    ensures Size(a) == Size(b)
    decreases |a|
  {
    SameLength(a, b);
    if a != [] {
      assert a[0] in multiset(b);
      var k :| 0 <= k < |b| && b[k] == a[0];
      WithoutOne(a, b, k);
      SameSize(a[1..], b[..k] + b[k + 1..]);
      SizeAround(b, k);
    }
  }

  lemma {:induction false} SizeAround(b: seq<string>, k: nat)
    requires k < |b|
    ensures Size(b) == |b[k]| + Size(b[..k] + b[k + 1..])
  {
    if k == 0 {
      assert b[..k] + b[k + 1..] == b[1..];
    } else {
      SizeAround(b[1..], k - 1);
      var rest := b[..k] + b[k + 1..];
      assert rest[1..] == b[1..][..k - 1] + b[1..][k..];
    }
  }

  /** First parts are never longer than stems, and shorter somewhere unless every name has one dot. */
  lemma {:induction false} StemsAreLonger(names: seq<string>)
    requires AllDotted(names)
    ensures Size(FirstParts(names)) <= Size(Stems(names))
    ensures !AllOneDot(names) ==> Size(FirstParts(names)) < Size(Stems(names))
  {
    if names != [] {
      var rest := names[1..];
      StemsAreLonger(rest);
      FirstPartIsStem(names[0]);
      FirstPartSplits(names[0]);
      assert FirstParts(names)[1..] == FirstParts(rest) && Stems(names)[1..] == Stems(rest);
      assert |FirstPart(names[0])| == |Stem(names[0])| ==> FirstPart(names[0]) == Stem(names[0]) by {
        assert Stem(names[0])[..|FirstPart(names[0])|] == FirstPart(names[0]);
      }
      assert OneDot(names[0]) && AllOneDot(rest) ==> AllOneDot(names);
    }
  }

  lemma StemsOfOneDot(names: seq<string>)
    requires AllOneDot(names)
    ensures Stems(names) == FirstParts(names) && AllDotted(names)
  {
    forall k | 0 <= k < |names| ensures Stem(names[k]) == FirstPart(names[k]) {
      FirstPartIsStem(names[k]);
    }
  }

  /** The check tells, of these PDFs and TIFFs, whether they have the same stems. */
  ghost predicate TellsStems(pdfs: seq<string>, tiffs: seq<string>) {
    Verdict(pdfs, tiffs).Accepted? <==> tiffs != [] && multiset(Stems(pdfs)) == multiset(Stems(tiffs))
  }

  /** The check pairs PDFs with TIFFs of the same stem, whatever the TIFFs with one dot are, exactly when each PDF has
      one dot: "a.1.pdf" is taken for a partner of "a.tif". */
  lemma StemsToldExactly(pdfs: seq<string>)
    requires SortedBy(pdfs, StringLe) && forall k :: 0 <= k < |pdfs| ==> IsPDF(pdfs[k])
    ensures (forall tiffs :: PlainTIFFs(tiffs) ==> TellsStems(pdfs, tiffs)) <==> AllOneDot(pdfs)
  {
    forall k | 0 <= k < |pdfs| ensures Dotted(pdfs[k]) {
      ExtHasDot(pdfs[k]);
    }
    if AllOneDot(pdfs) {
      forall tiffs | PlainTIFFs(tiffs) ensures TellsStems(pdfs, tiffs) {
        StemsOfOneDot(pdfs);
        StemsOfOneDot(tiffs);
        PairCheckExact(pdfs, tiffs);
      }
    } else {
      var tiffs := TIFFNames(pdfs);
      TIFFNamesArePlain(pdfs);
      StemsOfOneDot(tiffs);
      PairCheckExact(pdfs, tiffs);
      StemsAreLonger(pdfs);
      if multiset(Stems(pdfs)) == multiset(Stems(tiffs)) {
        SameSize(Stems(pdfs), Stems(tiffs));
        assert false;
      }
      assert !TellsStems(pdfs, tiffs);
    }
  }
}
