/** Names for batches (src/models/batch_name.go).  The shuffle of a block of sequence numbers is a parameter. */
module BatchNames {
  import opened Sequences

  type WordLists = seq<seq<string>>

  const MATERIALS: seq<string> := [
    "Basalt", "Bronze", "Clay", "Diamond", "Emerald", "Granite", "Jade", "Marble", "Obsidian", "Quartzite",
    "Serpentine", "Cedar", "Mahogany", "Maple", "Oak", "Pine", "Teak", "Holographic", "Polyester", "Origami"]
  const CREATURES: seq<string> := [
    "Dracaenae", "Gargouille", "Gendenwitha", "HuayChivo", "Kubikajiri", "Laestrygonian", "Manananggal", "Namahage",
    "OrcoMamman", "Penanggalan", "Qingniao", "Shinigami", "Soucouyant", "Unicorn", "Xiangliu", "Zombie", "Vampire",
    "Werewolf", "Cthulu", "Yeti"]
  const CONNECTORS: seq<string> := ["Behind", "Harvesting", "Planting", "SurroundedBy", "Trampling", "Eating"]
  const PLANTS: seq<string> := [
    "Crabgrass", "PoisonOak", "Roses", "Shrubs", "Strawberries", "Sunflowers", "Trees", "Wheat", "Bamboo", "Amaranth",
    "Kelp", "PricklyPear"]
  const LISTS: WordLists := [MATERIALS, CREATURES, CONNECTORS, PLANTS]

  predicate NoneEmpty(lists: WordLists) {
    lists != [] && forall k :: 0 <= k < |lists| ==> lists[k] != []
  }

  /** The length of the longest list. */
  function Longest(lists: WordLists): (n: nat)
    ensures forall k :: 0 <= k < |lists| ==> |lists[k]| <= n
    ensures lists != [] ==> exists k :: 0 <= k < |lists| && |lists[k]| == n
  {
    if lists == [] then 0
    else
      var n, last := Longest(lists[..|lists| - 1]), |lists[|lists| - 1]|;
      assert forall k :: 0 <= k < |lists| - 1 ==> lists[..|lists| - 1][k] == lists[k];
      if last > n then last else n
  }

  /** The same lists, each in some order. */
  ghost predicate Shuffled(lists: WordLists, shuffled: WordLists) {
    |shuffled| == |lists| && forall k :: 0 <= k < |lists| ==> multiset(shuffled[k]) == multiset(lists[k])
  }

  function Name(shuffled: WordLists, n: nat): string
    requires forall k :: 0 <= k < |shuffled| ==> shuffled[k] != []
  {
    if shuffled == [] then "" else shuffled[0][n % |shuffled[0]|] + Name(shuffled[1..], n)
  }

  lemma ShuffledNonEmpty(lists: WordLists, shuffled: WordLists)
    requires NoneEmpty(lists) && Shuffled(lists, shuffled)
    ensures NoneEmpty(shuffled) && forall k :: 0 <= k < |lists| ==> |shuffled[k]| == |lists[k]|
  {
    forall k | 0 <= k < |lists| ensures |shuffled[k]| == |lists[k]| {
      assert |multiset(shuffled[k])| == |shuffled[k]| && |multiset(lists[k])| == |lists[k]|;
    }
  }

  method MaxLength(lists: WordLists) returns (iterations: nat)
    ensures iterations == Longest(lists)
  {
    iterations := 0;
    for k := 0 to |lists|
      invariant iterations == Longest(lists[..k])
    {
      assert lists[..k + 1][..k] == lists[..k];
      if |lists[k]| > iterations {
        iterations := |lists[k]|;
      }
    }
    assert lists[..|lists|] == lists;
  }

  method JoinWords(shuffled: WordLists, n: nat) returns (name: string)
    requires NoneEmpty(shuffled)
    ensures name == Name(shuffled, n)
  {
    name := "";
    for k := 0 to |shuffled|
      invariant name + Name(shuffled[k..], n) == Name(shuffled, n)
    {
      assert shuffled[k..][1..] == shuffled[k + 1..] && shuffled[k..][0] == shuffled[k];
      name := name + shuffled[k][n % |shuffled[k]|];
    }
  }

  /** `shuffle` gives the order of the lists for each block of sequence numbers. */
  method RandomBatchName(lists: WordLists, shuffle: nat -> WordLists, sequence: nat)
    returns (name: string, ghost block: nat)
    requires NoneEmpty(lists) && forall b :: Shuffled(lists, shuffle(b))
    ensures block == sequence / Longest(lists) && NoneEmpty(shuffle(block))
    ensures name == Name(shuffle(block), sequence % Longest(lists))
  {
    var iterations := MaxLength(lists);
    assert |lists[0]| > 0;
    var seedPlus := sequence / iterations;
    block := seedPlus;
    var local := shuffle(seedPlus);
    ShuffledNonEmpty(lists, local);
    name := JoinWords(local, sequence % iterations);
  }

  // ---------------------------------------------------------------- names do not repeat

  predicate PrefixFree(words: seq<string>) {
    forall j, k :: 0 <= j < k < |words| ==> !(words[j] <= words[k]) && !(words[k] <= words[j])
  }

  predicate Apart(x: string, y: string) {
    !(x <= y) && !(y <= x)
  }

  lemma ApartStarts(x: string, y: string, a: string, b: string)
    requires Apart(x, y) && x <= a && y <= b
    ensures a != b
  {
    assert x == a[..|x|] && y == b[..|y|];
    assert |x| <= |y| ==> x != y[..|x|];
    assert |y| <= |x| ==> y != x[..|y|];
  }

  lemma Words(a: seq<string>, b: seq<string>, x: string)
    requires multiset(a) == multiset(b)
    ensures x in a <==> x in b
  {
    assert x in a <==> x in multiset(a);
    assert x in b <==> x in multiset(b);
  }

  lemma ApartInList(words: seq<string>, x: string, y: string)
    requires PrefixFree(words) && x in words && y in words && x != y
    ensures Apart(x, y)
  {
    var j :| 0 <= j < |words| && words[j] == x;
    var k :| 0 <= k < |words| && words[k] == y;
  }

  lemma ShuffledUnique(words: seq<string>, shuffled: seq<string>, s: nat, t: nat)
    requires Unique(words) && multiset(words) == multiset(shuffled) && s < t < |shuffled|
    ensures shuffled[s] != shuffled[t]
  {
    if shuffled[s] == shuffled[t] {
      TwiceInMultiset(shuffled, s, t);
      OnceInMultiset(words, shuffled[s]);
    }
  }

  lemma TwiceInMultiset(words: seq<string>, s: nat, t: nat)
    requires s < t < |words| && words[s] == words[t]
    ensures multiset(words)[words[s]] >= 2
  {
    var a, b := words[..t], words[t..];
    assert words == a + b && a[s] == words[s] && b[0] == words[s];
    assert multiset(words) == multiset(a) + multiset(b);
  }

  lemma {:induction false} OnceInMultiset(words: seq<string>, x: string)
    requires Unique(words)
    ensures multiset(words)[x] <= 1
    decreases |words|
  {
    if words != [] {
      var front, last := words[..|words| - 1], words[|words| - 1];
      assert words == front + [last] && multiset(words) == multiset(front) + multiset{last};
      assert forall k :: 0 <= k < |front| ==> front[k] == words[k];
      OnceInMultiset(front, x);
      if x == last {
        assert last !in front;
      }
    }
  }

  lemma ShuffledApart(words: seq<string>, shuffled: seq<string>, s: nat, t: nat)
    requires Unique(words) && PrefixFree(words) && multiset(words) == multiset(shuffled) && s < t < |shuffled|
    ensures Apart(shuffled[s], shuffled[t])
  {
    ShuffledUnique(words, shuffled, s, t);
    Words(words, shuffled, shuffled[s]);
    Words(words, shuffled, shuffled[t]);
    ApartInList(words, shuffled[s], shuffled[t]);
  }

  lemma FirstWord(shuffled: WordLists, n: nat)
    requires NoneEmpty(shuffled) && n < |shuffled[0]|
    ensures shuffled[0][n] <= Name(shuffled, n)
  {
    var word, rest := shuffled[0][n], Name(shuffled[1..], n);
    SmallRemainder(n, |shuffled[0]|);
    assert Name(shuffled, n) == word + rest;
  }

  lemma SmallRemainder(n: nat, m: nat)
    requires n < m
    ensures n % m == n
  {
  }

  /** When the first list is a longest one, without repeated words and with no word starting another, the names of one
      block are all different. */
  lemma NamesDiffer(lists: WordLists, shuffled: WordLists, s: nat, t: nat)
    requires NoneEmpty(lists) && Shuffled(lists, shuffled) && NoneEmpty(shuffled)
    requires |lists[0]| == Longest(lists) && Unique(lists[0]) && PrefixFree(lists[0])
    requires s < t < Longest(lists)
    ensures Name(shuffled, s) != Name(shuffled, t)
  {
    ShuffledNonEmpty(lists, shuffled);
    ShuffledApart(lists[0], shuffled[0], s, t);
    FirstWord(shuffled, s);
    FirstWord(shuffled, t);
    ApartStarts(shuffled[0][s], shuffled[0][t], Name(shuffled, s), Name(shuffled, t));
  }

  /** With `first` as a longest list, put first, the names of one block differ whatever the other lists and shuffles. */
  ghost predicate AlwaysDiffer(first: seq<string>) {
    forall others, shuffled, s: nat, t: nat
      {:trigger Shuffled([first] + others, shuffled), Name(shuffled, s), Name(shuffled, t)}
      | Fits(first, others) && Shuffled([first] + others, shuffled) && NoneEmpty(shuffled) && s < t < |first| ::
        Name(shuffled, s) != Name(shuffled, t)
  }

  ghost predicate Fits(first: seq<string>, others: WordLists) {
    NoneEmpty([first] + others) && Longest([first] + others) == |first|
  }

  lemma TwoListsFit(first: seq<string>, tails: seq<string>)
    requires |tails| == |first| > 0
    ensures Fits(first, [tails]) && Shuffled([first] + [tails], [first, tails])
  {
    assert [first] + [tails] == [first, tails];
  }

  lemma CoincideIn(first: seq<string>, others: WordLists, shuffled: WordLists, a: nat, b: nat)
    requires Fits(first, others) && Shuffled([first] + others, shuffled) && NoneEmpty(shuffled)
    requires a < |first| && b < |first| && a != b && Name(shuffled, a) == Name(shuffled, b)
    ensures !AlwaysDiffer(first)
  {
    assert a < b || b < a;
  }

  /** A word that starts another can be completed to the same name. */
  lemma NamesCoincide(first: seq<string>, a: nat, b: nat)
    requires a < |first| && b < |first| && a != b && first[a] <= first[b]
    ensures !AlwaysDiffer(first)
  {
    var rest := first[b][|first[a]|..];
    var tails := seq(|first|, k => if k == a then rest + "x" else "x");
    TwoListsFit(first, tails);
    OneName([first, tails], a);
    OneName([first, tails], b);
    assert first[a] + (rest + "x") == first[b] + "x";
    CoincideIn(first, [tails], [first, tails], a, b);
  }

  lemma OneName(shuffled: WordLists, n: nat)
    requires |shuffled| == 2 && n < |shuffled[0]| && n < |shuffled[1]|
    ensures (forall k :: 0 <= k < |shuffled| ==> shuffled[k] != [])
          && Name(shuffled, n) == shuffled[0][n] + shuffled[1][n]
  {
    SmallRemainder(n, |shuffled[0]|);
    SmallRemainder(n, |shuffled[1]|);
    assert shuffled[1..] == [shuffled[1]] && shuffled[1..][1..] == [];
    assert Name(shuffled[1..], n) == shuffled[1][n] + "";
  }

  /** The names of one block always differ exactly when no word of the first list occurs twice or starts another. */
  lemma NamesDifferExactly(first: seq<string>)
    ensures AlwaysDiffer(first) <==> Unique(first) && PrefixFree(first)
  {
    if Unique(first) && PrefixFree(first) {
      forall others, shuffled, s: nat, t: nat
        | Fits(first, others) && Shuffled([first] + others, shuffled) && NoneEmpty(shuffled) && s < t < |first|
        ensures Name(shuffled, s) != Name(shuffled, t)
      {
        NamesDiffer([first] + others, shuffled, s, t);
      }
    } else if !PrefixFree(first) {
      var j, k :| 0 <= j < k < |first| && (first[j] <= first[k] || first[k] <= first[j]);
      if first[j] <= first[k] {
        NamesCoincide(first, j, k);
      } else {
        NamesCoincide(first, k, j);
      }
    }
  }

  /** Within a block, the first l names use each word of a list of l words as often as the list has it. */
  lemma EachWordIsUsed(lists: WordLists, shuffled: WordLists, k: nat)
    requires NoneEmpty(lists) && Shuffled(lists, shuffled) && k < |lists|
    ensures |shuffled[k]| == |lists[k]| > 0
    ensures multiset(seq(|lists[k]|, n requires 0 <= n < |lists[k]| => shuffled[k][n % |lists[k]|]))
          == multiset(lists[k])
  {
    ShuffledNonEmpty(lists, shuffled);
    var used := seq(|lists[k]|, n requires 0 <= n < |lists[k]| => shuffled[k][n % |lists[k]|]);
    forall n | 0 <= n < |used| ensures used[n] == shuffled[k][n] {
      SmallRemainder(n, |lists[k]|);
    }
    assert used == shuffled[k];
  }

  // ---------------------------------------------------------------- the lists there are

  /** The first letters of a word, as one number. */
  function Code(w: string): int
    requires |w| >= 3
  {
    (w[0] as int) * 0x10000 + (w[1] as int) * 0x100 + w[2] as int
  }

  lemma CodesApart(x: string, y: string)
    requires |x| >= 3 && |y| >= 3 && Code(x) != Code(y)
    ensures Apart(x, y)
  {
  }

  /** The codes of the materials. */
  const CODES: seq<int> := [
    0x426173, 0x42726f, 0x436c61, 0x446961, 0x456d65, 0x477261, 0x4a6164, 0x4d6172, 0x4f6273, 0x517561,
    0x536572, 0x436564, 0x4d6168, 0x4d6170, 0x4f616b, 0x50696e, 0x546561, 0x486f6c, 0x506f6c, 0x4f7269]

  lemma MaterialCodes(k: nat)
    requires k < 20
    ensures |MATERIALS| == |CODES| == 20 && |MATERIALS[k]| >= 3 && Code(MATERIALS[k]) == CODES[k]
  {
  }

  lemma CodesDiffer(j: nat, k: nat)
    requires j < k < 20
    ensures |CODES| == 20 && CODES[j] != CODES[k]
  {
  }

  lemma MaterialsApart()
    ensures Unique(MATERIALS) && PrefixFree(MATERIALS)
  {
    forall j, k | 0 <= j < k < |MATERIALS| ensures MATERIALS[j] != MATERIALS[k] && Apart(MATERIALS[j], MATERIALS[k]) {
      MaterialCodes(j);
      MaterialCodes(k);
      CodesDiffer(j, k);
      CodesApart(MATERIALS[j], MATERIALS[k]);
    }
  }

  lemma MaterialsAreLongest()
    ensures NoneEmpty(LISTS) && |LISTS[0]| == Longest(LISTS) == 20
  {
    assert |MATERIALS| == 20 && |CREATURES| == 20 && |CONNECTORS| == 6 && |PLANTS| == 12;
    assert LISTS[..3][..2] == [MATERIALS, CREATURES] && LISTS[..3] == [MATERIALS, CREATURES, CONNECTORS];
    assert [MATERIALS, CREATURES][..1] == [MATERIALS] && [MATERIALS][..0] == [];
    assert Longest([MATERIALS]) == 20;
    assert Longest([MATERIALS, CREATURES]) == 20;
    assert Longest([MATERIALS, CREATURES, CONNECTORS]) == 20;
  }

  /** Twenty batches in a row, counted from a multiple of twenty, have twenty different names. */
  lemma TwentyNamesDiffer(shuffled: WordLists, s: nat, t: nat)
    requires Shuffled(LISTS, shuffled) && NoneEmpty(shuffled) && s < t < 20
    ensures Name(shuffled, s) != Name(shuffled, t)
  {
    MaterialsApart();
    MaterialsAreLongest();
    NamesDiffer(LISTS, shuffled, s, t);
  }
}
