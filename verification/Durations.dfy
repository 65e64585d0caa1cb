/** Embargo periods as text (src/duration/duration.go). */
module Durations {
  import opened Decimal
  import opened Text
  import opened Words

  const MAX_INT: nat := 0x7fff_ffff_ffff_ffff

  datatype Duration = Duration(years: nat, months: nat, weeks: nat, days: nat)
  {
    predicate Zero() {
      years == 0 && months == 0 && weeks == 0 && days == 0
    }

    /** The values a Go Duration that is not negative can have. */
    predicate Fits() {
      years <= MAX_INT && months <= MAX_INT && weeks <= MAX_INT && days <= MAX_INT
    }
  }

  const ZERO := Duration(0, 0, 0, 0)

  datatype Unit = Year | Month | Week | Day | Invalid

  datatype Result = Parsed(d: Duration) | Error(message: string)

  function UnitOf(name: string): Unit {
    if name in {"d", "day", "days"} then Day
    else if name in {"w", "week", "weeks"} then Week
    else if name in {"m", "month", "months"} then Month
    else if name in {"y", "year", "years"} then Year
    else Invalid
  }

  function Get(d: Duration, u: Unit): nat {
    match u
    case Year => d.years
    case Month => d.months
    case Week => d.weeks
    case Day => d.days
    case Invalid => 0
  }

  function Set(d: Duration, u: Unit, n: nat): Duration {
    match u
    case Year => d.(years := n)
    case Month => d.(months := n)
    case Week => d.(weeks := n)
    case Day => d.(days := n)
    case Invalid => d
  }

  function Plural(u: Unit): string {
    match u
    case Year => "years"
    case Month => "months"
    case Week => "weeks"
    case Day => "days"
    case Invalid => ""
  }

  /** strconv.Atoi with its error ignored: out of range gives the largest number. */
  function Atoi(s: string): nat
    requires IsNumber(s)
  {
    if Value(s) > MAX_INT then MAX_INT else Value(s)
  }

  // ---------------------------------------------------------------- reading

  predicate IsLetter(c: char) {
    'a' <= c <= 'z' || 'A' <= c <= 'Z'
  }

  function WithoutSpaces(s: string): string {
    if s == "" then "" else (if s[0] == ' ' then "" else [s[0]]) + WithoutSpaces(s[1..])
  }

  function Clean(s: string): string {
    Lower(WithoutSpaces(s))
  }

  function DigitRun(s: string): (n: nat)
    ensures n <= |s| && AllDigitsTo(s, n) && (n < |s| ==> !IsDigit(s[n]))
  {
    if s == "" || !IsDigit(s[0]) then 0
    else
      var n := DigitRun(s[1..]);
      assert forall k :: 0 < k < n + 1 ==> s[k] == s[1..][k - 1];
      n + 1
  }

  predicate AllDigitsTo(s: string, n: nat)
    requires n <= |s|
  {
    forall k :: 0 <= k < n ==> IsDigit(s[k])
  }

  function LetterRun(s: string): (n: nat)
    ensures n <= |s|
  {
    if s == "" || !IsLetter(s[0]) then 0 else LetterRun(s[1..]) + 1
  }

  datatype Group = Group(number: string, name: string)

  /** Every number with the letters right after it, from left to right; anything else is skipped. */
  function Groups(s: string): (gs: seq<Group>)
    ensures forall g <- gs :: IsNumber(g.number)
    decreases |s|
  {
    if s == "" then []
    else
      var n := DigitRun(s);
      if n == 0 then Groups(s[1..])
      else
        var l := LetterRun(s[n..]);
        if l == 0 then Groups(s[n..]) else [Group(s[..n], s[n..n + l])] + Groups(s[n + l..])
  }

  /** The duration once a group has been taken into account; naming a unit again is an error unless it was 0 so far. */
  function Step(d: Duration, g: Group): Result
    requires IsNumber(g.number)
  {
    var u := UnitOf(g.name);
    if u == Invalid then Error("invalid unit name")
    else if Get(d, u) > 0 then Error(Plural(u) + " specified more than once")
    else Parsed(Set(d, u, Atoi(g.number)))
  }

  function Fill(d: Duration, gs: seq<Group>): Result
    requires forall g <- gs :: IsNumber(g.number)
    decreases |gs|
  {
    if gs == [] then Parsed(d)
    else
      var r := Step(d, gs[0]);
      if r.Error? then r else Fill(r.d, gs[1..])
  }

  function ParseText(text: string): Result {
    var s := Clean(text);
    if s == "" || s == "0" then Parsed(ZERO)
    else if Groups(s) == [] then Error("invalid time period")
    else Fill(ZERO, Groups(s))
  }

  // ---------------------------------------------------------------- which parts of the text are groups

  /** No digit with a letter right after it. */
  predicate NoMatch(gap: string) {
    forall k :: 0 <= k < |gap| - 1 && IsDigit(gap[k]) ==> !IsLetter(gap[k + 1])
  }

  function End(a: nat, g: Group): nat {
    a + |g.number| + |g.name|
  }

  /** Group g is the first match in the text, at a, and as long as it can be. */
  predicate FirstMatch(s: string, a: nat, g: Group) {
    && End(a, g) <= |s| && IsNumber(g.number) && Letters(g.name)
    && s[a..a + |g.number|] == g.number && s[a + |g.number|..End(a, g)] == g.name
    && NoMatch(s[..a]) && (a == 0 || !IsDigit(s[a - 1])) && (End(a, g) == |s| || !IsLetter(s[End(a, g)]))
  }

  /** The groups are the matches in the text, from left to right. */
  ghost predicate Matches(s: string, gs: seq<Group>)
    decreases |gs|
  {
    if gs == [] then NoMatch(s)
    else exists a: nat :: FirstMatch(s, a, gs[0]) && Matches(s[End(a, gs[0])..], gs[1..])
  }

  lemma LetterRunLetters(s: string)
    ensures forall k :: 0 <= k < LetterRun(s) ==> IsLetter(s[k])
    ensures LetterRun(s) < |s| ==> !IsLetter(s[LetterRun(s)])
  {
  }

  /** Text in front that neither holds nor begins a match. */
  predicate Skipped(s: string, n: nat) {
    && 0 < n <= |s|
    && (forall k :: 0 <= k < n - 1 && IsDigit(s[k]) ==> !IsLetter(s[k + 1]))
    && (IsDigit(s[n - 1]) ==> n == |s| || (!IsLetter(s[n]) && !IsDigit(s[n])))
  }

  lemma FirstMatchBehind(s: string, n: nat, a: nat, g: Group)
    requires Skipped(s, n) && FirstMatch(s[n..], a, g)
    ensures FirstMatch(s, n + a, g) && s[End(n + a, g)..] == s[n..][End(a, g)..]
  {
    var t := s[n..];
    assert t[a] == g.number[0] == s[n + a];
    assert forall k :: 0 <= k < a ==> t[k] == s[n + k];
    assert s[n + a..n + a + |g.number|] == t[a..a + |g.number|];
    assert s[n + a + |g.number|..End(n + a, g)] == t[a + |g.number|..End(a, g)];
    forall k | 0 <= k < n + a - 1 && IsDigit(s[k]) ensures !IsLetter(s[k + 1]) {
      assert n <= k ==> s[k] == t[..a][k - n] && s[k + 1] == t[..a][k + 1 - n];
    }
  }

  lemma MatchesBehind(s: string, n: nat, gs: seq<Group>)
    requires Skipped(s, n) && Matches(s[n..], gs)
    ensures Matches(s, gs)
  {
    if gs == [] {
      forall k | 0 <= k < |s| - 1 && IsDigit(s[k]) ensures !IsLetter(s[k + 1]) {
        assert n <= k ==> s[k] == s[n..][k - n] && s[k + 1] == s[n..][k + 1 - n];
      }
    } else {
      var a: nat :| FirstMatch(s[n..], a, gs[0]) && Matches(s[n..][End(a, gs[0])..], gs[1..]);
      FirstMatchBehind(s, n, a, gs[0]);
    }
  }

  lemma {:induction false} RunsMatch(s: string, n: nat, l: nat)
    requires 0 < n == DigitRun(s) && 0 < l == LetterRun(s[n..])
    ensures FirstMatch(s, 0, Group(s[..n], s[n..n + l])) && s[End(0, Group(s[..n], s[n..n + l]))..] == s[n + l..]
  {
    LetterRunLetters(s[n..]);
    assert s[n..n + l] == s[n..][..l];
  }

  lemma {:induction false} MatchInFront(s: string, g: Group, gs: seq<Group>)
    requires FirstMatch(s, 0, g) && Matches(s[End(0, g)..], gs)
    ensures Matches(s, [g] + gs)
  {
    var all := [g] + gs;
    assert all[1..] == gs && all[0] == g;
    assert FirstMatch(s, 0, all[0]) && Matches(s[End(0, all[0])..], all[1..]);
  }

  lemma {:induction false} NoDigitFirst(s: string)
    requires s != "" && DigitRun(s) == 0 && Matches(s[1..], Groups(s[1..]))
    ensures Matches(s, Groups(s))
  {
    MatchesBehind(s, 1, Groups(s[1..]));
  }

  lemma {:induction false} NoNameFirst(s: string, n: nat)
    requires 0 < n == DigitRun(s) && LetterRun(s[n..]) == 0 && Matches(s[n..], Groups(s[n..]))
    ensures Matches(s, Groups(s))
  {
    LetterRunLetters(s[n..]);
    MatchesBehind(s, n, Groups(s[n..]));
  }

  lemma {:induction false} GroupsStart(s: string, n: nat, l: nat, rest: string)
    requires 0 < n == DigitRun(s) && 0 < l == LetterRun(s[n..]) && rest == s[n + l..]
    ensures Groups(s) == [Group(s[..n], s[n..n + l])] + Groups(rest)
  {
  }

  lemma {:induction false} GroupFirst(s: string, n: nat, l: nat, gs: seq<Group>)
    requires 0 < n == DigitRun(s) && 0 < l == LetterRun(s[n..]) && Matches(s[n + l..], gs)
    ensures Matches(s, [Group(s[..n], s[n..n + l])] + gs)
  {
    RunsMatch(s, n, l);
    MatchInFront(s, Group(s[..n], s[n..n + l]), gs);
  }

  /** The groups are the runs of digits with letters right after them, as long as they go, and there are no others. */
  lemma {:induction false} GroupsAreTheMatches(s: string)
    ensures Matches(s, Groups(s))
    decreases |s|
  {
    if s != "" {
      var n := DigitRun(s);
      if n == 0 {
        GroupsAreTheMatches(s[1..]);
        NoDigitFirst(s);
      } else if LetterRun(s[n..]) == 0 {
        GroupsAreTheMatches(s[n..]);
        NoNameFirst(s, n);
      } else {
        var l := LetterRun(s[n..]);
        GroupsAreTheMatches(s[n + l..]);
        GroupFirst(s, n, l, Groups(s[n + l..]));
        GroupsStart(s, n, l, s[n + l..]);
      }
    }
  }

  // ---------------------------------------------------------------- what is read, and what is refused

  /** The twelve unit names. */
  predicate Names(g: Group, u: Unit) {
    match u
    case Year => g.name in {"y", "year", "years"}
    case Month => g.name in {"m", "month", "months"}
    case Week => g.name in {"w", "week", "weeks"}
    case Day => g.name in {"d", "day", "days"}
    case Invalid => false
  }

  predicate NamesAUnit(g: Group) {
    Names(g, Year) || Names(g, Month) || Names(g, Week) || Names(g, Day)
  }

  function Number(g: Group): nat {
    if IsNumber(g.number) then Value(g.number) else 0
  }

  /** Every group names a unit, and none names it again after a number above 0. */
  ghost predicate Readable(gs: seq<Group>) {
    && (forall k :: 0 <= k < |gs| ==> NamesAUnit(gs[k]))
    && (forall j, k, u :: 0 <= j < k < |gs| && Names(gs[j], u) && Names(gs[k], u) ==> Number(gs[j]) == 0)
  }

  /** The unit's number is that of the last group naming it, as far as an int goes; without one it is 0. */
  ghost predicate LastNamed(gs: seq<Group>, u: Unit, number: nat) {
    || ((forall k :: 0 <= k < |gs| ==> !Names(gs[k], u)) && number == 0)
    || (exists k :: 0 <= k < |gs| && Names(gs[k], u) && (forall l :: k < l < |gs| ==> !Names(gs[l], u))
          && number == if Number(gs[k]) <= MAX_INT then Number(gs[k]) else MAX_INT)
  }

  lemma UnitsByName(g: Group, u: Unit)
    requires u != Invalid
    ensures Names(g, u) <==> UnitOf(g.name) == u
  {
  }

  /** What is left to read fits to what was read so far. */
  ghost predicate ReadableFrom(d: Duration, gs: seq<Group>) {
    && (forall k :: 0 <= k < |gs| ==> UnitOf(gs[k].name) != Invalid && Get(d, UnitOf(gs[k].name)) == 0)
    && (forall j, k :: 0 <= j < k < |gs| && UnitOf(gs[j].name) == UnitOf(gs[k].name) ==> Number(gs[j]) == 0)
  }

  lemma ReadableStep(d: Duration, gs: seq<Group>)
    requires gs != [] && forall g <- gs :: IsNumber(g.number)
    ensures forall g <- gs[1..] :: IsNumber(g.number)
    ensures ReadableFrom(d, gs) <==> Step(d, gs[0]).Parsed? && ReadableFrom(Step(d, gs[0]).d, gs[1..])
  {
    var r, u := Step(d, gs[0]), UnitOf(gs[0].name);
    assert forall k :: 0 <= k < |gs[1..]| ==> gs[1..][k] == gs[k + 1];
    if r.Parsed? {
      assert forall v :: v != u ==> Get(r.d, v) == Get(d, v);
      assert gs[0] in gs && (Get(r.d, u) == 0 <==> Number(gs[0]) == 0);
      if ReadableFrom(r.d, gs[1..]) {
        forall k | 0 < k < |gs| ensures UnitOf(gs[k].name) != Invalid && Get(d, UnitOf(gs[k].name)) == 0 {
          assert gs[1..][k - 1] == gs[k];
        }
        forall j, k | 0 <= j < k < |gs| && UnitOf(gs[j].name) == UnitOf(gs[k].name) ensures Number(gs[j]) == 0 {
          assert gs[1..][k - 1] == gs[k];
          assert j > 0 ==> gs[1..][j - 1] == gs[j];
        }
      }
    }
  }

  lemma {:induction false} FilledExactly(d: Duration, gs: seq<Group>)
    requires forall g <- gs :: IsNumber(g.number)
    ensures Fill(d, gs).Parsed? <==> ReadableFrom(d, gs)
    decreases |gs|
  {
    if gs != [] {
      ReadableStep(d, gs);
      if Step(d, gs[0]).Parsed? {
        FilledExactly(Step(d, gs[0]).d, gs[1..]);
      }
    }
  }

  lemma {:induction false} FilledWith(d: Duration, gs: seq<Group>, u: Unit)
    requires (forall g <- gs :: IsNumber(g.number)) && Fill(d, gs).Parsed? && u != Invalid
    ensures (forall k :: 0 <= k < |gs| ==> UnitOf(gs[k].name) != u) ==> Get(Fill(d, gs).d, u) == Get(d, u)
    ensures forall k | 0 <= k < |gs| ::
      UnitOf(gs[k].name) == u && (forall l :: k < l < |gs| ==> UnitOf(gs[l].name) != u) ==>
          Get(Fill(d, gs).d, u) == Atoi(gs[k].number)
    decreases |gs|
  {
    if gs != [] {
      var rest := gs[1..];
      assert forall k :: 0 <= k < |rest| ==> rest[k] == gs[k + 1];
      FilledWith(Step(d, gs[0]).d, rest, u);
      forall k | 0 <= k < |gs| && UnitOf(gs[k].name) == u && (forall l :: k < l < |gs| ==> UnitOf(gs[l].name) != u)
        ensures Get(Fill(d, gs).d, u) == Atoi(gs[k].number)
      {
        assert forall l :: k < l < |gs| ==> rest[l - 1] == gs[l];
        if k > 0 {
          assert rest[k - 1] == gs[k];
        }
      }
    }
  }

  lemma KnownName(g: Group)
    ensures UnitOf(g.name) != Invalid <==> Names(g, UnitOf(g.name))
    ensures NamesAUnit(g) <==> UnitOf(g.name) != Invalid
  {
  }

  lemma ReadableOfUnits(gs: seq<Group>)
    requires ReadableFrom(ZERO, gs)
    ensures Readable(gs)
  {
    forall k | 0 <= k < |gs| ensures NamesAUnit(gs[k]) {
      KnownName(gs[k]);
    }
    forall j, k, u | 0 <= j < k < |gs| && Names(gs[j], u) && Names(gs[k], u) ensures Number(gs[j]) == 0 {
      UnitsByName(gs[j], u);
      UnitsByName(gs[k], u);
    }
  }

  lemma UnitsOfReadable(gs: seq<Group>)
    requires Readable(gs)
    ensures ReadableFrom(ZERO, gs)
  {
    forall k | 0 <= k < |gs| ensures UnitOf(gs[k].name) != Invalid && Names(gs[k], UnitOf(gs[k].name)) {
      KnownName(gs[k]);
    }
  }

  lemma FieldsAreLast(gs: seq<Group>, u: Unit)
    requires (forall g <- gs :: IsNumber(g.number)) && Fill(ZERO, gs).Parsed? && u != Invalid
    ensures LastNamed(gs, u, Get(Fill(ZERO, gs).d, u))
  {
    FilledWith(ZERO, gs, u);
    forall k | 0 <= k < |gs| ensures Names(gs[k], u) <==> UnitOf(gs[k].name) == u {
      UnitsByName(gs[k], u);
    }
    if k :| 0 <= k < |gs| && Names(gs[k], u) {
      var last := LastNaming(gs, u, k);
      assert gs[last] in gs;
    }
  }

  lemma LastNaming(gs: seq<Group>, u: Unit, k: nat) returns (last: nat)
    requires k < |gs| && Names(gs[k], u)
    ensures last < |gs| && Names(gs[last], u) && forall l :: last < l < |gs| ==> !Names(gs[l], u)
    decreases |gs| - k
  {
    if l :| k < l < |gs| && Names(gs[l], u) {
      last := LastNaming(gs, u, l);
    } else {
      last := k;
    }
  }

  /** Text is read exactly when it has groups and these are readable; each unit then has the number of the last group
      naming it. */
  lemma ParsedExactly(text: string)
    requires Clean(text) != "" && Clean(text) != "0"
    ensures var gs := Groups(Clean(text));
            && (ParseText(text).Parsed? <==> gs != [] && Readable(gs))
            && (ParseText(text).Parsed? ==> forall u | u != Invalid :: LastNamed(gs, u, Get(ParseText(text).d, u)))
  {
    var gs := Groups(Clean(text));
    FilledExactly(ZERO, gs);
    if Readable(gs) {
      UnitsOfReadable(gs);
    }
    if ReadableFrom(ZERO, gs) {
      ReadableOfUnits(gs);
    }
    if ParseText(text).Parsed? {
      forall u | u != Invalid ensures LastNamed(gs, u, Get(ParseText(text).d, u)) {
        FieldsAreLast(gs, u);
      }
    }
  }

  method Parse(text: string) returns (r: Result)
    ensures r == ParseText(text)
    ensures Clean(text) in {"", "0"} ==> r == Parsed(ZERO)
    ensures Clean(text) !in {"", "0"} ==> (r.Parsed? <==> Groups(Clean(text)) != [] && Readable(Groups(Clean(text))))
    ensures Clean(text) !in {"", "0"} && r.Parsed? ==>
              forall u | u != Invalid :: LastNamed(Groups(Clean(text)), u, Get(r.d, u))
  {
    if Clean(text) != "" && Clean(text) != "0" {
      ParsedExactly(text);
    }
    var d := ZERO;
    var s := Clean(text);
    if s == "" || s == "0" {
      return Parsed(d);
    }
    var groups := Groups(s);
    if |groups| == 0 {
      return Error("invalid time period");
    }
    for k := 0 to |groups|
      invariant Fill(d, groups[k..]) == ParseText(text)
    {
      assert groups[k] in groups && groups[k..][1..] == groups[k + 1..];
      var num := Atoi(groups[k].number);
      var u := UnitOf(groups[k].name);
      if u == Invalid {
        return Error("invalid unit name");
      }
      if Get(d, u) > 0 {
        return Error(Plural(u) + " specified more than once");
      }
      d := Set(d, u, num);
    }
    return Parsed(d);
  }

  // ---------------------------------------------------------------- writing

  function UnitText(u: Unit, num: nat): string {
    match u
    case Year => if num == 1 then "year" else "years"
    case Month => if num == 1 then "month" else "months"
    case Week => if num == 1 then "week" else "weeks"
    case Day => if num == 1 then "day" else "days"
    case Invalid => ""
  }

  /** appendDuration. */
  function Appended(parts: seq<string>, num: nat, u: Unit): seq<string> {
    if num < 1 then parts else parts + [Print(num) + " " + UnitText(u, num)]
  }

  function Join(parts: seq<string>): string {
    if parts == [] then "" else if |parts| == 1 then parts[0] else parts[0] + " " + Join(parts[1..])
  }

  function String(d: Duration): string {
    var parts := Appended(Appended(Appended(Appended([], d.years, Year), d.months, Month), d.weeks, Week), d.days, Day);
    if parts == [] then "0 days" else Join(parts)
  }

  /** Days and weeks together, as a 64-bit sum. */
  function TotalDays(d: Duration): int {
    Wrap64(d.days + d.weeks * 7)
  }

  function Part(num: int, letter: string): string {
    if num > 0 then Print(num) + letter else ""
  }

  function RFC3339(d: Duration): string {
    if d.Zero() then "P0D"
    else if d.weeks > 0 && d.years == 0 && d.months == 0 && d.days == 0 then "P" + Print(d.weeks) + "W"
    else "P" + Part(d.years, "Y") + Part(d.months, "M") + Part(TotalDays(d), "D")
  }

  lemma JoinFour(a: string, b: string, c: string, d: string)
    ensures Join([a, b, c, d]) == a + " " + (b + " " + (c + " " + d))
    ensures Join([a, b]) == a + " " + b
  {
    assert [a, b, c, d][1..] == [b, c, d] && [b, c, d][1..] == [c, d] && [c, d][1..] == [d] && [a, b][1..] == [b];
    assert Join([c, d]) == c + " " + d == c + (" " + d);
    assert Join([b, c, d]) == b + " " + Join([c, d]);
  }

  lemma FourParts(d: Duration, a: string, b: string, c: string, e: string)
    requires d.years > 0 && d.months > 0 && d.weeks > 0 && d.days > 0
    requires a == Print(d.years) + " " + UnitText(Year, d.years)
    requires b == Print(d.months) + " " + UnitText(Month, d.months)
    requires c == Print(d.weeks) + " " + UnitText(Week, d.weeks)
    requires e == Print(d.days) + " " + UnitText(Day, d.days)
    ensures String(d) == Join([a, b, c, e])
  {
    var parts := Appended(Appended(Appended(Appended([], d.years, Year), d.months, Month), d.weeks, Week), d.days, Day);
    assert parts == [a, b, c, e];
  }

  lemma Several(num: nat)
    ensures Print(num) + " " + "years" == Print(num) + " years" && Print(num) + " " + "weeks" == Print(num) + " weeks"
    ensures Print(1) + " " + "month" == "1 month" && Print(1) + " " + "day" == "1 day"
  {
    assert Print(1) == "1";
  }

  /** Years come first and days last; one of a kind is not a plural. */
  lemma PrintedInOrder(d: Duration)
    requires d.years > 1 && d.months == 1 && d.weeks > 1 && d.days == 1
    ensures String(d)
         == Print(d.years) + " years" + " " + ("1 month" + " " + (Print(d.weeks) + " weeks" + " " + "1 day"))
  {
    Several(d.years);
    Several(d.weeks);
    var a, c := Print(d.years) + " years", Print(d.weeks) + " weeks";
    FourParts(d, a, "1 month", c, "1 day");
    JoinFour(a, "1 month", c, "1 day");
  }

  lemma TwoParts(d: Duration)
    requires d.years > 0 && d.months == 0 && d.weeks == 0 && d.days > 0
    ensures String(d) == Join([Print(d.years) + " " + UnitText(Year, d.years), Print(d.days) + " "
                               + UnitText(Day, d.days)])
  {
    var a := Print(d.years) + " " + UnitText(Year, d.years);
    assert Appended([], d.years, Year) == [a];
    assert Appended([a], d.days, Day) == [a, Print(d.days) + " " + UnitText(Day, d.days)];
  }

  /** What there is none of is left out. */
  lemma PrintedWithGap(d: Duration)
    requires d.years == 1 && d.months == 0 && d.weeks == 0 && d.days > 1
    ensures String(d) == "1 year " + (Print(d.days) + " days")
  {
    TwoParts(d);
    JoinFour("1" + " " + "year", Print(d.days) + " " + "days", "", "");
  }

  /** The form for machines; weeks on their own have a letter, and otherwise count as seven days each. */
  lemma MachineForm(d: Duration)
    requires d.years > 0 && d.months > 0 && d.days > 0 && d.weeks * 7 + d.days <= MAX_INT
    ensures RFC3339(d) == "P" + (Print(d.years) + "Y") + (Print(d.months) + "M") + (Print(d.weeks * 7 + d.days) + "D")
  {
    assert TotalDays(d) == d.weeks * 7 + d.days;
  }

  lemma WeeksOnly(weeks: nat)
    requires weeks > 0
    ensures RFC3339(Duration(0, 0, weeks, 0)) == "P" + Print(weeks) + "W"
  {
  }

  // ---------------------------------------------------------------- numbers and names are read back

  predicate Letters(s: string) {
    s != "" && forall k :: 0 <= k < |s| ==> IsLetter(s[k])
  }

  /** Text that cannot continue a name. */
  predicate Breaks(s: string) {
    s == "" || !IsLetter(s[0])
  }

  lemma {:induction false} DigitRunStops(a: string, b: string)
    requires AllDigitsTo(a, |a|) && (b == "" || !IsDigit(b[0]))
    ensures DigitRun(a + b) == |a|
  {
    if a == "" {
      assert a + b == b;
    } else {
      assert (a + b)[1..] == a[1..] + b;
      DigitRunStops(a[1..], b);
    }
  }

  lemma {:induction false} LetterRunStops(a: string, b: string)
    requires (forall k :: 0 <= k < |a| ==> IsLetter(a[k])) && Breaks(b)
    ensures LetterRun(a + b) == |a|
  {
    if a == "" {
      assert a + b == b;
    } else {
      assert (a + b)[1..] == a[1..] + b;
      LetterRunStops(a[1..], b);
    }
  }

  lemma GroupsOf(number: string, name: string, rest: string)
    requires IsNumber(number) && Letters(name) && Breaks(rest)
    ensures Groups(number + name + rest) == [Group(number, name)] + Groups(rest)
  {
    var s := number + name + rest;
    assert s == number + (name + rest);
    DigitRunStops(number, name + rest);
    assert s[..|number|] == number && s[|number|..] == name + rest;
    LetterRunStops(name, rest);
    assert s[|number|..|number| + |name|] == name && s[|number| + |name|..] == rest;
  }

  function Piece(num: nat, name: string): string {
    if num < 1 then "" else Print(num) + name
  }

  lemma PieceBreaks(num: nat, name: string, rest: string)
    requires Breaks(rest)
    ensures Breaks(Piece(num, name) + rest)
  {
    if num >= 1 {
      assert IsDigit(Print(num)[0]);
    }
  }

  /** Reading a piece sets its unit. */
  lemma FillPiece(d: Duration, u: Unit, num: nat, name: string, rest: string)
    requires Letters(name) && UnitOf(name) == u && u != Invalid && Get(d, u) == 0 && num <= MAX_INT && Breaks(rest)
    ensures Fill(d, Groups(Piece(num, name) + rest)) == Fill(Set(d, u, num), Groups(rest))
  {
    if num < 1 {
      assert Piece(num, name) + rest == rest;
    } else {
      var g := Group(Print(num), name);
      var all := [g] + Groups(rest);
      GroupsOf(Print(num), name, rest);
      assert all[0] == g && all[1..] == Groups(rest);
    }
  }

  /** Years, months, weeks and days, each at most once and in this order. */
  lemma FillPieces(y: nat, m: nat, w: nat, d: nat, yn: string, mn: string, wn: string, dn: string)
    requires Duration(y, m, w, d).Fits()
    requires Letters(yn) && Letters(mn) && Letters(wn) && Letters(dn)
    requires UnitOf(yn) == Year && UnitOf(mn) == Month && UnitOf(wn) == Week && UnitOf(dn) == Day
    ensures Fill(ZERO, Groups(Piece(y, yn) + (Piece(m, mn) + (Piece(w, wn) + (Piece(d, dn) + "")))))
          == Parsed(Duration(y, m, w, d))
  {
    var r4 := Piece(d, dn) + "";
    var r3 := Piece(w, wn) + r4;
    var r2 := Piece(m, mn) + r3;
    PieceBreaks(d, dn, "");
    PieceBreaks(w, wn, r4);
    PieceBreaks(m, mn, r3);
    FillPiece(ZERO, Year, y, yn, r2);
    FillPiece(Duration(y, 0, 0, 0), Month, m, mn, r3);
    FillPiece(Duration(y, m, 0, 0), Week, w, wn, r4);
    FillPiece(Duration(y, m, w, 0), Day, d, dn, "");
  }

  // ---------------------------------------------------------------- cleaning

  lemma {:induction false} SpacesConcat(a: string, b: string)
    ensures WithoutSpaces(a + b) == WithoutSpaces(a) + WithoutSpaces(b)
  {
    if a == "" {
      assert a + b == b;
    } else {
      assert (a + b)[1..] == a[1..] + b;
      SpacesConcat(a[1..], b);
    }
  }

  lemma CleanConcat(a: string, b: string)
    ensures Clean(a + b) == Clean(a) + Clean(b)
  {
    SpacesConcat(a, b);
    LowerConcat(WithoutSpaces(a), WithoutSpaces(b));
  }

  lemma LowerConcat(a: string, b: string)
    ensures Lower(a + b) == Lower(a) + Lower(b)
  {
  }

  lemma {:induction false} NoSpaces(s: string)
    requires forall k :: 0 <= k < |s| ==> s[k] != ' '
    ensures WithoutSpaces(s) == s
  {
    if s != "" {
      NoSpaces(s[1..]);
    }
  }

  lemma {:induction false} SpacesOfLower(s: string)
    ensures Lower(WithoutSpaces(Lower(s))) == Lower(WithoutSpaces(s))
  {
    if s != "" {
      SpacesOfLower(s[1..]);
      var head := if s[0] == ' ' then "" else [s[0]];
      assert Lower(s)[1..] == Lower(s[1..]);
      LowerConcat(head, WithoutSpaces(s[1..]));
      LowerConcat(Lower(head), WithoutSpaces(Lower(s[1..])));
      assert Lower(Lower(head)) == Lower(head);
      assert WithoutSpaces(Lower(s)) == Lower(head) + WithoutSpaces(Lower(s[1..]));
    }
  }

  lemma CleanedAlike(s: string, t: string)
    requires Clean(s) == Clean(t)
    ensures ParseText(s) == ParseText(t)
  {
  }

  lemma CleanWithSpace(a: string, b: string)
    ensures Clean(a + " " + b) == Clean(a + b)
  {
    CleanConcat(a + " ", b);
    CleanConcat(a, " ");
    CleanConcat(a, b);
    assert WithoutSpaces(" ") == WithoutSpaces(" "[1..]) == "";
  }

  /** Neither spaces nor capitals matter. */
  lemma SpacesAndCapitals(a: string, b: string)
    ensures ParseText(a + " " + b) == ParseText(a + b)
    ensures ParseText(Lower(a)) == ParseText(a)
  {
    CleanWithSpace(a, b);
    CleanedAlike(a + " " + b, a + b);
    SpacesOfLower(a);
    CleanedAlike(Lower(a), a);
  }

  /** Text without spaces and capitals is clean. */
  lemma CleanAlready(s: string)
    requires forall k :: 0 <= k < |s| ==> s[k] != ' ' && !('A' <= s[k] <= 'Z')
    ensures Clean(s) == s
  {
    NoSpaces(s);
  }

  lemma CleanNumber(n: nat)
    ensures Clean(Print(n)) == Print(n)
  {
    forall k | 0 <= k < |Print(n)| ensures Print(n)[k] != ' ' && !('A' <= Print(n)[k] <= 'Z') {
      assert IsDigit(Print(n)[k]);
    }
    CleanAlready(Print(n));
  }

  /** What a part of the printed form is without its space. */
  lemma CleanPart(num: nat, name: string)
    requires Clean(name) == name
    ensures Clean(Print(num) + " " + name) == Print(num) + name
  {
    CleanConcat(Print(num) + " ", name);
    CleanConcat(Print(num), " ");
    CleanNumber(num);
    assert WithoutSpaces(" ") == "" by { assert " "[1..] == ""; }
    assert Clean(" ") == "";
  }

  function Flat(parts: seq<string>): string {
    if parts == [] then "" else Clean(parts[0]) + Flat(parts[1..])
  }

  lemma {:induction false} FlatAppend(parts: seq<string>, last: string)
    ensures Flat(parts + [last]) == Flat(parts) + Clean(last)
  {
    if parts == [] {
      assert parts + [last] == [last] && [last][1..] == [];
    } else {
      assert (parts + [last])[1..] == parts[1..] + [last];
      FlatAppend(parts[1..], last);
    }
  }

  /** The spaces between parts do not matter. */
  lemma {:induction false} CleanJoin(parts: seq<string>)
    ensures Clean(Join(parts)) == Flat(parts)
  {
    if parts == [] {
    } else if |parts| == 1 {
      assert parts[1..] == [];
    } else {
      CleanJoin(parts[1..]);
      CleanConcat(parts[0] + " ", Join(parts[1..]));
      CleanConcat(parts[0], " ");
      assert WithoutSpaces(" ") == "" by { assert " "[1..] == ""; }
      assert Clean(" ") == "";
    }
  }

  lemma CleanName(u: Unit, num: nat)
    requires u != Invalid
    ensures Clean(UnitText(u, num)) == UnitText(u, num) && Letters(UnitText(u, num)) && UnitOf(UnitText(u, num)) == u
  {
    SmallLetters(u, num);
    CleanAlready(UnitText(u, num));
  }

  lemma SmallLetters(u: Unit, num: nat)
    requires u != Invalid
    ensures UnitText(u, num) != "" && forall k :: 0 <= k < |UnitText(u, num)| ==> 'a' <= UnitText(u, num)[k] <= 'z'
  {
  }

  lemma FlatAppended(parts: seq<string>, num: nat, u: Unit)
    requires u != Invalid
    ensures Flat(Appended(parts, num, u)) == Flat(parts) + Piece(num, UnitText(u, num))
  {
    if num >= 1 {
      CleanName(u, num);
      CleanPart(num, UnitText(u, num));
      FlatAppend(parts, Print(num) + " " + UnitText(u, num));
    }
  }

  // ---------------------------------------------------------------- round trips

  function Pieces(d: Duration): string {
    Piece(d.years, UnitText(Year, d.years)) + (Piece(d.months, UnitText(Month, d.months))
      + (Piece(d.weeks, UnitText(Week, d.weeks)) + (Piece(d.days, UnitText(Day, d.days)) + "")))
  }

  lemma CleanString(d: Duration)
    requires !d.Zero()
    ensures Clean(String(d)) == Pieces(d)
  {
    var p1 := Appended([], d.years, Year);
    var p2 := Appended(p1, d.months, Month);
    var p3 := Appended(p2, d.weeks, Week);
    var p4 := Appended(p3, d.days, Day);
    FlatAppended([], d.years, Year);
    FlatAppended(p1, d.months, Month);
    FlatAppended(p2, d.weeks, Week);
    FlatAppended(p3, d.days, Day);
    assert p4 != [];
    CleanJoin(p4);
    Reassociate(Piece(d.years, UnitText(Year, d.years)), Piece(d.months, UnitText(Month, d.months)),
                Piece(d.weeks, UnitText(Week, d.weeks)), Piece(d.days, UnitText(Day, d.days)));
  }

  lemma Reassociate(a: string, b: string, c: string, d: string)
    ensures "" + a + b + c + d == a + (b + (c + (d + "")))
  {
  }

  lemma OneGroup(number: string, name: string)
    requires IsNumber(number) && Letters(name)
    ensures Groups(number + name) == [Group(number, name)]
  {
    GroupsOf(number, name, "");
    assert number + name + "" == number + name;
  }

  lemma FillOne(g: Group)
    requires IsNumber(g.number) && UnitOf(g.name) != Invalid
    ensures Fill(ZERO, [g]) == Parsed(Set(ZERO, UnitOf(g.name), Atoi(g.number)))
  {
    assert [g][0] == g && [g][1..] == [];
  }

  lemma CleanZeroDays()
    ensures Clean("0 days") == "0" + "days" && Print(0) == "0" && Value("0") == 0
  {
    CleanAlready("days");
    CleanPart(0, "days");
    assert Print(0) == "0" && "0" + " " + "days" == "0 days";
  }

  lemma ZeroDaysParse()
    ensures ParseText("0 days") == Parsed(ZERO)
  {
    CleanZeroDays();
    OneGroup("0", "days");
    FillOne(Group("0", "days"));
    assert |"0" + "days"| == 5;
  }

  /** Reading a printed duration gives that duration. */
  lemma StringRoundTrip(d: Duration)
    requires d.Fits()
    ensures ParseText(String(d)) == Parsed(d)
  {
    if d.Zero() {
      ZeroDaysParse();
    } else {
      CleanString(d);
      CleanName(Year, d.years);
      CleanName(Month, d.months);
      CleanName(Week, d.weeks);
      CleanName(Day, d.days);
      FillPieces(d.years, d.months, d.weeks, d.days,
                 UnitText(Year, d.years), UnitText(Month, d.months), UnitText(Week, d.weeks), UnitText(Day, d.days));
      assert Fill(ZERO, Groups(Pieces(d))) == Parsed(d);
    }
  }

  lemma {:induction false} FilledFits(d: Duration, gs: seq<Group>)
    requires d.Fits() && forall g <- gs :: IsNumber(g.number)
    ensures Fill(d, gs).Parsed? ==> Fill(d, gs).d.Fits()
    decreases |gs|
  {
    if gs != [] {
      var r := Step(d, gs[0]);
      if r.Parsed? {
        FilledFits(r.d, gs[1..]);
      }
    }
  }

  /** Saving the normal form of what was typed and reading it again gives what was typed. */
  lemma NormalFormKeepsMeaning(text: string)
    requires ParseText(text).Parsed?
    ensures ParseText(String(ParseText(text).d)) == ParseText(text)
  {
    FilledFits(ZERO, Groups(Clean(text)));
    StringRoundTrip(ParseText(text).d);
  }

  // ---------------------------------------------------------------- the machine-readable form

  lemma CleanMarked(num: int, upper: string, name: string)
    requires Clean(upper) == name
    ensures Clean(Part(num, upper)) == Piece(if num > 0 then num else 0, name)
  {
    if num > 0 {
      CleanConcat(Print(num), upper);
      CleanNumber(num);
    }
  }

  lemma CleanLetters()
    ensures Clean("P") == "p" && Clean("Y") == "y" && Clean("M") == "m" && Clean("W") == "w" && Clean("D") == "d"
  {
    NoSpaces("P");
    NoSpaces("Y");
    NoSpaces("M");
    NoSpaces("W");
    NoSpaces("D");
  }

  lemma SkipMark(rest: string)
    ensures Groups("p" + rest) == Groups(rest)
  {
    assert ("p" + rest)[1..] == rest;
  }

  /** Anything marked with a P is read as what follows the P, if that has any number. */
  lemma MarkedText(text: string, rest: string)
    requires Clean(text) == "p" + rest && Groups(rest) != []
    ensures ParseText(text) == Fill(ZERO, Groups(rest))
  {
    SkipMark(rest);
    assert ("p" + rest)[0] == 'p';
  }

  /** What is read back from the usual form: years, months, and a number of days. */
  function ReadBack(d: Duration): Duration {
    Duration(d.years, d.months, 0, if TotalDays(d) > 0 then TotalDays(d) else 0)
  }

  lemma CleanUsual(d: Duration)
    ensures Clean("P" + Part(d.years, "Y") + Part(d.months, "M") + Part(TotalDays(d), "D"))
         == "p" + (Piece(d.years, "y") + (Piece(d.months, "m") + (Piece(0, "w") + (Piece(ReadBack(d).days, "d") + ""))))
  {
    var a, b, c := Part(d.years, "Y"), Part(d.months, "M"), Part(TotalDays(d), "D");
    CleanConcat("P" + a + b, c);
    CleanConcat("P" + a, b);
    CleanConcat("P", a);
    CleanLetters();
    CleanMarked(d.years, "Y", "y");
    CleanMarked(d.months, "M", "m");
    CleanMarked(TotalDays(d), "D", "d");
    Regroup(Piece(d.years, "y"), Piece(d.months, "m"), Piece(ReadBack(d).days, "d"));
  }

  lemma Regroup(a: string, b: string, c: string)
    ensures "p" + a + b + c == "p" + (a + (b + (Piece(0, "w") + (c + ""))))
  {
  }

  lemma UsualForm(d: Duration)
    requires d.Fits() && !ReadBack(d).Zero()
    ensures ParseText("P" + Part(d.years, "Y") + Part(d.months, "M") + Part(TotalDays(d), "D")) == Parsed(ReadBack(d))
  {
    var r := ReadBack(d);
    var rest := Piece(d.years, "y") + (Piece(d.months, "m") + (Piece(0, "w") + (Piece(r.days, "d") + "")));
    CleanUsual(d);
    FillPieces(d.years, d.months, 0, r.days, "y", "m", "w", "d");
    assert Fill(ZERO, []) == Parsed(ZERO);
    MarkedText("P" + Part(d.years, "Y") + Part(d.months, "M") + Part(TotalDays(d), "D"), rest);
  }

  predicate OnlyWeeks(d: Duration) {
    d.weeks > 0 && d.years == 0 && d.months == 0 && d.days == 0
  }

  lemma WeeksForm(d: Duration)
    requires d.Fits() && OnlyWeeks(d)
    ensures ParseText(RFC3339(d)) == Parsed(d)
  {
    var n := Print(d.weeks);
    CleanConcat("P" + n, "W");
    CleanConcat("P", n);
    CleanNumber(d.weeks);
    CleanLetters();
    assert Clean(RFC3339(d)) == "p" + (n + "w");
    OneGroup(n, "w");
    FillOne(Group(n, "w"));
    MarkedText(RFC3339(d), n + "w");
  }

  lemma ZeroForm()
    ensures ParseText("P0D") == Parsed(ZERO)
  {
    CleanConcat("P" + "0", "D");
    CleanConcat("P", "0");
    CleanAlready("0");
    CleanLetters();
    assert "P" + "0" + "D" == "P0D" && "p" + "0" + "d" == "p" + ("0" + "d");
    CleanZeroDays();
    OneGroup("0", "d");
    FillOne(Group("0", "d"));
    MarkedText("P0D", "0" + "d");
  }

  /** Same years, same months, and as many days when weeks are counted as seven. */
  predicate SamePeriod(r: Result, d: Duration) {
    r.Parsed? && r.d.years == d.years && r.d.months == d.months && r.d.weeks * 7 + r.d.days == d.weeks * 7 + d.days
  }

  /** The machine-readable form is read back as the same period exactly when days and weeks together fit an int, or
      there are only weeks. */
  lemma RFC3339RoundTrip(d: Duration)
    requires d.Fits()
    ensures SamePeriod(ParseText(RFC3339(d)), d) <==> d.weeks * 7 + d.days <= MAX_INT || OnlyWeeks(d)
  {
    if d.Zero() {
      ZeroForm();
    } else if OnlyWeeks(d) {
      WeeksForm(d);
    } else if !ReadBack(d).Zero() {
      UsualForm(d);
      UsualPeriod(d);
    } else {
      EmptyForm(d);
    }
  }

  /** A 64-bit sum is the sum exactly when that fits. */
  lemma UsualPeriod(d: Duration)
    requires d.Fits()
    ensures SamePeriod(Parsed(ReadBack(d)), d) <==> d.weeks * 7 + d.days <= MAX_INT
  {
    assert TotalDays(d) <= MAX_INT;
  }

  /** When the sum of days and weeks wraps and nothing else is printed, only the P is left, which is not a period. */
  lemma EmptyForm(d: Duration)
    requires d.Fits() && !d.Zero() && !OnlyWeeks(d) && ReadBack(d).Zero()
    ensures ParseText(RFC3339(d)).Error? && d.weeks * 7 + d.days > MAX_INT
  {
    assert RFC3339(d) == "P";
    CleanLetters();
    assert "p"[1..] == "";
  }
}
