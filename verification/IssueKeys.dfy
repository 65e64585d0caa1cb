/** Issue keys and search keys (src/schema/issuekey.go, src/schema/searchkey.go). */
module IssueKeys {
  import opened Decimal

  datatype Option<T> = None | Some(value: T)

  // ---------------------------------------------------------------- issue keys

  predicate AllDigits(s: string) {
    forall k :: 0 <= k < |s| ==> IsDigit(s[k])
  }

  /** strings.Replace of every hyphen by nothing. */
  function CondensedDate(raw: string): string {
    if raw == "" then ""
    else (if raw[0] == '-' then "" else [raw[0]]) + CondensedDate(raw[1..])
  }

  function IssueDateEdition(raw: string, edition: nat): string {
    CondensedDate(raw) + Pad(edition, 2)
  }

  function IssueKey(lccn: string, raw: string, edition: nat): string {
    lccn + "/" + IssueDateEdition(raw, edition)
  }

  /** YYYY-MM-DD. */
  predicate DateForm(raw: string) {
    && |raw| == 10
    && AllDigits(raw[..4]) && raw[4] == '-' && AllDigits(raw[5..7]) && raw[7] == '-' && AllDigits(raw[8..10])
  }

  lemma {:induction false} CondenseConcat(a: string, b: string)
    ensures CondensedDate(a + b) == CondensedDate(a) + CondensedDate(b)
  {
    if a == "" {
      assert a + b == b;
    } else {
      assert (a + b)[1..] == a[1..] + b;
      CondenseConcat(a[1..], b);
    }
  }

  lemma {:induction false} CondenseDigits(s: string)
    requires AllDigits(s)
    ensures CondensedDate(s) == s
  {
    if s != "" {
      assert IsDigit(s[0]);
      CondenseDigits(s[1..]);
    }
  }

  /** The condensed form of a date is its eight digits. */
  lemma CondensedForm(raw: string)
    requires DateForm(raw)
    ensures CondensedDate(raw) == raw[..4] + raw[5..7] + raw[8..10]
  {
    var y, m, d := raw[..4], raw[5..7], raw[8..10];
    assert raw == y + ("-" + (m + ("-" + d)));
    CondenseConcat(y, "-" + (m + ("-" + d)));
    CondenseConcat("-", m + ("-" + d));
    CondenseConcat(m, "-" + d);
    CondenseConcat("-", d);
    assert CondensedDate("-") == "" by {
      assert "-"[1..] == "";
    }
    CondenseDigits(y);
    CondenseDigits(m);
    CondenseDigits(d);
    assert CondensedDate(raw) == y + ("" + (m + ("" + d)));
  }

  // ---------------------------------------------------------------- search keys

  datatype Key = Key(source: string, lccn: string, year: nat, month: nat, day: nat, ed: nat)
  {
    /** Parts that are 0 are not printed. */
    function String(): string {
      lccn
      + (if year > 0 then "/" + Pad(year, 4) else "")
      + (if month > 0 then Pad(month, 2) else "")
      + (if day > 0 then Pad(day, 2) else "")
      + (if ed > 0 then Pad(ed, 2) else "")
    }
  }

  predicate IsWordChar(c: char) {
    '0' <= c <= '9' || 'A' <= c <= 'Z' || 'a' <= c <= 'z' || c == '_'
  }

  /** How many of the leading characters satisfy p. */
  function Run(s: string, p: char -> bool): (n: nat)
    ensures n <= |s| && (forall k :: 0 <= k < n ==> p(s[k])) && (n < |s| ==> !p(s[n]))
  {
    if s == "" || !p(s[0]) then 0 else
      var n := Run(s[1..], p);
      assert forall k :: 0 < k < n + 1 ==> s[k] == s[1..][k - 1];
      n + 1
  }

  predicate Leap(year: nat) {
    year % 4 == 0 && (year % 100 != 0 || year % 400 == 0)
  }

  function DaysIn(year: nat, month: nat): nat
    requires 1 <= month <= 12
  {
    if month == 2 then (if Leap(year) then 29 else 28)
    else if month in {4, 6, 9, 11} then 30
    else 31
  }

  /** Digits that time.Parse accepts for as much of "20060102" as there is. */
  predicate ValidDate(s: string)
    requires AllDigits(s) && |s| in {4, 6, 8}
  {
    var year, month, day := Value(s[..4]), if |s| >= 6 then Value(s[4..6]) else 1, if |s| == 8 then Value(s[6..8])
        else 1;
    1 <= month <= 12 && 1 <= day <= DaysIn(year, month)
  }

  /** Word characters, then perhaps a slash and digits; what follows is not looked at. */
  function ParseSearchKey(ik: string): Option<Key> {
    var n := Run(ik, IsWordChar);
    if n == 0 then None
    else
      var rest := ik[n..];
      var l := if rest != "" && rest[0] == '/' then Run(rest[1..], IsDigit) else 0;
      if l == 0 then Some(Key(ik, ik[..n], 0, 0, 0, 0))
      else ParseDate(ik, ik[..n], rest[1..][..l])
  }

  function ParseDate(ik: string, lccn: string, dt: string): Option<Key>
    requires AllDigits(dt)
  {
    if |dt| < 4 || |dt| > 10 || |dt| % 2 != 0 then None
    else if !ValidDate(if |dt| == 10 then dt[..8] else dt) then None
    else Some(Key(ik, lccn, Value(dt[..4]),
                  if |dt| >= 6 then Value(dt[4..6]) else 0,
                  if |dt| >= 8 then Value(dt[6..8]) else 0,
                  if |dt| == 10 then Value(dt[8..]) else 0))
  }

  predicate WordLCCN(lccn: string) {
    lccn != "" && forall k :: 0 <= k < |lccn| ==> IsWordChar(lccn[k])
  }

  /** A date of an issue whose key can be read back. */
  predicate WellFormed(lccn: string, raw: string, edition: nat) {
    && WordLCCN(lccn) && DateForm(raw) && edition <= 99
    && AllDigits(raw[..4] + raw[5..7] + raw[8..10])
    && ValidDate(raw[..4] + raw[5..7] + raw[8..10])
  }

  lemma {:induction false} RunStops(a: string, b: string, p: char -> bool)
    requires (forall k :: 0 <= k < |a| ==> p(a[k])) && (b != "" ==> !p(b[0]))
    ensures Run(a + b, p) == |a|
  {
    assert forall k :: 0 <= k < |a| ==> (a + b)[k] == a[k];
    assert b != "" ==> (a + b)[|a|] == b[0];
  }

  lemma DigitsOfAll(y: string, m: string, d: string, e: string)
    requires AllDigits(y) && AllDigits(m) && AllDigits(d) && AllDigits(e) && |y| == 4 && |m| == |d| == |e| == 2
    ensures var dt := y + m + d + e;
            AllDigits(dt) && dt[..4] == y && dt[4..6] == m && dt[6..8] == d && dt[8..] == e && dt[..8] == y + m + d
  {
  }

  lemma ParsedParts(lccn: string, dt: string)
    requires WordLCCN(lccn) && AllDigits(dt) && dt != ""
    ensures ParseSearchKey(lccn + "/" + dt) == ParseDate(lccn + "/" + dt, lccn, dt)
  {
    var ik := lccn + "/" + dt;
    assert ik == lccn + ("/" + dt);
    RunStops(lccn, "/" + dt, IsWordChar);
    var rest := ik[|lccn|..];
    assert rest == "/" + dt && rest[1..] == dt && ik[..|lccn|] == lccn;
    assert dt + "" == dt;
    RunStops(dt, "", IsDigit);
    assert dt[..|dt|] == dt;
  }

  /** Parsing an issue's key gives its LCCN and the numbers of its date and edition. */
  lemma ParsedIssueKey(lccn: string, raw: string, edition: nat)
    requires WellFormed(lccn, raw, edition)
    ensures ParseSearchKey(IssueKey(lccn, raw, edition))
         == Some(Key(IssueKey(lccn, raw, edition), lccn, Value(raw[..4]), Value(raw[5..7]), Value(raw[8..10]), edition))
  {
    var y, m, d, e := raw[..4], raw[5..7], raw[8..10], Pad(edition, 2);
    CondensedForm(raw);
    PadLength(edition, 2);
    var dt := y + m + d + e;
    assert IssueKey(lccn, raw, edition) == lccn + "/" + dt;
    DigitsOfAll(y, m, d, e);
    ParsedParts(lccn, dt);
  }

  lemma NumeralOfTwo(s: string)
    requires |s| == 2 && AllDigits(s)
    ensures Pad(Value(s), 2) == s
  {
    PadOfValue(s);
  }

  /** How a key made from numerals is printed. */
  lemma PrintedKey(source: string, lccn: string, y: string, m: string, d: string, ed: nat)
    requires AllDigits(y) && AllDigits(m) && AllDigits(d) && |y| == 4 && |m| == |d| == 2 && Value(m) > 0 && Value(d) > 0
    ensures Key(source, lccn, Value(y), Value(m), Value(d), ed).String()
         == lccn + (if Value(y) > 0 then "/" + y else "") + m + d + (if ed > 0 then Pad(ed, 2) else "")
  {
    PadOfValue(y);
    NumeralOfTwo(m);
    NumeralOfTwo(d);
  }

  lemma DatePartsPositive(raw: string)
    requires DateForm(raw) && AllDigits(raw[..4] + raw[5..7] + raw[8..10])
          && ValidDate(raw[..4] + raw[5..7] + raw[8..10])
    ensures Value(raw[5..7]) > 0 && Value(raw[8..10]) > 0
  {
    var s := raw[..4] + raw[5..7] + raw[8..10];
    assert s[4..6] == raw[5..7] && s[6..8] == raw[8..10];
  }

  lemma PrintedLength(lccn: string, y: string, m: string, d: string, e: string, withYear: bool, withEdition: bool)
    requires e != ""
    ensures withYear && withEdition <==>
            lccn + (if withYear then "/" + y else "") + m + d + (if withEdition then e else "")
            == lccn + ("/" + y) + m + d + e
  {
    var a, b := if withYear then "/" + y else "", if withEdition then e else "";
    assert |lccn + a + m + d + b| == |lccn| + |a| + |m| + |d| + |b|;
  }

  /** A well-formed issue's key, parsed and printed, is the same key exactly when its year and edition are not 0;
      other keys lose their zero parts, and with year 0 the slash as well. */
  lemma KeyRoundTrip(lccn: string, raw: string, edition: nat)
    requires WellFormed(lccn, raw, edition)
    ensures ParseSearchKey(IssueKey(lccn, raw, edition)).Some?
    ensures ParseSearchKey(IssueKey(lccn, raw, edition)).value.String() == IssueKey(lccn, raw, edition)
            <==> Value(raw[..4]) > 0 && edition > 0
  {
    var ik := IssueKey(lccn, raw, edition);
    ParsedIssueKey(lccn, raw, edition);
    DatePartsPositive(raw);
    KeyRoundTripParts(ik, lccn, raw, edition);
  }

  lemma Regroup(lccn: string, y: string, m: string, d: string, e: string)
    ensures lccn + "/" + (y + m + d + e) == lccn + ("/" + y) + m + d + e
  {
  }

  lemma KeyRoundTripParts(ik: string, lccn: string, raw: string, edition: nat)
    requires DateForm(raw) && Value(raw[5..7]) > 0 && Value(raw[8..10]) > 0 && ik == IssueKey(lccn, raw, edition)
    ensures Key(ik, lccn, Value(raw[..4]), Value(raw[5..7]), Value(raw[8..10]), edition).String() == ik <==>
          Value(raw[..4]) > 0 && edition > 0
  {
    var y, m, d, e := raw[..4], raw[5..7], raw[8..10], Pad(edition, 2);
    CondensedForm(raw);
    Regroup(lccn, y, m, d, e);
    PrintedKey(ik, lccn, y, m, d, edition);
    PrintedLength(lccn, y, m, d, e, Value(y) > 0, edition > 0);
  }

  /** No part follows a part that is 0. */
  predicate ZeroSuffix(k: Key) {
    && (k.year == 0 ==> k.month == 0)
    && (k.month == 0 ==> k.day == 0)
    && (k.day == 0 ==> k.ed == 0)
  }

  /** A parsed key has its zero parts at the end unless it names the year 0 and a month. */
  lemma ParsedZeroSuffix(ik: string)
    requires ParseSearchKey(ik).Some?
    ensures var k := ParseSearchKey(ik).value; ZeroSuffix(k) <==> k.year > 0 || k.month == 0
  {
    var n := Run(ik, IsWordChar);
    var rest := ik[n..];
    var l := if rest != "" && rest[0] == '/' then Run(rest[1..], IsDigit) else 0;
    if l > 0 {
      var dt := rest[1..][..l];
      var s := if |dt| == 10 then dt[..8] else dt;
      assert s[..4] == dt[..4];
      assert |s| >= 6 ==> s[4..6] == dt[4..6];
      assert |s| == 8 ==> s[6..8] == dt[6..8];
    }
  }

  // ---------------------------------------------------------------- which keys are accepted

  /** A day of the calendar. */
  predicate RealDay(year: nat, month: nat, day: nat) {
    1 <= day && (
      || (month in {1, 3, 5, 7, 8, 10, 12} && day <= 31)
      || (month in {4, 6, 9, 11} && day <= 30)
      || (month == 2 && day <= 28)
      || (month == 2 && day == 29 && year % 4 == 0 && (year % 100 == 0 ==> year % 400 == 0)))
  }

  /** Four to ten digits, in pairs: a year, a month, a day, an edition. */
  predicate DateDigits(dt: string)
    requires AllDigits(dt)
  {
    && |dt| in {4, 6, 8, 10}
    && (|dt| == 6 ==> 1 <= Value(dt[4..6]) <= 12)
    && (|dt| >= 8 ==> RealDay(Value(dt[..4]), Value(dt[4..6]), Value(dt[6..8])))
  }

  lemma DaysOfMonths(year: nat, month: nat, day: nat)
    ensures RealDay(year, month, day) <==> 1 <= month <= 12 && 1 <= day <= DaysIn(year, month)
  {
  }

  lemma DatesParsedExactly(ik: string, lccn: string, dt: string)
    requires AllDigits(dt)
    ensures ParseDate(ik, lccn, dt).Some? <==> DateDigits(dt)
  {
    if |dt| in {4, 6, 8, 10} {
      var s := if |dt| == 10 then dt[..8] else dt;
      assert s[..4] == dt[..4];
      assert |s| >= 6 ==> s[4..6] == dt[4..6];
      assert |s| == 8 ==> s[6..8] == dt[6..8];
      if |s| == 8 {
        DaysOfMonths(Value(dt[..4]), Value(dt[4..6]), Value(dt[6..8]));
      }
    }
  }

  lemma ParsedBefore(lccn: string, dt: string, tail: string)
    requires WordLCCN(lccn) && AllDigits(dt) && dt != "" && (tail == "" || !IsDigit(tail[0]))
    ensures ParseSearchKey(lccn + ("/" + (dt + tail))) == ParseDate(lccn + ("/" + (dt + tail)), lccn, dt)
  {
    var ik := lccn + ("/" + (dt + tail));
    RunStops(lccn, "/" + (dt + tail), IsWordChar);
    var rest := ik[|lccn|..];
    assert rest == "/" + (dt + tail) && rest[1..] == dt + tail && ik[..|lccn|] == lccn;
    RunStops(dt, tail, IsDigit);
    assert (dt + tail)[..|dt|] == dt;
  }

  /** A key with a date is accepted exactly when the digits are four to ten, in pairs, and name a real date; what
      comes after them does not matter. */
  lemma KeysAcceptedExactly(lccn: string, dt: string, tail: string)
    requires WordLCCN(lccn) && AllDigits(dt) && dt != "" && (tail == "" || !IsDigit(tail[0]))
    ensures ParseSearchKey(lccn + ("/" + (dt + tail))).Some? <==> DateDigits(dt)
  {
    ParsedBefore(lccn, dt, tail);
    DatesParsedExactly(lccn + ("/" + (dt + tail)), lccn, dt);
  }

  /** Without a slash and a digit right after the LCCN, only the LCCN is asked for; without an LCCN there is no key. */
  lemma KeysWithoutDate(lccn: string, tail: string)
    requires WordLCCN(lccn) && (tail == "" || !IsWordChar(tail[0]))
    requires !(2 <= |tail| && tail[0] == '/' && IsDigit(tail[1]))
    ensures ParseSearchKey(lccn + tail) == Some(Key(lccn + tail, lccn, 0, 0, 0, 0)) && ParseSearchKey(tail) == None
  {
    RunStops(lccn, tail, IsWordChar);
    assert (lccn + tail)[|lccn|..] == tail && (lccn + tail)[..|lccn|] == lccn;
  }
}
