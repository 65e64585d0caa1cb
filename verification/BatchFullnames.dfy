/** The full names of batches, batch_MARCORGCODE_KEYWORD_ver## (src/schema/schema.go). */
module BatchFullnames {
  import opened Decimal

  datatype Parsed = Invalid(why: string) | Batchname(marcOrgCode: string, keyword: string, version: int)

  /** strings.Split at underscores. */
  function Split(s: string): (parts: seq<string>)
    ensures parts != []
  {
    if s == "" then [""]
    else
      var rest := Split(s[1..]);
      if s[0] == '_' then [""] + rest else [[s[0]] + rest[0]] + rest[1..]
  }

  /** strings.Join with underscores. */
  function Join(parts: seq<string>): string {
    if parts == [] then "" else if |parts| == 1 then parts[0] else parts[0] + "_" + Join(parts[1..])
  }

  /** strconv.Atoi of two characters, 0 for an error. */
  function TwoCharacters(s: string): int
    requires |s| == 2
  {
    if IsNumber(s) then Value(s)
    else if s[0] == '+' && IsDigit(s[1]) then DigitValue(s[1])
    else if s[0] == '-' && IsDigit(s[1]) then 0 - DigitValue(s[1])
    else 0
  }

  /** %02d */
  function VersionText(version: int): string {
    if version < 0 then "-" + Print(-version) else Pad(version, 2)
  }

  function Named(marcOrgCode: string, keyword: string, v: string): string {
    "batch" + "_" + (marcOrgCode + "_" + (keyword + "_" + ("ver" + v)))
  }

  function Fullname(marcOrgCode: string, keyword: string, version: int): string {
    Named(marcOrgCode, keyword, VersionText(version))
  }

  function ParseBatchname(fullname: string): Parsed {
    var parts := Split(fullname);
    var l := |parts|;
    if l < 4 then Invalid("invalid batch format")
    else if parts[0] != "batch" then Invalid("batches must begin with \"batch_\"")
    else
      var ver := parts[l - 1];
      if |ver| != 5 || ver[..3] != "ver" then Invalid("invalid version format")
      else
        var version := TwoCharacters(ver[3..]);
        if version < 1 then Invalid("invalid version value") else Batchname(parts[1], Join(parts[2..l - 1]), version)
  }

  lemma {:induction false} SplitFront(a: string, b: string)
    requires '_' !in a
    ensures Split(a + "_" + b) == [a] + Split(b)
  {
    var s := a + "_" + b;
    if a == "" {
      assert s[1..] == b;
    } else {
      SplitFront(a[1..], b);
      assert s[1..] == a[1..] + "_" + b;
      assert a == [a[0]] + a[1..];
    }
  }

  lemma {:induction false} SplitBack(a: string, b: string)
    requires '_' !in b
    ensures Split(a + "_" + b) == Split(a) + [b]
  {
    var s := a + "_" + b;
    if a == "" {
      assert s[1..] == b;
      NoUnderscore(b);
    } else {
      SplitBack(a[1..], b);
      assert s[1..] == a[1..] + "_" + b;
    }
  }

  lemma {:induction false} NoUnderscore(s: string)
    requires '_' !in s
    ensures Split(s) == [s]
  {
    if s != "" {
      NoUnderscore(s[1..]);
      assert s == [s[0]] + s[1..];
    }
  }

  lemma {:induction false} PartsHaveNone(s: string, k: nat)
    requires k < |Split(s)|
    ensures '_' !in Split(s)[k]
  {
    if s != "" {
      if s[0] == '_' {
        if k > 0 {
          PartsHaveNone(s[1..], k - 1);
        }
      } else {
        PartsHaveNone(s[1..], k);
      }
    }
  }

  lemma {:induction false} JoinSplit(s: string)
    ensures Join(Split(s)) == s
  {
    if s != "" {
      var rest := Split(s[1..]);
      JoinSplit(s[1..]);
      assert s == [s[0]] + s[1..];
      if s[0] == '_' {
        assert ([""] + rest)[1..] == rest;
      } else {
        var parts := [[s[0]] + rest[0]] + rest[1..];
        assert parts[1..] == rest[1..];
      }
    }
  }

  lemma {:induction false} JoinBack(parts: seq<string>, last: string)
    requires parts != []
    ensures Join(parts + [last]) == Join(parts) + "_" + last
  {
    assert (parts + [last])[1..] == parts[1..] + [last];
    if |parts| > 1 {
      JoinBack(parts[1..], last);
    }
  }

  lemma NamedSplits(marcOrgCode: string, keyword: string, v: string)
    requires '_' !in marcOrgCode && '_' !in v
    ensures Split(Named(marcOrgCode, keyword, v)) == ["batch", marcOrgCode] + Split(keyword) + ["ver" + v]
  {
    var ver := "ver" + v;
    SplitFront("batch", marcOrgCode + "_" + (keyword + "_" + ver));
    SplitFront(marcOrgCode, keyword + "_" + ver);
    SplitBack(keyword, ver);
  }

  lemma NamedParsed(marcOrgCode: string, keyword: string, v: string)
    requires '_' !in marcOrgCode && '_' !in v && |v| == 2 && TwoCharacters(v) >= 1
    ensures ParseBatchname(Named(marcOrgCode, keyword, v)) == Batchname(marcOrgCode, keyword, TwoCharacters(v))
  {
    var parts, ver := Split(Named(marcOrgCode, keyword, v)), "ver" + v;
    NamedSplits(marcOrgCode, keyword, v);
    JoinSplit(keyword);
    assert parts[2..|parts| - 1] == Split(keyword);
    assert ver[..3] == "ver" && ver[3..] == v;
  }

  lemma VersionParts(version: int)
    ensures '_' !in VersionText(version)
    ensures |VersionText(version)| == 2 && TwoCharacters(VersionText(version)) == version <== 1 <= version <= 99
    ensures |VersionText(version)| == 2 && TwoCharacters(VersionText(version)) == version && version >= 1 ==>
          version <= 99
  {
    assert Pow10(2) == 100;
    if 1 <= version {
      if version <= 99 {
        PadLength(version, 2);
      } else {
        ValueBelowPow10(VersionText(version));
      }
    }
  }

  /** Parsing a batch's full name gives the batch back exactly when its MARC org code has no underscore and its version
      is 1 to 99; the keyword may be anything. */
  lemma FullnameRoundTrip(marcOrgCode: string, keyword: string, version: int)
    ensures ParseBatchname(Fullname(marcOrgCode, keyword, version)) == Batchname(marcOrgCode, keyword, version)
       <==> '_' !in marcOrgCode && 1 <= version <= 99
  {
    var full, v := Fullname(marcOrgCode, keyword, version), VersionText(version);
    VersionParts(version);
    if '_' in marcOrgCode {
      if |Split(full)| >= 4 {
        PartsHaveNone(full, 1);
      }
    } else if 1 <= version <= 99 {
      NamedParsed(marcOrgCode, keyword, v);
    } else {
      NamedSplits(marcOrgCode, keyword, v);
      assert ("ver" + v)[3..] == v;
    }
  }

  lemma PartsPrinted(fullname: string)
    requires |Split(fullname)| >= 4
    ensures var parts := Split(fullname); var l := |parts|;
            fullname == parts[0] + "_" + (parts[1] + "_" + (Join(parts[2..l - 1]) + "_" + parts[l - 1]))
  {
    var parts := Split(fullname);
    var l := |parts|;
    JoinSplit(fullname);
    assert parts[1..][1..] == parts[2..];
    assert parts[2..] == parts[2..l - 1] + [parts[l - 1]];
    JoinBack(parts[2..l - 1], parts[l - 1]);
  }

  /** A name that is accepted prints back to itself exactly when its version is written in digits: "ver+5" is accepted
      too. */
  lemma ParsedNameRoundTrip(fullname: string)
    requires ParseBatchname(fullname).Batchname?
    ensures |fullname| >= 2
    ensures var b := ParseBatchname(fullname);
            Fullname(b.marcOrgCode, b.keyword, b.version) == fullname <==> IsNumber(fullname[|fullname| - 2..])
  {
    var b := ParseBatchname(fullname);
    var parts := Split(fullname);
    var ver := parts[|parts| - 1];
    PartsPrinted(fullname);
    assert fullname[|fullname| - 5..] == ver;
    assert fullname[|fullname| - 2..] == ver[3..];
    if IsNumber(ver[3..]) {
      PadOfValue(ver[3..]);
      assert ver == "ver" + VersionText(b.version);
    }
  }

  // ---------------------------------------------------------------- which names are accepted

  /** Two digits, or a plus and a digit; not zero. */
  predicate VersionForm(v: string) {
    && |v| == 2 && IsDigit(v[1])
    && ((IsDigit(v[0]) && v != "00") || (v[0] == '+' && v[1] != '0'))
  }

  lemma VersionsExactly(v: string)
    requires |v| == 2
    ensures TwoCharacters(v) >= 1 <==> VersionForm(v)
  {
    assert v[..1] == [v[0]] && v == [v[0], v[1]];
    if IsNumber(v) {
      assert Value(v[..1]) == 10 * Value(v[..1][..0]) + DigitValue(v[0]);
      assert Value(v) == 10 * DigitValue(v[0]) + DigitValue(v[1]);
      assert v == "00" <==> v[0] == '0' && v[1] == '0';
    }
  }

  lemma FormIsAccepted(marcOrgCode: string, keyword: string, v: string)
    requires '_' !in marcOrgCode && VersionForm(v)
    ensures ParseBatchname(Named(marcOrgCode, keyword, v)) == Batchname(marcOrgCode, keyword, TwoCharacters(v))
  {
    VersionsExactly(v);
    NamedParsed(marcOrgCode, keyword, v);
  }

  lemma AcceptedHasForm(fullname: string) returns (marcOrgCode: string, keyword: string, v: string)
    requires ParseBatchname(fullname).Batchname?
    ensures '_' !in marcOrgCode && VersionForm(v) && fullname == Named(marcOrgCode, keyword, v)
  {
    var parts := Split(fullname);
    var ver := parts[|parts| - 1];
    marcOrgCode, keyword, v := parts[1], Join(parts[2..|parts| - 1]), ver[3..];
    PartsHaveNone(fullname, 1);
    VersionsExactly(v);
    PartsPrinted(fullname);
    assert ver == "ver" + v;
  }

  /** A name is accepted exactly when it is batch, an organisation code without an underscore, a keyword, and ver with a
      version of two characters, all joined by underscores. */
  lemma NamesAcceptedExactly(fullname: string)
    ensures ParseBatchname(fullname).Batchname? <==>
            exists marcOrgCode, keyword, v ::
              '_' !in marcOrgCode && VersionForm(v) && fullname == Named(marcOrgCode, keyword, v)
  {
    if ParseBatchname(fullname).Batchname? {
      var marcOrgCode, keyword, v := AcceptedHasForm(fullname);
      assert fullname == Named(marcOrgCode, keyword, v);
    }
    forall marcOrgCode, keyword, v
      | '_' !in marcOrgCode && VersionForm(v) && fullname == Named(marcOrgCode, keyword, v)
      ensures ParseBatchname(fullname).Batchname?
    {
      FormIsAccepted(marcOrgCode, keyword, v);
    }
  }
}
