/** Reading an issue's line of a report back (Issue.TSV, Title.TSV and Batch.TSV in src/schema/schema.go). */
module IssueReports {
  import opened Decimal
  import opened FinderCache
  import opened IssueKeys
  import JobModel
  import BatchFullnames

  /** The fields of a line, which a character separates. */
  function Fields(s: string, separator: char): (c: seq<string>)
    ensures c != []
  {
    if s == "" then [""]
    else
      var rest := Fields(s[1..], separator);
      if s[0] == separator then [""] + rest else [[s[0]] + rest[0]] + rest[1..]
  }

  /** Fields, put together again. */
  function Line(fields: seq<string>, separator: char): string
    requires fields != []
  {
    if |fields| == 1 then fields[0] else fields[0] + ([separator] + Line(fields[1..], separator))
  }

  predicate Within(fields: seq<string>, separator: char) {
    exists k :: 0 <= k < |fields| && separator in fields[k]
  }

  lemma {:induction false} FieldsOfOne(a: string, separator: char)
    requires separator !in a
    ensures Fields(a, separator) == [a]
  {
    if a != "" {
      FieldsOfOne(a[1..], separator);
      assert a == [a[0]] + a[1..];
    }
  }

  lemma {:induction false} FieldsJoined(a: string, s: string, separator: char)
    requires separator !in a
    ensures Fields(a + ([separator] + s), separator) == [a] + Fields(s, separator)
  {
    var t := a + ([separator] + s);
    if a == "" {
      assert t[0] == separator && t[1..] == s;
    } else {
      FieldsJoined(a[1..], s, separator);
      assert t[0] == a[0] && t[1..] == a[1..] + ([separator] + s);
      assert a == [a[0]] + a[1..];
    }
  }

  /** There is a field more than there are separators. */
  lemma {:induction false} FieldsCounted(s: string, separator: char)
    ensures |Fields(s, separator)| == multiset(s)[separator] + 1
  {
    if s != "" {
      FieldsCounted(s[1..], separator);
      assert s == [s[0]] + s[1..];
    }
  }

  lemma {:induction false} LineReadsBack(fields: seq<string>, separator: char)
    requires fields != [] && !Within(fields, separator)
    ensures Fields(Line(fields, separator), separator) == fields
  {
    assert separator !in fields[0];
    if |fields| == 1 {
      FieldsOfOne(fields[0], separator);
    } else {
      assert !Within(fields[1..], separator) by {
        assert forall k :: 0 <= k < |fields[1..]| ==> fields[1..][k] == fields[k + 1];
      }
      LineReadsBack(fields[1..], separator);
      FieldsJoined(fields[0], Line(fields[1..], separator), separator);
    }
  }

  lemma {:induction false} SeparatorsInLine(fields: seq<string>, separator: char)
    requires fields != []
    ensures multiset(Line(fields, separator))[separator] >= |fields| - 1
    ensures Within(fields, separator) ==> multiset(Line(fields, separator))[separator] >= |fields|
  {
    if |fields| > 1 {
      SeparatorsInLine(fields[1..], separator);
      if k :| 0 <= k < |fields| && separator in fields[k] {
        assert k > 0 ==> fields[1..][k - 1] == fields[k];
      }
    }
  }

  /** Fields can be read back from their line exactly when none has the separator in it. */
  lemma LineReadsBackExactly(fields: seq<string>, separator: char)
    requires fields != []
    ensures Fields(Line(fields, separator), separator) == fields <==> !Within(fields, separator)
  {
    if Within(fields, separator) {
      SeparatorsInLine(fields, separator);
      FieldsCounted(Line(fields, separator), separator);
    } else {
      LineReadsBack(fields, separator);
    }
  }

  lemma {:induction false} EscapedHasNoTab(s: string)
    ensures '\t' !in Escaped(s)
  {
    if s != "" {
      EscapedHasNoTab(s[1..]);
    }
  }

  /** A backslash and a t become a tab. */
  function Unescaped(s: string): string {
    if s == "" then ""
    else if 2 <= |s| && s[0] == '\\' && s[1] == 't' then "\t" + Unescaped(s[2..])
    else [s[0]] + Unescaped(s[1..])
  }

  lemma {:induction false} EscapedReadsBack(s: string)
    requires '\\' !in s
    ensures Unescaped(Escaped(s)) == s
  {
    if s != "" {
      EscapedReadsBack(s[1..]);
      assert '\\' !in s[1..] && s[0] != '\\';
      var front := if s[0] == '\t' then "\\t" else [s[0]];
      var e := front + Escaped(s[1..]);
      assert e[|front|..] == Escaped(s[1..]);
      assert Unescaped(e) == [s[0]] + Unescaped(Escaped(s[1..]));
    }
  }

  lemma NumbersArePlain(n: nat, width: nat, c: char)
    requires !IsDigit(c)
    ensures c !in Pad(n, width)
  {
  }

  /** Neither tab nor backslash. */
  predicate Plain(s: string) {
    '\t' !in s && '\\' !in s
  }

  lemma PlainNumber(n: nat)
    ensures Plain(Pad(n, 6))
  {
    NumbersArePlain(n, 6, '\t');
    NumbersArePlain(n, 6, '\\');
  }

  // ---------------------------------------------------------------- titles, batches and file names

  function TitleColumns(t: Title): seq<string>
    reads t
  {
    [t.location, t.lccn, t.name, t.place, Pad(|t.issues|, 6)]
  }

  function BatchColumns(b: Batch): seq<string>
    reads b
  {
    [b.location, BatchFullnames.Fullname(b.marcOrgCode, b.keyword, b.version), Pad(|b.issues|, 6)]
  }

  lemma LineOfThree(a: string, b: string, c: string, separator: char)
    ensures Line([a, b, c], separator) == a + [separator] + b + [separator] + c
  {
    assert [a, b, c][1..] == [b, c] && [b, c][1..] == [c];
    assert Line([b, c], separator) == b + ([separator] + c);
  }

  lemma LineOfFive(a: string, b: string, c: string, d: string, e: string, separator: char)
    ensures Line([a, b, c, d, e], separator)
         == a + [separator] + b + [separator] + c + [separator] + d + [separator] + e
  {
    assert [a, b, c, d, e][1..] == [b, c, d, e] && [b, c, d, e][1..] == [c, d, e];
    LineOfThree(c, d, e, separator);
    assert Line([b, c, d, e], separator) == b + ([separator] + Line([c, d, e], separator));
  }

  lemma PlainReadsBack(tsv: string, columns: seq<string>)
    requires columns != [] && tsv == Line(columns, '\t') && '\\' !in tsv && !Within(columns, '\t')
    ensures Fields(Unescaped(Escaped(tsv)), '\t') == columns
  {
    EscapedReadsBack(tsv);
    LineReadsBack(columns, '\t');
  }

  /** A title's columns can be read back from the issue's. */
  lemma TitleReadsBack(t: Title)
    requires Plain(t.location) && Plain(t.lccn) && Plain(t.name) && Plain(t.place)
    ensures Fields(Unescaped(Escaped(TitleTSV(t))), '\t') == TitleColumns(t)
  {
    PlainNumber(|t.issues|);
    LineOfFive(t.location, t.lccn, t.name, t.place, Pad(|t.issues|, 6), '\t');
    PlainReadsBack(TitleTSV(t), TitleColumns(t));
  }

  lemma BatchReadsBack(b: Batch)
    requires Plain(b.location) && Plain(BatchFullnames.Fullname(b.marcOrgCode, b.keyword, b.version))
    ensures Fields(Unescaped(Escaped(BatchTSV(b))), '\t') == BatchColumns(b)
  {
    PlainNumber(|b.issues|);
    LineOfThree(b.location, BatchFullnames.Fullname(b.marcOrgCode, b.keyword, b.version), Pad(|b.issues|, 6), '\t');
    PlainReadsBack(BatchTSV(b), BatchColumns(b));
  }

  function FileNames(files: seq<File>): seq<string> {
    seq(|files|, i requires 0 <= i < |files| => files[i].name)
  }

  lemma {:induction false} NamesAreALine(files: seq<File>)
    requires files != []
    ensures JoinNames(files) == Line(FileNames(files), ',')
  {
    assert FileNames(files)[1..] == FileNames(files[1..]);
    if |files| > 1 {
      NamesAreALine(files[1..]);
    }
  }

  /** File names can be read back exactly when none has a comma in it. */
  lemma NamesReadBackExactly(files: seq<File>)
    requires files != []
    ensures Fields(JoinNames(files), ',') == FileNames(files) <==> !Within(FileNames(files), ',')
  {
    NamesAreALine(files);
    LineReadsBackExactly(FileNames(files), ',');
  }

  // ---------------------------------------------------------------- the whole line

  /** The six columns of an issue's line. */
  function Columns(i: Issue): seq<string>
    requires i.title != null
    reads i, i.title, i.batch
  {
    [if i.batch == null then "nil" else Escaped(BatchTSV(i.batch)), Escaped(TitleTSV(i.title)), i.location,
     IssueDateEdition(i.rawDate, i.edition), StepText(i.step), JoinNames(i.files)]
  }

  lemma LineOfSix(a: string, b: string, c: string, d: string, e: string, f: string, separator: char)
    ensures Line([a, b, c, d, e, f], separator)
         == a + [separator] + b + [separator] + c + [separator] + d + [separator] + e + [separator] + f
  {
    assert [a, b, c, d, e, f][1..] == [b, c, d, e, f];
    LineOfFive(b, c, d, e, f, separator);
  }

  lemma TSVIsALine(i: Issue)
    requires i.title != null
    ensures TSV(i) == Line(Columns(i), '\t')
  {
    var c := Columns(i);
    LineOfSix(c[0], c[1], c[2], c[3], c[4], c[5], '\t');
  }

  lemma WithinSix(columns: seq<string>, separator: char)
    requires |columns| == 6
    requires separator !in columns[0] && separator !in columns[1] && separator !in columns[4]
    ensures Within(columns, separator) <==>
            separator in columns[2] || separator in columns[3] || separator in columns[5]
  {
  }

  lemma StepHasNoTab(step: JobModel.WorkflowStep)
    ensures '\t' !in StepText(step)
  {
  }

  /** The other columns never have a tab. */
  lemma TabsAreEscaped(i: Issue)
    requires i.title != null
    ensures '\t' !in Columns(i)[0] && '\t' !in Columns(i)[1] && '\t' !in Columns(i)[4]
  {
    if i.batch != null {
      EscapedHasNoTab(BatchTSV(i.batch));
    }
    EscapedHasNoTab(TitleTSV(i.title));
    StepHasNoTab(i.step);
  }

  /** An issue's line has exactly the six columns unless there is a tab in its location, its date or a file's name. */
  lemma TSVReadsBackExactly(i: Issue)
    requires i.title != null
    ensures Fields(TSV(i), '\t') == Columns(i) <==>
            '\t' !in i.location && '\t' !in IssueDateEdition(i.rawDate, i.edition) && '\t' !in JoinNames(i.files)
  {
    TSVIsALine(i);
    LineReadsBackExactly(Columns(i), '\t');
    TabsAreEscaped(i);
    WithinSix(Columns(i), '\t');
  }

  lemma {:induction false} BackslashStays(s: string)
    requires '\t' in s
    ensures '\\' in Escaped(s)
  {
    if s[0] != '\t' {
      BackslashStays(s[1..]);
    }
  }

  /** "nil" stands for no batch only. */
  lemma NilIsNoBatch(i: Issue)
    requires i.title != null
    ensures Columns(i)[0] == "nil" <==> i.batch == null
  {
    if i.batch != null {
      assert BatchTSV(i.batch)[|i.batch.location|] == '\t';
      BackslashStays(BatchTSV(i.batch));
    }
  }
}
