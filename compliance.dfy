/**
 * `validate_snowflake_syntax`: the rule tables, the three lists of findings
 * (issues, warnings, good practices) and the rendered report.
 *
 * Some message texts longer than about forty characters are written as a
 * concatenation of shorter literals. The value is the same; the shorter
 * pieces keep the verifier's reasoning about each fixed text small.
 */
module Compliance {
  import opened Text
  import opened Patterns

  /** Unsupported features. */
  const IssueRules: seq<Rule> := [CreateIndex, AutoIncrement]

  /** Potentially problematic constructs. */
  const WarningRules: seq<Rule> := [CheckConstraint]

  /** Idiomatic constructs. */
  const GoodPracticeRules: seq<Rule> :=
    [CreateOrReplace, IfNotExists, TimestampTypes, NativeTypes, AutoIncrementNative]

  function Message(rule: Rule): string {
    match rule
    case CreateIndex =>
      "Snowflake uses automatic clustering, not traditional indexes. Use CLUSTER BY instead."
    case AutoIncrement =>
      "Snowflake uses AUTOINCREMENT (one word), not AUTO_INCREMENT."
    case CheckConstraint =>
      "CHECK constraints may have limitations in Snowflake. Verify with Snowflake docs."
    case CreateOrReplace =>
      "Uses CREATE OR REPLACE (Snowflake best practice)"
    case IfNotExists =>
      "Uses IF NOT EXISTS (Snowflake best practice)"
    case TimestampTypes =>
      "Uses Snowflake-specific timestamp types"
    case NativeTypes =>
      "Uses Snowflake data types"
    case AutoIncrementNative =>
      "Uses Snowflake AUTOINCREMENT syntax"
  }

  const IssuesHeader := "ISSUES FOUND:"
  const WarningsHeader := "WARNINGS:"
  const GoodPracticesHeader := "GOOD PRACTICES DETECTED:"
  const Dash := "  - "
  const Tick := "  \U{2713} "
  const CompliantVerdict: seq<string> :=
    ["\U{2713} SNOWFLAKE COMPLIANT", "Statement appears to follow " + "Snowflake documentation standards."]
  const ReviewVerdict: seq<string> :=
    ["\U{26A0} REVIEW REQUIRED", "Please verify against " + "Snowflake documentation: https://docs.snowflake.com/en/"]

  /** At most three good practices are rendered. */
  const MaxGoodPractices := 3

  /** The messages of the rules in `rules` whose pattern matches `s`, in table order. */
  function Detected(rules: seq<Rule>, s: string): seq<string> {
    if rules == [] then []
    else
      var last := rules[|rules| - 1];
      Detected(rules[..|rules| - 1], s) + (if Matches(last, s) then [Message(last)] else [])
  }

  /** Each item behind a bullet. */
  function Bulleted(bullet: string, items: seq<string>): seq<string> {
    if items == [] then []
    else Bulleted(bullet, items[..|items| - 1]) + [bullet + items[|items| - 1]]
  }

  /** The first `n` items (Python's `items[:n]`). */
  function Take(items: seq<string>, n: nat): seq<string> {
    if |items| <= n then items else items[..n]
  }

  /** A section of the report: present only when it has items, and closed by a blank line. */
  function Section(header: string, bullet: string, items: seq<string>): seq<string> {
    if items == [] then [] else [header] + Bulleted(bullet, items) + [""]
  }

  /** The lines of the report for the given findings. */
  function ReportLines(issues: seq<string>, warnings: seq<string>, goodPractices: seq<string>): seq<string> {
    Section(IssuesHeader, Dash, issues)
    + Section(WarningsHeader, Dash, warnings)
    + (if goodPractices == [] then []
       else [GoodPracticesHeader] + Bulleted(Tick, Take(goodPractices, MaxGoodPractices)) + [""])
    + (if issues == [] && warnings == [] then CompliantVerdict else ReviewVerdict)
  }

  function Issues(stmt: string): seq<string> { Detected(IssueRules, Upper(stmt)) }
  function Warnings(stmt: string): seq<string> { Detected(WarningRules, Upper(stmt)) }
  function GoodPractices(stmt: string): seq<string> { Detected(GoodPracticeRules, Upper(stmt)) }

  /** The `compliant` flag: no issue and no warning. */
  predicate IsCompliant(stmt: string) {
    Issues(stmt) == [] && Warnings(stmt) == []
  }

  function ValidationLines(stmt: string): seq<string> {
    ReportLines(Issues(stmt), Warnings(stmt), GoodPractices(stmt))
  }

  /** The string `validate_snowflake_syntax` returns. */
  function ValidationReport(stmt: string): string {
    Join(ValidationLines(stmt), "\n")
  }

  /** The messages of the rules in the table that match, collected by one of the loops of lines 229-241. */
  method CollectMatches(rules: seq<Rule>, sqlUpper: string) returns (found: seq<string>)
    ensures found == Detected(rules, sqlUpper)
  {
    found := [];
    for k := 0 to |rules|
      invariant found == Detected(rules[..k], sqlUpper)
    {
      assert rules[..k + 1][..k] == rules[..k];
      if Matches(rules[k], sqlUpper) {
        found := found + [Message(rules[k])];
      }
    }
    assert rules[..|rules|] == rules;
  }

  /** `parts` followed by each item behind a bullet, as the rendering loops of lines 248-261 append them. */
  method AppendBulleted(parts: seq<string>, bullet: string, items: seq<string>) returns (r: seq<string>)
    ensures r == parts + Bulleted(bullet, items)
  {
    r := parts;
    for k := 0 to |items|
      invariant r == parts + Bulleted(bullet, items[..k])
    {
      assert items[..k + 1][..k] == items[..k];
      r := r + [bullet + items[k]];
    }
    assert items[..|items|] == items;
  }

  /** The rendering of lines 244-269: the non-empty sections, then the verdict. */
  method RenderReport(issues: seq<string>, warnings: seq<string>, goodPractices: seq<string>)
    returns (validationParts: seq<string>)
    ensures validationParts == ReportLines(issues, warnings, goodPractices)
  {
    validationParts := [];
    if issues != [] {
      validationParts := AppendBulleted(validationParts + [IssuesHeader], Dash, issues);
      validationParts := validationParts + [""];
    }
    assert validationParts == Section(IssuesHeader, Dash, issues);
    ghost var afterIssues := validationParts;
    if warnings != [] {
      validationParts := AppendBulleted(validationParts + [WarningsHeader], Dash, warnings);
      validationParts := validationParts + [""];
    }
    assert validationParts == afterIssues + Section(WarningsHeader, Dash, warnings);
    ghost var afterWarnings := validationParts;
    if goodPractices != [] {
      validationParts := AppendBulleted(validationParts + [GoodPracticesHeader], Tick,
                                        Take(goodPractices, MaxGoodPractices));
      validationParts := validationParts + [""];
    }
    assert validationParts == afterWarnings
      + (if goodPractices == [] then []
         else [GoodPracticesHeader] + Bulleted(Tick, Take(goodPractices, MaxGoodPractices)) + [""]);
    if issues == [] && warnings == [] {
      validationParts := validationParts + CompliantVerdict;
    } else {
      validationParts := validationParts + ReviewVerdict;
    }
  }

  /** `validate_snowflake_syntax` (lines 192-271). */
  method ValidateSnowflakeSyntax(sqlStatement: string) returns (report: string)
    ensures report == ValidationReport(sqlStatement)
  {
    var sqlUpper := Upper(sqlStatement);
    var issues := CollectMatches(IssueRules, sqlUpper);
    var warnings := CollectMatches(WarningRules, sqlUpper);
    var goodPractices := CollectMatches(GoodPracticeRules, sqlUpper);

    var validationParts := RenderReport(issues, warnings, goodPractices);
    report := Join(validationParts, "\n");
  }

  // ---------------------------------------------------------------------
  // The verdict

  /** No message is found exactly when no rule of the table matches. */
  lemma {:induction false} DetectedEmptyIff(rules: seq<Rule>, s: string)
    ensures Detected(rules, s) == [] <==> forall k :: 0 <= k < |rules| ==> !Matches(rules[k], s)
  {
    if rules != [] {
      var init := rules[..|rules| - 1];
      DetectedEmptyIff(init, s);
      assert forall k :: 0 <= k < |init| ==> rules[k] == init[k];
    }
  }

  /**
   * A statement is compliant exactly when neither issue pattern nor the
   * warning pattern matches its upper-cased text; good practices play no part.
   */
  lemma CompliantIff(stmt: string)
    ensures IsCompliant(stmt) <==>
      !Matches(CreateIndex, Upper(stmt)) && !Matches(AutoIncrement, Upper(stmt))
      && !Matches(CheckConstraint, Upper(stmt))
  {
    DetectedEmptyIff(IssueRules, Upper(stmt));
    DetectedEmptyIff(WarningRules, Upper(stmt));
  }

  /** The report's last two lines are the compliant verdict exactly when the statement is compliant, and the review verdict otherwise. */
  lemma VerdictLines(stmt: string)
    ensures var lines := ValidationLines(stmt);
      && |lines| >= 2
      && (lines[|lines| - 2..] == CompliantVerdict <==> IsCompliant(stmt))
      && (lines[|lines| - 2..] == ReviewVerdict <==> !IsCompliant(stmt))
  {
    var i, w, g := Issues(stmt), Warnings(stmt), GoodPractices(stmt);
    var body := Section(IssuesHeader, Dash, i) + Section(WarningsHeader, Dash, w)
      + (if g == [] then [] else [GoodPracticesHeader] + Bulleted(Tick, Take(g, MaxGoodPractices)) + [""]);
    var verdict := if i == [] && w == [] then CompliantVerdict else ReviewVerdict;
    assert ValidationLines(stmt) == body + verdict;
    assert (body + verdict)[|body + verdict| - 2..] == verdict;
    assert CompliantVerdict[0] != ReviewVerdict[0];
  }

  /** Good practices never change the verdict: it depends on the issues and warnings alone. */
  lemma VerdictIgnoresGoodPractices(issues: seq<string>, warnings: seq<string>, g1: seq<string>, g2: seq<string>)
    ensures var l1, l2 := ReportLines(issues, warnings, g1), ReportLines(issues, warnings, g2);
      |l1| >= 2 && |l2| >= 2 && l1[|l1| - 2..] == l2[|l2| - 2..]
  {
  }

  /** Checking a statement or its upper-cased form gives the same report. */
  lemma ReportIgnoresCase(stmt: string)
    ensures ValidationReport(Upper(stmt)) == ValidationReport(stmt)
  {
    UpperIdempotent(stmt);
  }

  // ---------------------------------------------------------------------
  // Layout of the report

  /** The number of lines that begin with `bullet`. */
  function CountBullets(lines: seq<string>, bullet: string): nat {
    if lines == [] then 0
    else CountBullets(lines[..|lines| - 1], bullet) + (if StartsWith(lines[|lines| - 1], bullet) then 1 else 0)
  }

  lemma {:induction false} CountBulletsAppend(a: seq<string>, b: seq<string>, bullet: string)
    ensures CountBullets(a + b, bullet) == CountBullets(a, bullet) + CountBullets(b, bullet)
    decreases |b|
  {
    if b == [] {
      assert a + b == a;
    } else {
      assert (a + b)[..|a + b| - 1] == a + b[..|b| - 1];
      CountBulletsAppend(a, b[..|b| - 1], bullet);
    }
  }

  /** Every item behind a bullet counts once; items behind another bullet of the same length do not. */
  lemma {:induction false} CountOfBulleted(bullet: string, other: string, items: seq<string>)
    requires |bullet| == |other|
    ensures CountBullets(Bulleted(bullet, items), bullet) == |items|
    ensures bullet != other ==> CountBullets(Bulleted(other, items), bullet) == 0
  {
    if items != [] {
      var init := items[..|items| - 1];
      CountOfBulleted(bullet, other, init);
      CountBulletsAppend(Bulleted(bullet, init), [bullet + items[|items| - 1]], bullet);
      CountBulletsAppend(Bulleted(other, init), [other + items[|items| - 1]], bullet);
      assert (bullet + items[|items| - 1])[..|bullet|] == bullet;
      assert (other + items[|items| - 1])[..|bullet|] == other;
    }
  }

  /** Lines none of which begins with `bullet` count nothing. */
  lemma {:induction false} CountNoBullets(lines: seq<string>, bullet: string)
    requires forall k :: 0 <= k < |lines| ==> !StartsWith(lines[k], bullet)
    ensures CountBullets(lines, bullet) == 0
  {
    if lines != [] {
      CountNoBullets(lines[..|lines| - 1], bullet);
    }
  }

  /** A section counts the items behind `bullet` when `bullet` is the bullet counted, and nothing otherwise. */
  lemma SectionCount(header: string, bullet: string, items: seq<string>, counted: string)
    requires |bullet| == |counted| && |counted| > 0
    requires header != [] && header[0] != counted[0]
    ensures CountBullets(Section(header, bullet, items), counted)
            == if bullet == counted then |items| else 0
  {
    if items != [] {
      CountOfBulleted(counted, bullet, items);
      CountNoBullets([header], counted);
      CountNoBullets([""], counted);
      CountBulletsAppend([header], Bulleted(bullet, items), counted);
      CountBulletsAppend([header] + Bulleted(bullet, items), [""], counted);
    }
  }

  lemma VerdictsCountNoTicks()
    ensures CountBullets(CompliantVerdict, Tick) == 0 && CountBullets(ReviewVerdict, Tick) == 0
  {
    assert CompliantVerdict[0][0] == '\U{2713}' && CompliantVerdict[1][0] == 'S';
    assert ReviewVerdict[0][0] == '\U{26A0}' && ReviewVerdict[1][0] == 'P';
    assert Tick[0] == ' ';
    CountNoBullets(CompliantVerdict, Tick);
    CountNoBullets(ReviewVerdict, Tick);
  }

  /** Exactly the first three good practices (or all, if fewer) are rendered. */
  lemma GoodPracticeLinesCapped(issues: seq<string>, warnings: seq<string>, goodPractices: seq<string>)
    ensures CountBullets(ReportLines(issues, warnings, goodPractices), Tick)
            == if |goodPractices| < MaxGoodPractices then |goodPractices| else MaxGoodPractices
  {
    var s1 := Section(IssuesHeader, Dash, issues);
    var s2 := Section(WarningsHeader, Dash, warnings);
    var t := Take(goodPractices, MaxGoodPractices);
    var s3 := if goodPractices == [] then [] else [GoodPracticesHeader] + Bulleted(Tick, t) + [""];
    var v := if issues == [] && warnings == [] then CompliantVerdict else ReviewVerdict;
    assert ReportLines(issues, warnings, goodPractices) == s1 + s2 + s3 + v;
    assert Dash != Tick by { assert Dash[2] != Tick[2]; }
    SectionCount(IssuesHeader, Dash, issues, Tick);
    SectionCount(WarningsHeader, Dash, warnings, Tick);
    assert t == [] <==> goodPractices == [];
    assert s3 == Section(GoodPracticesHeader, Tick, t);
    SectionCount(GoodPracticesHeader, Tick, t, Tick);
    VerdictsCountNoTicks();
    CountBulletsAppend(s1, s2, Tick);
    CountBulletsAppend(s1 + s2, s3, Tick);
    CountBulletsAppend(s1 + s2 + s3, v, Tick);
  }

  /** Every bulleted line begins with its bullet. */
  lemma {:induction false} BulletedLines(bullet: string, items: seq<string>)
    ensures forall x :: x in Bulleted(bullet, items) ==> StartsWith(x, bullet)
  {
    if items != [] {
      BulletedLines(bullet, items[..|items| - 1]);
      var last := bullet + items[|items| - 1];
      assert last[..|bullet|] == bullet;
    }
  }

  /** A section header appears in the report exactly when its list is non-empty. */
  lemma HeadersPresentIff(issues: seq<string>, warnings: seq<string>, goodPractices: seq<string>)
    ensures var lines := ReportLines(issues, warnings, goodPractices);
      && (IssuesHeader in lines <==> issues != [])
      && (WarningsHeader in lines <==> warnings != [])
      && (GoodPracticesHeader in lines <==> goodPractices != [])
  {
    var t := Take(goodPractices, MaxGoodPractices);
    BulletedLines(Dash, issues);
    BulletedLines(Dash, warnings);
    BulletedLines(Tick, t);
    assert IssuesHeader[0] == 'I' && WarningsHeader[0] == 'W' && GoodPracticesHeader[0] == 'G';
    assert Dash[0] == ' ' && Tick[0] == ' ';
    assert CompliantVerdict[0][0] == '\U{2713}' && CompliantVerdict[1][0] == 'S';
    assert ReviewVerdict[0][0] == '\U{26A0}' && ReviewVerdict[1][0] == 'P';
  }
}
