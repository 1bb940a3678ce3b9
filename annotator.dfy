/**
 * `apply_banking_nomenclature`: the subject areas read off the nomenclature
 * text, the validation report turned into SQL comments, and the banner of
 * comments put in front of the statement.
 *
 * Some message texts longer than about forty characters are written as a
 * concatenation of shorter literals. The small lemmas named `...Plain` and
 * `...Quiet` each state one fact about one fixed text (it holds no newline;
 * it is a single comment line). The banner proofs cite them instead of
 * reopening the literals, which keeps the verifier's work small.
 */
module Annotator {
  import opened Text
  import Compliance

  /** The four subject areas, in the order the source tests them. */
  datatype SubjectArea = CustomerParty | AccountsProducts | Transactions | RiskRegulatory

  function Rank(a: SubjectArea): nat {
    match a
    case CustomerParty => 0
    case AccountsProducts => 1
    case Transactions => 2
    case RiskRegulatory => 3
  }

  const CustomerText := "Customer & party: cust, pty"
  const AccountsText := "Accounts & products: acct, prod, loan, dep"
  const TransactionsText := "Transactions: txn, pay, card, cash, trade"
  const RiskText := "Risk & regulatory: risk, reg, rwa, liq, npa"

  /** The summary line of an area. */
  function AreaText(a: SubjectArea): string {
    match a
    case CustomerParty => CustomerText
    case AccountsProducts => AccountsText
    case Transactions => TransactionsText
    case RiskRegulatory => RiskText
  }

  /** The area's keyword test on the lower-cased nomenclature text. */
  predicate Mentions(nomenclature: string, a: SubjectArea) {
    var lower := Lower(nomenclature);
    match a
    case CustomerParty => Contains(lower, "cust") || Contains(lower, "customer")
    case AccountsProducts => Contains(lower, "acct") || Contains(lower, "account")
    case Transactions => Contains(lower, "txn") || Contains(lower, "transaction")
    case RiskRegulatory => Contains(lower, "risk")
  }

  /** The areas that satisfy `m`, in the fixed order. */
  function AreasWhere(m: SubjectArea -> bool): seq<SubjectArea> {
    (if m(CustomerParty) then [CustomerParty] else [])
    + (if m(AccountsProducts) then [AccountsProducts] else [])
    + (if m(Transactions) then [Transactions] else [])
    + (if m(RiskRegulatory) then [RiskRegulatory] else [])
  }

  /** Each area satisfying `m` is listed once, in rank order, and no other. */
  lemma AreasWhereSpec(m: SubjectArea -> bool)
    ensures forall a :: a in AreasWhere(m) <==> m(a)
    ensures forall i, j :: 0 <= i < j < |AreasWhere(m)| ==> Rank(AreasWhere(m)[i]) < Rank(AreasWhere(m)[j])
  {
    forall a
      ensures a in AreasWhere(m) <==> m(a)
    {
      match a
      case CustomerParty =>
      case AccountsProducts =>
      case Transactions =>
      case RiskRegulatory =>
    }
  }

  /** The subject areas the nomenclature mentions, each once, in the fixed order (lines 299-307). */
  function SubjectAreas(nomenclature: string): (areas: seq<SubjectArea>)
    ensures forall a :: a in areas <==> Mentions(nomenclature, a)
    ensures forall i, j :: 0 <= i < j < |areas| ==> Rank(areas[i]) < Rank(areas[j])
  {
    var m := a => Mentions(nomenclature, a);
    AreasWhereSpec(m);
    AreasWhere(m)
  }

  const Fallback := "Standard banking nomenclature applied"

  function AreaTexts(areas: seq<SubjectArea>): (r: seq<string>)
    ensures |r| == |areas| && forall k :: 0 <= k < |areas| ==> r[k] == AreaText(areas[k])
  {
    seq(|areas|, k requires 0 <= k < |areas| => AreaText(areas[k]))
  }

  /** The summary of the given areas: their texts joined by newlines, or the fallback. */
  function SummaryOf(areas: seq<SubjectArea>): string {
    if areas == [] then Fallback else Join(AreaTexts(areas), "\n")
  }

  /** The nomenclature summary of line 310. */
  function Summary(nomenclature: string): string {
    SummaryOf(SubjectAreas(nomenclature))
  }

  /** A comment line. */
  function Comment(text: string): string {
    "-- " + text
  }

  /** One line of the validation report as a comment: a blank line becomes a bare `--`. */
  function CommentLine(line: string): string {
    if Strip(line) != "" then Comment(line) else "--"
  }

  function CommentLines(lines: seq<string>): (r: seq<string>)
    ensures |r| == |lines| && forall k :: 0 <= k < |lines| ==> r[k] == CommentLine(lines[k])
  {
    seq(|lines|, k requires 0 <= k < |lines| => CommentLine(lines[k]))
  }

  /** The validation report of the statement, commented line by line (lines 313-318). */
  function ValidationComment(sqlStatement: string): string {
    Join(CommentLines(Lines(Compliance.ValidationReport(sqlStatement))), "\n")
  }

  const Separator := Comment("==========================================")
  const SubjectAreasPrefix := Comment("Subject Areas: ")
  const TimestampPrefix := Comment("Timestamp: ")
  const ControlTitle := Comment("BANKING CONTROL: Nomenclature Applied")
  const AppliedNote := Comment("Applied banking nomenclature rules")
  const AuditNote := Comment("Audit Trail: This statement follows " + "banking data warehouse naming conventions")
  const ComplianceNote := Comment("Compliance: Ready for " + "banking regulatory audit")
  const SnowflakeTitle := Comment("SNOWFLAKE COMPLIANCE: Verified")
  const DocsNote := Comment("Snowflake Documentation: " + "https://docs.snowflake.com/en/")

  /** The lines of the banner template of lines 321-335. */
  function TemplateLines(summary: string, timestamp: string, validationComment: string): seq<string> {
    [ Separator,
      ControlTitle,
      Separator,
      AppliedNote,
      SubjectAreasPrefix + summary,
      TimestampPrefix + timestamp,
      AuditNote,
      ComplianceNote,
      Separator,
      SnowflakeTitle,
      Separator,
      DocsNote,
      validationComment,
      Separator ]
  }

  /** The template closed by a newline and an empty line (line 336). */
  function BannerLines(summary: string, timestamp: string, validationComment: string): seq<string> {
    TemplateLines(summary, timestamp, validationComment) + ["", ""]
  }

  /** The banner text for a given summary, timestamp and validation comment. */
  function BannerText(summary: string, timestamp: string, validationComment: string): string {
    Join(BannerLines(summary, timestamp, validationComment), "\n")
  }

  /** The banner for the statement; `timestamp` stands for the formatted current time. */
  function Banner(sqlStatement: string, nomenclature: string, timestamp: string): string {
    BannerText(Summary(nomenclature), timestamp, ValidationComment(sqlStatement))
  }

  /** The last lines of `text` are the lines of `stmt`, and a blank line precedes them. */
  predicate EndsWithStatement(text: string, stmt: string) {
    var lines, own := Lines(text), Lines(stmt);
    |lines| > |own| && lines[|lines| - |own|..] == own && lines[|lines| - |own| - 1] == ""
  }

  /**
   * A statement behind the banner built from the given summary, timestamp and
   * validation comment: the text begins with the banner's `-`, and the
   * statement's lines follow the banner's closing blank line unchanged.
   */
  function Annotated(summary: string, timestamp: string, validationComment: string, sqlStatement: string): (r: string)
    ensures r != [] && r[0] == '-'
    ensures EndsWithStatement(r, sqlStatement)
  {
    BannerTextStartsWithDash(summary, timestamp, validationComment, sqlStatement);
    AnnotationKeepsStatement(summary, timestamp, validationComment, sqlStatement);
    BannerText(summary, timestamp, validationComment) + sqlStatement
  }

  /**
   * `apply_banking_nomenclature` (lines 274-338): the banner, then the
   * statement; the text begins with the banner's `-` and ends with the
   * statement's own lines, after a blank line.
   */
  function ApplyBankingNomenclature(sqlStatement: string, nomenclature: string, timestamp: string): (r: string)
    ensures r != [] && r[0] == '-'
    ensures EndsWithStatement(r, sqlStatement)
  {
    Annotated(Summary(nomenclature), timestamp, ValidationComment(sqlStatement), sqlStatement)
  }

  // ---------------------------------------------------------------------
  // Subject areas

  /** The `customer` test adds nothing: every text mentioning `customer` mentions `cust`. */
  lemma CustomerTestRedundant(nomenclature: string)
    ensures Mentions(nomenclature, CustomerParty) <==> Contains(Lower(nomenclature), "cust")
  {
    var lower := Lower(nomenclature);
    if Contains(lower, "customer") {
      FindSpec(lower, "customer");
      var i := Find(lower, "customer");
      assert lower[i..i + 4] == lower[i..i + 8][..4];
      ContainsAt(lower, "cust", i);
    }
  }

  /** A single line that does not begin with `-`, so never a comment line. */
  predicate PlainLine(t: string) {
    '\n' !in t && t != [] && t[0] != '-'
  }

  lemma CustomerTextPlain() ensures PlainLine(CustomerText) {
    assert '\n' !in "Customer & party: cust, pty";
  }

  lemma AccountsTextPlain() ensures PlainLine(AccountsText) {
    assert '\n' !in "Accounts & products: acct, prod, loan, dep";
  }

  lemma TransactionsTextPlain() ensures PlainLine(TransactionsText) {
    assert '\n' !in "Transactions: txn, pay, card, cash, trade";
  }

  lemma RiskTextPlain() ensures PlainLine(RiskText) {
    assert '\n' !in "Risk & regulatory: risk, reg, rwa, liq, npa";
  }

  /** Every area text is a single line that does not begin with `-`. */
  lemma AreaTextPlain(a: SubjectArea)
    ensures PlainLine(AreaText(a))
  {
    match a
    case CustomerParty => CustomerTextPlain();
    case AccountsProducts => AccountsTextPlain();
    case Transactions => TransactionsTextPlain();
    case RiskRegulatory => RiskTextPlain();
  }

  lemma AreaTextsPlain(areas: seq<SubjectArea>)
    ensures forall k :: 0 <= k < |areas| ==> PlainLine(AreaTexts(areas)[k])
  {
    forall k | 0 <= k < |areas|
      ensures PlainLine(AreaTexts(areas)[k])
    {
      AreaTextPlain(areas[k]);
    }
  }

  /** The summary's lines are the area texts, one per area, or the fallback alone. */
  lemma SummaryLines(areas: seq<SubjectArea>)
    ensures Lines(SummaryOf(areas)) == if areas == [] then [Fallback] else AreaTexts(areas)
  {
    if areas == [] {
      assert '\n' !in Fallback;
      LinesOfLine(Fallback);
    } else {
      AreaTextsPlain(areas);
      LinesOfJoinedLines(AreaTexts(areas));
    }
  }

  // ---------------------------------------------------------------------
  // The validation comment

  /** Strips the comment marker `CommentLine` adds. */
  function Uncomment(line: string): string {
    if line == "--" then "" else if StartsWith(line, "-- ") then line[3..] else line
  }

  /** Commenting keeps the line readable: every comment line begins with `--`, and the marker comes off again for non-blank and empty lines. */
  lemma CommentLineRoundTrip(line: string)
    ensures StartsWith(CommentLine(line), "--")
    ensures '\n' !in line ==> '\n' !in CommentLine(line)
    ensures Strip(line) != "" || line == "" ==> Uncomment(CommentLine(line)) == line
  {
    if Strip(line) != "" {
      var c := Comment(line);
      assert c[..3] == "-- " && c[3..] == line;
      assert c[..2] == "--";
    }
  }

  /**
   * The physical lines of the validation comment are the report's lines,
   * each commented; every one of them begins with `--`.
   */
  lemma ValidationCommentLines(sqlStatement: string)
    ensures var report := Lines(Compliance.ValidationReport(sqlStatement));
      && Lines(ValidationComment(sqlStatement)) == CommentLines(report)
      && forall k :: 0 <= k < |report| ==> StartsWith(Lines(ValidationComment(sqlStatement))[k], "--")
  {
    var report := Lines(Compliance.ValidationReport(sqlStatement));
    var cs := CommentLines(report);
    forall k | 0 <= k < |report|
      ensures StartsWith(cs[k], "--") && '\n' !in cs[k]
    {
      CommentLineRoundTrip(report[k]);
    }
    LinesOfJoinedLines(cs);
  }

  // ---------------------------------------------------------------------
  // The banner

  /** A physical line that SQL ignores: blank or a `--` comment. */
  predicate IsCommentOrBlank(line: string) {
    line == "" || StartsWith(line, "--")
  }

  predicate AllCommentOrBlank(lines: seq<string>) {
    forall k :: 0 <= k < |lines| ==> IsCommentOrBlank(lines[k])
  }

  lemma AllCommentOrBlankAppend(a: seq<string>, b: seq<string>)
    ensures AllCommentOrBlank(a + b) <==> AllCommentOrBlank(a) && AllCommentOrBlank(b)
  {
    if AllCommentOrBlank(a + b) {
      forall k | 0 <= k < |a| ensures IsCommentOrBlank(a[k]) {
        assert a[k] == (a + b)[k];
      }
      forall k | 0 <= k < |b| ensures IsCommentOrBlank(b[k]) {
        assert b[k] == (a + b)[|a| + k];
      }
    }
    if AllCommentOrBlank(a) && AllCommentOrBlank(b) {
      forall k | 0 <= k < |a + b| ensures IsCommentOrBlank((a + b)[k]) {
        if k < |a| {
          assert (a + b)[k] == a[k];
        } else {
          assert (a + b)[k] == b[k - |a|];
        }
      }
    }
  }

  lemma {:induction false} FlatLinesComments(xs: seq<string>)
    ensures AllCommentOrBlank(FlatLines(xs)) <==> forall k :: 0 <= k < |xs| ==> AllCommentOrBlank(Lines(xs[k]))
  {
    if xs != [] {
      FlatLinesComments(xs[1..]);
      AllCommentOrBlankAppend(Lines(xs[0]), FlatLines(xs[1..]));
      assert forall k :: 1 <= k < |xs| ==> xs[k] == xs[1..][k - 1];
    }
  }

  /** A single line that is blank or a comment. */
  predicate QuietLine(line: string) {
    '\n' !in line && IsCommentOrBlank(line)
  }

  lemma QuietLineLines(line: string)
    requires QuietLine(line)
    ensures AllCommentOrBlank(Lines(line))
  {
    LinesOfLine(line);
  }

  lemma CommentQuiet(text: string)
    requires '\n' !in text
    ensures QuietLine(Comment(text))
  {
    assert Comment(text)[..2] == "--";
  }

  lemma SeparatorQuiet() ensures QuietLine(Separator) {
    CommentQuiet("==========================================");
  }

  lemma ControlTitleQuiet() ensures QuietLine(ControlTitle) {
    CommentQuiet("BANKING CONTROL: Nomenclature Applied");
  }

  lemma AppliedNoteQuiet() ensures QuietLine(AppliedNote) {
    CommentQuiet("Applied banking nomenclature rules");
  }

  lemma AuditNoteQuiet() ensures QuietLine(AuditNote) {
    CommentQuiet("Audit Trail: This statement follows " + "banking data warehouse naming conventions");
  }

  lemma ComplianceNoteQuiet() ensures QuietLine(ComplianceNote) {
    CommentQuiet("Compliance: Ready for " + "banking regulatory audit");
  }

  lemma SnowflakeTitleQuiet() ensures QuietLine(SnowflakeTitle) {
    CommentQuiet("SNOWFLAKE COMPLIANCE: Verified");
  }

  lemma DocsNoteQuiet() ensures QuietLine(DocsNote) {
    CommentQuiet("Snowflake Documentation: " + "https://docs.snowflake.com/en/");
  }

  /** Every line of the template other than the subject areas and the validation comment is a single comment or blank line. */
  lemma FixedBannerLines(summary: string, timestamp: string, validationComment: string)
    requires '\n' !in timestamp
    ensures var bl := BannerLines(summary, timestamp, validationComment);
      forall k :: 0 <= k < |bl| && k != 4 && k != 12 ==> QuietLine(bl[k])
  {
    SeparatorQuiet();
    ControlTitleQuiet();
    AppliedNoteQuiet();
    AuditNoteQuiet();
    ComplianceNoteQuiet();
    SnowflakeTitleQuiet();
    DocsNoteQuiet();
    TimestampPrefixQuiet();
    QuietAppend(TimestampPrefix, timestamp);
  }

  /** A newline-free comment prefix followed by newline-joined texts that are not comments: one comment line exactly when there is one text. */
  lemma PrefixedJoinLines(prefix: string, texts: seq<string>)
    requires QuietLine(prefix) && prefix != "" && texts != []
    requires forall k :: 0 <= k < |texts| ==> PlainLine(texts[k])
    ensures AllCommentOrBlank(Lines(prefix + Join(texts, "\n"))) <==> |texts| == 1
  {
    var j := Join(texts, "\n");
    LinesOfJoinedLines(texts);
    LinesPrefix(prefix, j);
    var first := prefix + texts[0];
    assert first[..2] == prefix[..2];
    AllCommentOrBlankAppend([first], texts[1..]);
    if |texts| >= 2 {
      assert texts[1..][0] == texts[1];
      assert !IsCommentOrBlank(texts[1]);
    }
  }

  lemma SubjectAreasPrefixQuiet() ensures QuietLine(SubjectAreasPrefix) && |SubjectAreasPrefix| >= 2 {
    CommentQuiet("Subject Areas: ");
  }

  lemma TimestampPrefixQuiet() ensures QuietLine(TimestampPrefix) && |TimestampPrefix| >= 2 {
    CommentQuiet("Timestamp: ");
  }

  /** A comment line extended by text without newlines is still one comment line. */
  lemma QuietAppend(line: string, text: string)
    requires QuietLine(line) && |line| >= 2 && '\n' !in text
    ensures QuietLine(line + text)
  {
    assert (line + text)[..2] == line[..2];
  }

  lemma FallbackPlain() ensures '\n' !in Fallback {
    assert '\n' !in "Standard banking nomenclature applied";
  }

  /** The subject-areas entry is one comment line exactly when at most one area is given. */
  lemma SubjectAreasLine(areas: seq<SubjectArea>)
    ensures AllCommentOrBlank(Lines(SubjectAreasPrefix + SummaryOf(areas))) <==> |areas| <= 1
  {
    SubjectAreasPrefixQuiet();
    if areas == [] {
      FallbackPlain();
      QuietAppend(SubjectAreasPrefix, Fallback);
      QuietLineLines(SubjectAreasPrefix + Fallback);
    } else {
      AreaTextsPlain(areas);
      PrefixedJoinLines(SubjectAreasPrefix, AreaTexts(areas));
    }
  }

  /** When every item but two is a single comment or blank line, the joined lines are all comment or blank exactly when those two items' lines are. */
  lemma QuietExcept(xs: seq<string>, i: nat, j: nat)
    requires i < |xs| && j < |xs|
    requires forall k :: 0 <= k < |xs| && k != i && k != j ==> QuietLine(xs[k])
    ensures AllCommentOrBlank(Lines(Join(xs, "\n")))
            <==> AllCommentOrBlank(Lines(xs[i])) && AllCommentOrBlank(Lines(xs[j]))
  {
    LinesOfJoin(xs);
    FlatLinesComments(xs);
    forall k | 0 <= k < |xs| && k != i && k != j
      ensures AllCommentOrBlank(Lines(xs[k]))
    {
      QuietLineLines(xs[k]);
    }
  }

  /** The banner is all comment and blank lines exactly when its subject-areas entry and its validation comment are. */
  lemma BannerTextComments(summary: string, timestamp: string, validationComment: string)
    requires '\n' !in timestamp
    ensures AllCommentOrBlank(Lines(BannerText(summary, timestamp, validationComment)))
            <==> AllCommentOrBlank(Lines(SubjectAreasPrefix + summary))
                 && AllCommentOrBlank(Lines(validationComment))
  {
    var bl := BannerLines(summary, timestamp, validationComment);
    FixedBannerLines(summary, timestamp, validationComment);
    QuietExcept(bl, 4, 12);
  }

  /**
   * With a single-line timestamp, the banner consists only of comment and
   * blank lines exactly when the nomenclature mentions at most one subject
   * area: two or more area texts are joined by bare newlines, so all but
   * the first land on lines of their own without the `--` marker.
   */
  lemma BannerIsCommentsIff(sqlStatement: string, nomenclature: string, timestamp: string)
    requires '\n' !in timestamp
    ensures AllCommentOrBlank(Lines(Banner(sqlStatement, nomenclature, timestamp)))
            <==> |SubjectAreas(nomenclature)| <= 1
  {
    BannerTextComments(Summary(nomenclature), timestamp, ValidationComment(sqlStatement));
    SubjectAreasLine(SubjectAreas(nomenclature));
    ValidationCommentLines(sqlStatement);
    assert AllCommentOrBlank(Lines(ValidationComment(sqlStatement)));
  }

  /** Two trailing empty items make the joined text end with a blank line, and whatever follows starts a line of its own. */
  lemma TrailingBlankLine(xs: seq<string>, s: string)
    requires xs != []
    ensures var ls := Lines(Join(xs + ["", ""], "\n"));
      && |ls| >= 2 && ls[|ls| - 1] == "" && ls[|ls| - 2] == ""
      && Lines(Join(xs + ["", ""], "\n") + s) == ls[..|ls| - 1] + Lines(s)
  {
    var j := Join(xs, "\n");
    JoinAppend(xs, ["", ""], "\n");
    assert Join(["", ""], "\n") == "\n";
    assert Join(xs + ["", ""], "\n") == (j + "\n" + "") + "\n" + "";
    assert Join(xs + ["", ""], "\n") + s == (j + "\n" + "") + "\n" + s;
    LinesSplit(j, "");
    LinesSplit(j + "\n" + "", "");
    LinesSplit(j + "\n" + "", s);
  }

  /** An annotated statement begins with the banner's first character, a `-`. */
  lemma BannerTextStartsWithDash(summary: string, timestamp: string, validationComment: string, sqlStatement: string)
    ensures var r := BannerText(summary, timestamp, validationComment) + sqlStatement;
      r != [] && r[0] == '-'
  {
    var bl := BannerLines(summary, timestamp, validationComment);
    JoinStartsWithFirst(bl, "\n");
    assert bl[0] == Separator;
    assert Separator[0] == '-';
    assert BannerText(summary, timestamp, validationComment)[0] == Separator[..|Separator|][0];
  }

  /**
   * The statement follows the banner unchanged, whatever the summary,
   * timestamp and validation comment: the annotated text's lines are the
   * banner's lines up to its final blank line, then the statement's own
   * lines. `ApplyBankingNomenclature(s, n, t)` is
   * `BannerText(Summary(n), t, ValidationComment(s)) + s`.
   */
  lemma AnnotationKeepsStatement(summary: string, timestamp: string, validationComment: string, sqlStatement: string)
    ensures var banner := Lines(BannerText(summary, timestamp, validationComment));
      && |banner| >= 2 && banner[|banner| - 1] == "" && banner[|banner| - 2] == ""
      && Lines(BannerText(summary, timestamp, validationComment) + sqlStatement)
         == banner[..|banner| - 1] + Lines(sqlStatement)
  {
    TrailingBlankLine(TemplateLines(summary, timestamp, validationComment), sqlStatement);
  }
}
