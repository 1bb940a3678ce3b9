/**
 * The statement classifier of `parse_sql_statements`: each segmented
 * statement goes to the DDL list, to the DML list, or is dropped, according
 * to keyword tests on its upper-cased lead line.
 */
module Classifier {
  import opened Text
  import Segmenter

  datatype StatementClass = Ddl | Dml | Discarded

  /** Prefixes that make a lead line DDL. */
  const DdlKeywords: seq<string> := [
    "CREATE", "ALTER", "DROP", "TRUNCATE", "RENAME",
    "GRANT", "REVOKE", "COMMENT", "INDEX", "VIEW",
    "PROCEDURE", "FUNCTION", "TRIGGER", "SCHEMA", "DATABASE",
    "USE DATABASE", "USE SCHEMA"
  ]

  /** Standalone words that make a lead line DDL. */
  const DdlWords: seq<string> := ["CREATE", "ALTER", "DROP", "GRANT", "REVOKE"]

  /** Prefixes that make a lead line DML. */
  const DmlKeywords: seq<string> := [
    "INSERT", "UPDATE", "DELETE", "MERGE", "UPSERT",
    "SELECT", "CALL", "EXEC", "EXECUTE"
  ]

  /** Standalone words that make a lead line DML. */
  const DmlWords: seq<string> := ["INSERT", "UPDATE", "DELETE", "MERGE"]

  /** The raw prefix test: `CREATED_AT` starts with `CREATE`. */
  predicate StartsWithAny(s: string, keywords: seq<string>) {
    exists k :: 0 <= k < |keywords| && StartsWith(s, keywords[k])
  }

  /**
   * The "standalone word" test: the word padded with single spaces occurs in
   * the line padded with single spaces; only the space character separates.
   */
  predicate StandaloneWord(s: string, word: string) {
    Contains(" " + s + " ", " " + word + " ")
  }

  predicate HasStandaloneWord(s: string, words: seq<string>) {
    exists k :: 0 <= k < |words| && StandaloneWord(s, words[k])
  }

  predicate IsDdlLine(upper: string) {
    StartsWithAny(upper, DdlKeywords) || HasStandaloneWord(upper, DdlWords)
  }

  predicate IsDmlLine(upper: string) {
    StartsWithAny(upper, DmlKeywords) || HasStandaloneWord(upper, DmlWords)
  }

  /** The class the keyword tests give an upper-cased lead line; DDL is tested first. */
  function ClassifyLead(upper: string): StatementClass {
    if IsDdlLine(upper) then Ddl else if IsDmlLine(upper) then Dml else Discarded
  }

  /** A line that can be a lead line: non-blank once trimmed and not opening with `--` or a block-comment opener. */
  predicate IsCodeLine(line: string) {
    var t := Strip(line);
    t != "" && !StartsWith(t, "--") && !StartsWith(t, "/*")
  }

  /** The position of the first code line, if any. */
  function LeadIndex(lines: seq<string>): (r: Option<nat>)
    ensures r.Some? ==> r.value < |lines| && IsCodeLine(lines[r.value])
                        && forall j :: 0 <= j < r.value ==> !IsCodeLine(lines[j])
    ensures r.None? ==> forall j :: 0 <= j < |lines| ==> !IsCodeLine(lines[j])
  {
    if lines == [] then None
    else if IsCodeLine(lines[0]) then Some(0)
    else match LeadIndex(lines[1..])
      case None => None
      case Some(k) => Some(k + 1)
  }

  /** The trimmed lead line of a statement, or "" when it has none. */
  function LeadLine(stmt: string): string {
    var lines := Lines(stmt);
    match LeadIndex(lines)
    case None => ""
    case Some(k) => Strip(lines[k])
  }

  /** The first test: a statement that opens with `--` and mentions neither CREATE nor INSERT. */
  predicate IsCommentBlock(stmt: string) {
    StartsWith(Strip(stmt), "--") && !Contains(Upper(stmt), "CREATE") && !Contains(Upper(stmt), "INSERT")
  }

  /** Where a segmented statement goes. */
  function Classify(stmt: string): StatementClass {
    if stmt == "" || IsCommentBlock(stmt) then Discarded
    else if LeadLine(stmt) == "" then Discarded
    else ClassifyLead(Upper(LeadLine(stmt)))
  }

  /** The items that `f` puts in class `c`, in their original order. */
  function Filter(f: string -> StatementClass, xs: seq<string>, c: StatementClass): seq<string> {
    if xs == [] then []
    else Filter(f, xs[..|xs| - 1], c) + (if f(xs[|xs| - 1]) == c then [xs[|xs| - 1]] else [])
  }

  lemma FilterSnoc(f: string -> StatementClass, xs: seq<string>, x: string, c: StatementClass)
    ensures Filter(f, xs + [x], c) == Filter(f, xs, c) + (if f(x) == c then [x] else [])
  {
    assert (xs + [x])[..|xs|] == xs;
  }

  lemma {:induction false} FilterMembership(f: string -> StatementClass, xs: seq<string>, c: StatementClass, x: string)
    ensures x in Filter(f, xs, c) <==> x in xs && f(x) == c
  {
    if xs != [] {
      FilterMembership(f, xs[..|xs| - 1], c, x);
      assert xs == xs[..|xs| - 1] + [xs[|xs| - 1]];
    }
  }

  lemma {:induction false} FilterAppend(f: string -> StatementClass, a: seq<string>, b: seq<string>, c: StatementClass)
    ensures Filter(f, a + b, c) == Filter(f, a, c) + Filter(f, b, c)
    decreases |b|
  {
    if b == [] {
      assert a + b == a;
    } else {
      var init := b[..|b| - 1];
      assert (a + b)[..|a + b| - 1] == a + init;
      FilterAppend(f, a, init, c);
    }
  }

  lemma {:induction false} FilterPartition(f: string -> StatementClass, xs: seq<string>)
    ensures |Filter(f, xs, Ddl)| + |Filter(f, xs, Dml)| + |Filter(f, xs, Discarded)| == |xs|
  {
    if xs != [] {
      FilterPartition(f, xs[..|xs| - 1]);
    }
  }

  /** The statements of class `c`, in their original order. */
  function Select(stmts: seq<string>, c: StatementClass): seq<string> {
    Filter(Classify, stmts, c)
  }

  lemma SelectSnoc(stmts: seq<string>, x: string, c: StatementClass)
    ensures Select(stmts + [x], c) == Select(stmts, c) + (if Classify(x) == c then [x] else [])
  {
    FilterSnoc(Classify, stmts, x, c);
  }

  /** The lead-line search of lines 159-165. */
  method FindLeadLine(stmt: string) returns (sqlLine: string)
    ensures sqlLine == LeadLine(stmt)
  {
    var stmtLines := Lines(stmt);
    sqlLine := "";
    var j := 0;
    while j < |stmtLines|
      invariant 0 <= j <= |stmtLines|
      invariant forall i :: 0 <= i < j ==> !IsCodeLine(stmtLines[i])
    {
      var stripped := Strip(stmtLines[j]);
      if stripped != "" && !StartsWith(stripped, "--") && !StartsWith(stripped, "/*") {
        sqlLine := stripped;
        LeadIndexAt(stmtLines, j);
        return;
      }
      j := j + 1;
    }
  }

  lemma LeadIndexAt(lines: seq<string>, j: nat)
    requires j < |lines| && IsCodeLine(lines[j])
    requires forall i :: 0 <= i < j ==> !IsCodeLine(lines[i])
    ensures LeadIndex(lines) == Some(j)
  {
  }

  /** The tests of lines 154-184 applied to one statement. */
  method ClassifyStatement(stmt: string) returns (c: StatementClass)
    ensures c == Classify(stmt)
  {
    if stmt == []
      || (StartsWith(Strip(stmt), "--") && !Contains(Upper(stmt), "CREATE") && !Contains(Upper(stmt), "INSERT"))
    {
      return Discarded;
    }
    var sqlLine := FindLeadLine(stmt);
    if sqlLine == "" {
      return Discarded;
    }
    var stmtUpper := Upper(sqlLine);
    var isDdl := StartsWithAny(stmtUpper, DdlKeywords) || HasStandaloneWord(stmtUpper, DdlWords);
    var isDml := StartsWithAny(stmtUpper, DmlKeywords) || HasStandaloneWord(stmtUpper, DmlWords);
    if isDdl {
      c := Ddl;
    } else if isDml {
      c := Dml;
    } else {
      c := Discarded;
    }
  }

  /** The loop of lines 150-184: each statement goes to the list of its class, in order. */
  method Partition(statements: seq<string>) returns (ddl: seq<string>, dml: seq<string>)
    ensures ddl == Select(statements, Ddl)
    ensures dml == Select(statements, Dml)
  {
    ddl, dml := [], [];
    for i := 0 to |statements|
      invariant ddl == Select(statements[..i], Ddl)
      invariant dml == Select(statements[..i], Dml)
    {
      var stmt := statements[i];
      assert statements[..i + 1] == statements[..i] + [stmt];
      var c := ClassifyStatement(stmt);
      SelectSnoc(statements[..i], stmt, Ddl);
      SelectSnoc(statements[..i], stmt, Dml);
      if c == Ddl {
        ddl := ddl + [stmt];
      } else if c == Dml {
        dml := dml + [stmt];
      }
    }
    assert statements[..|statements|] == statements;
  }

  /**
   * `parse_sql_statements` (lines 93-189): segment the script, then sort each
   * statement into the DDL list, the DML list, or nowhere.
   */
  method ParseSqlStatements(sqlContent: string) returns (ddl: seq<string>, dml: seq<string>)
    ensures ddl == Select(Segmenter.Statements(sqlContent), Ddl)
    ensures dml == Select(Segmenter.Statements(sqlContent), Dml)
  {
    var statements := Segmenter.SplitStatements(sqlContent);
    ddl, dml := Partition(statements);
  }

  // ---------------------------------------------------------------------
  // Properties of the classification

  /** A statement is in the list of class `c` exactly when it is a segmented statement of class `c`. */
  lemma SelectMembership(stmts: seq<string>, c: StatementClass, x: string)
    ensures x in Select(stmts, c) <==> x in stmts && Classify(x) == c
  {
    FilterMembership(Classify, stmts, c, x);
  }

  /** No statement lands in both the DDL and the DML list. */
  lemma DdlAndDmlDisjoint(sqlContent: string, x: string)
    ensures !(x in Select(Segmenter.Statements(sqlContent), Ddl) && x in Select(Segmenter.Statements(sqlContent), Dml))
  {
    SelectMembership(Segmenter.Statements(sqlContent), Ddl, x);
    SelectMembership(Segmenter.Statements(sqlContent), Dml, x);
  }

  /** Selection keeps document order: it distributes over concatenation. */
  lemma SelectAppend(a: seq<string>, b: seq<string>, c: StatementClass)
    ensures Select(a + b, c) == Select(a, c) + Select(b, c)
  {
    FilterAppend(Classify, a, b, c);
  }

  /** Every statement is counted once: in DDL, in DML, or among the dropped ones. */
  lemma SelectPartition(stmts: seq<string>)
    ensures |Select(stmts, Ddl)| + |Select(stmts, Dml)| + |Select(stmts, Discarded)| == |stmts|
  {
    FilterPartition(Classify, stmts);
  }

  /** A line that passes both the DDL and the DML test is DDL. */
  lemma DdlWinsTie(upper: string)
    requires IsDdlLine(upper) && IsDmlLine(upper)
    ensures ClassifyLead(upper) == Ddl
  {
  }

  /**
   * A statement is dropped exactly when it is empty, is a comment block
   * without CREATE or INSERT, has no lead line, or its lead line passes
   * neither keyword test.
   */
  lemma DroppedIff(stmt: string)
    ensures Classify(stmt) == Discarded <==>
      || stmt == ""
      || IsCommentBlock(stmt)
      || LeadIndex(Lines(stmt)).None?
      || (!IsDdlLine(Upper(LeadLine(stmt))) && !IsDmlLine(Upper(LeadLine(stmt))))
  {
    match LeadIndex(Lines(stmt))
    case None =>
    case Some(k) =>
      assert LeadLine(stmt) != "";
  }

  /**
   * The keyword tests look only at the upper-cased lead line: two statements
   * that pass the comment-block test and whose lead lines agree once
   * upper-cased land in the same list.
   */
  lemma ClassDependsOnLeadLine(s1: string, s2: string)
    requires s1 != "" && s2 != "" && !IsCommentBlock(s1) && !IsCommentBlock(s2)
    requires LeadLine(s1) != "" && LeadLine(s2) != ""
    requires Upper(LeadLine(s1)) == Upper(LeadLine(s2))
    ensures Classify(s1) == Classify(s2)
  {
  }

  /**
   * The prefix test is raw: a lead line that merely begins with a DDL keyword
   * is DDL, whatever follows the keyword.
   */
  lemma RawPrefixIsDdl(upper: string, k: nat)
    requires k < |DdlKeywords| && StartsWith(upper, DdlKeywords[k])
    ensures ClassifyLead(upper) == Ddl
  {
  }

  /** Likewise a lead line that begins with a DML keyword and passes no DDL test is DML. */
  lemma RawPrefixIsDml(upper: string, k: nat)
    requires k < |DmlKeywords| && StartsWith(upper, DmlKeywords[k]) && !IsDdlLine(upper)
    ensures ClassifyLead(upper) == Dml
  {
  }

  /** An instance of the raw prefix test: a column definition opening with CREATED_AT counts as CREATE. */
  lemma CreatedAtIsDdl(rest: string)
    ensures ClassifyLead("CREATED_AT" + rest) == Ddl
  {
    assert ("CREATED_AT" + rest)[..6] == DdlKeywords[0];
    RawPrefixIsDdl("CREATED_AT" + rest, 0);
  }

  /**
   * Only the space character separates words: a word right behind any other
   * character (a tab, `(`, `,`) is not a standalone word of that text.
   */
  lemma OnlySpaceSeparatesWords(c: char, w: string)
    requires c != ' ' && w != [] && c !in w
    ensures !StandaloneWord([c] + w, w)
  {
    var t, p := " " + ([c] + w) + " ", " " + w + " ";
    forall i
      ensures !OccursAt(t, p, i)
    {
      if 0 <= i && i + |p| <= |t| {
        if i == 0 {
          assert t[1] == c && p[1] == w[0] && t[i..i + |p|][1] == t[1];
        } else {
          assert t[i..i + |p|][0] == t[1] == c;
        }
      }
    }
    FindSpec(t, p);
  }

  /** The instance the DDL fallback meets: `(CREATE` does not hold the word `CREATE`. */
  lemma ParenthesisedCreateIsNoWord()
    ensures !StandaloneWord("(CREATE", "CREATE")
  {
    OnlySpaceSeparatesWords('(', "CREATE");
    assert "(CREATE" == ['('] + "CREATE";
  }
}
