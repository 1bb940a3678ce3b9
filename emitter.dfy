/**
 * The pure part of `generate_ddl_file` and `generate_dml_file`: the output
 * file name derived from the input file name, the fixed header, and the body
 * made of annotated statements alternating with separators. Directories,
 * `mkdir` and the write itself are not modelled; a generated file is its name
 * and its content.
 */
module Emitter {
  import opened Text
  import Annotator

  datatype FileKind = DdlFile | DmlFile

  /** A file as the generators would write it. */
  datatype GeneratedFile = GeneratedFile(name: string, content: string)

  /**
   * `PurePath(name).stem` as computed up to Python 3.13: the name without its
   * last suffix. A dot in first or last position does not start a suffix
   * (Python 3.14 changed the trailing-dot case).
   */
  function Stem(name: string): string {
    var i := RFind(name, '.');
    if 0 < i < |name| - 1 then name[..i] else name
  }

  function KindWord(kind: FileKind): string {
    match kind
    case DdlFile => "DDL"
    case DmlFile => "DML"
  }

  /** `<stem>_DDL.sql` or `<stem>_DML.sql` (lines 369-370 and 455-456). */
  function OutputName(kind: FileKind, sourceName: string): string {
    Stem(sourceName) + "_" + KindWord(kind) + ".sql"
  }

  /** The separator appended after every annotated statement. */
  const StatementSeparator := "\n" + Annotator.Separator + "\n"

  function BankingNotes(kind: FileKind): seq<string> {
    match kind
    case DdlFile =>
      [ Annotator.Comment("- All table names follow banking nomenclature conventions"),
        Annotator.Comment("- Schema names use banking layer prefixes (stg_, dim_, fct_, etc.)"),
        Annotator.Comment("- Column names follow banking standard patterns"),
        Annotator.Comment("- Foreign keys maintain referential integrity"),
        Annotator.Comment("- Comments document business meaning") ]
    case DmlFile =>
      [ Annotator.Comment("- All data modifications are logged for audit"),
        Annotator.Comment("- Transaction boundaries are clearly defined"),
        Annotator.Comment("- Data validation rules are enforced"),
        Annotator.Comment("- Referential integrity is maintained"),
        Annotator.Comment("- Rollback procedures are documented") ]
  }

  function SnowflakeNotes(kind: FileKind): seq<string> {
    [Annotator.Comment("- All SQL syntax follows Snowflake documentation: https://docs.snowflake.com/en/")]
    + match kind
      case DdlFile =>
        [ Annotator.Comment("- Uses Snowflake-specific data types (VARCHAR, NUMBER, TIMESTAMP_NTZ, etc.)"),
          Annotator.Comment("- Uses Snowflake DDL syntax (CREATE OR REPLACE, IF NOT EXISTS, etc.)"),
          Annotator.Comment("- Compatible with Snowflake architecture and features"),
          Annotator.Comment("- No unsupported features (traditional indexes, certain CHECK constraints, etc.)") ]
      case DmlFile =>
        [ Annotator.Comment("- Uses Snowflake-specific DML syntax (MERGE, COPY INTO, etc.)"),
          Annotator.Comment("- Compatible with Snowflake transaction handling"),
          Annotator.Comment("- Uses Snowflake-specific functions and operations"),
          Annotator.Comment("- Optimized for Snowflake query execution") ]
  }

  function Instructions(kind: FileKind): seq<string> {
    [ Annotator.Comment("1. Review all statements before execution"),
      Annotator.Comment("2. Execute in Snowflake environment") ]
    + (match kind
       case DdlFile =>
         [ Annotator.Comment("3. Execute in order (respecting dependencies)"),
           Annotator.Comment("4. Verify constraints and relationships"),
           Annotator.Comment("5. Document any customizations") ]
       case DmlFile =>
         [ Annotator.Comment("3. Execute within transaction blocks where appropriate"),
           Annotator.Comment("4. Verify data integrity after execution"),
           Annotator.Comment("5. Document execution results") ])
    + [Annotator.Comment("6. Reference Snowflake docs if needed: https://docs.snowflake.com/en/")]
  }

  /** The lines of the header template after its opening separator (lines 375-406 and 461-492). */
  function HeaderLines(kind: FileKind, sourceName: string, timestamp: string): seq<string> {
    [ Annotator.Comment("BANKING DATA WAREHOUSE - " + KindWord(kind) + " STATEMENTS"),
      Annotator.Separator,
      Annotator.Comment("Source File: " + sourceName),
      Annotator.Comment("Generated: " + timestamp),
      Annotator.Comment("Banking Controls: Applied"),
      Annotator.Comment("Snowflake Compliance: Verified"),
      Annotator.Comment("Audit Trail: Ready for execution and audit"),
      Annotator.Separator,
      Annotator.Comment(""),
      Annotator.Comment("BANKING COMPLIANCE NOTES:") ]
    + BankingNotes(kind)
    + [Annotator.Comment(""), Annotator.Comment("SNOWFLAKE COMPLIANCE NOTES:")]
    + SnowflakeNotes(kind)
    + [Annotator.Comment(""), Annotator.Comment("EXECUTION INSTRUCTIONS:")]
    + Instructions(kind)
    + [Annotator.Comment(""), Annotator.Separator]
  }

  /**
   * The header: the template closed by a newline and an empty line.
   * `sourceName` is the input path's final component and `timestamp` the
   * formatted current time.
   */
  function Header(kind: FileKind, sourceName: string, timestamp: string): (h: string)
    ensures StartsWith(h, Annotator.Separator)
    ensures ClosedByBlankLine(h)
  {
    Framed(Annotator.Separator, HeaderLines(kind, sourceName, timestamp))
  }

  /** The line `first`, then the lines `rest`, joined by newlines and closed by a newline and an empty line. */
  function Framed(first: string, rest: seq<string>): (text: string)
    ensures StartsWith(text, first)
    ensures ClosedByBlankLine(text)
  {
    var lines := [first] + rest;
    JoinStartsWithFirst(lines + ["", ""], "\n");
    Annotator.TrailingBlankLine(lines, "");
    assert Join(lines + ["", ""], "\n") + "" == Join(lines + ["", ""], "\n");
    Join(lines + ["", ""], "\n")
  }

  /** The text ends with a newline and an empty line, so what follows starts after a blank line. */
  predicate ClosedByBlankLine(text: string) {
    var lines := Lines(text);
    |lines| >= 2 && lines[|lines| - 1] == "" && lines[|lines| - 2] == ""
  }

  /** `f` applied to every item, in order. */
  function MapAll(f: string -> string, xs: seq<string>): (r: seq<string>)
    ensures |r| == |xs|
  {
    if xs == [] then [] else MapAll(f, xs[..|xs| - 1]) + [f(xs[|xs| - 1])]
  }

  lemma {:induction false} MapAllAt(f: string -> string, xs: seq<string>, k: nat)
    requires k < |xs|
    ensures MapAll(f, xs)[k] == f(xs[k])
  {
    if k < |xs| - 1 {
      MapAllAt(f, xs[..|xs| - 1], k);
    }
  }

  /** Each statement annotated by `apply_banking_nomenclature`, in order. */
  function AnnotateAll(stmts: seq<string>, nomenclature: string, timestamp: string): (r: seq<string>)
    ensures |r| == |stmts|
  {
    MapAll(Annotation(nomenclature, timestamp), stmts)
  }

  /** `apply_banking_nomenclature` with the nomenclature and the timestamp fixed. */
  function Annotation(nomenclature: string, timestamp: string): string -> string {
    s => Annotator.ApplyBankingNomenclature(s, nomenclature, timestamp)
  }

  lemma MapAllSnoc(f: string -> string, xs: seq<string>, x: string)
    ensures MapAll(f, xs + [x]) == MapAll(f, xs) + [f(x)]
  {
    assert (xs + [x])[..|xs|] == xs;
  }

  /** `processed_statements`: each annotated statement followed by a separator. */
  function Interleave(annotated: seq<string>): seq<string> {
    if annotated == [] then []
    else Interleave(annotated[..|annotated| - 1]) + [annotated[|annotated| - 1], StatementSeparator]
  }

  lemma InterleaveSnoc(annotated: seq<string>, p: string)
    ensures Interleave(annotated + [p]) == Interleave(annotated) + [p, StatementSeparator]
  {
    assert (annotated + [p])[..|annotated|] == annotated;
  }

  /** The body written after the header. */
  function Body(annotated: seq<string>): string {
    Join(Interleave(annotated), "\n")
  }

  /** What the generator writes: the header, then the body. */
  function FileContent(kind: FileKind, sourceName: string, stmts: seq<string>, nomenclature: string, timestamp: string): string {
    Header(kind, sourceName, timestamp) + Body(AnnotateAll(stmts, nomenclature, timestamp))
  }

  /** The content: the header, then the processed statements joined by newlines. */
  method MakeContent(kind: FileKind, sourceName: string, statements: seq<string>, nomenclature: string, timestamp: string)
    returns (content: string)
    ensures content == FileContent(kind, sourceName, statements, nomenclature, timestamp)
  {
    var header := Header(kind, sourceName, timestamp);
    var processedStatements := AnnotateStatements(Annotation(nomenclature, timestamp), statements);
    content := header + Join(processedStatements, "\n");
  }

  /** The generated file for `kind` (lines 359-420 and 445-506, without the I/O). */
  method GenerateFile(kind: FileKind, sourceName: string, statements: seq<string>, nomenclature: string, timestamp: string)
    returns (file: GeneratedFile)
    ensures file.name == OutputName(kind, sourceName)
    ensures file.content == FileContent(kind, sourceName, statements, nomenclature, timestamp)
  {
    var content := MakeContent(kind, sourceName, statements, nomenclature, timestamp);
    file := GeneratedFile(OutputName(kind, sourceName), content);
  }

  /**
   * The loop of lines 410-415 and 496-501: each statement annotated by
   * `annotate`, then followed by a separator.
   */
  method AnnotateStatements(annotate: string -> string, statements: seq<string>)
    returns (processedStatements: seq<string>)
    ensures processedStatements == Interleave(MapAll(annotate, statements))
  {
    processedStatements := [];
    for i := 0 to |statements|
      invariant processedStatements == Interleave(MapAll(annotate, statements[..i]))
    {
      var processed := annotate(statements[i]);
      assert statements[..i + 1] == statements[..i] + [statements[i]];
      MapAllSnoc(annotate, statements[..i], statements[i]);
      InterleaveSnoc(MapAll(annotate, statements[..i]), processed);
      processedStatements := processedStatements + [processed, StatementSeparator];
    }
    assert statements[..|statements|] == statements;
  }


  /** `generate_ddl_file` (lines 341-424). */
  method GenerateDdlFile(sourceName: string, ddlStatements: seq<string>, nomenclature: string, timestamp: string)
    returns (file: GeneratedFile)
    ensures file.name == OutputName(DdlFile, sourceName)
    ensures file.content == FileContent(DdlFile, sourceName, ddlStatements, nomenclature, timestamp)
  {
    file := GenerateFile(DdlFile, sourceName, ddlStatements, nomenclature, timestamp);
  }

  /** `generate_dml_file` (lines 427-510). */
  method GenerateDmlFile(sourceName: string, dmlStatements: seq<string>, nomenclature: string, timestamp: string)
    returns (file: GeneratedFile)
    ensures file.name == OutputName(DmlFile, sourceName)
    ensures file.content == FileContent(DmlFile, sourceName, dmlStatements, nomenclature, timestamp)
  {
    file := GenerateFile(DmlFile, sourceName, dmlStatements, nomenclature, timestamp);
  }

  // ---------------------------------------------------------------------
  // File names

  /** The stem of `s.sql` is `s`, for any non-empty `s`, dots included. */
  lemma StemOfSqlName(s: string)
    requires s != ""
    ensures Stem(s + ".sql") == s
  {
    var name := s + ".sql";
    assert name[|s|] == '.' && name[|s| + 1..] == "sql";
    RFindAt(name, '.', |s|);
    assert name[..|s|] == s;
  }

  /**
   * The stem is the whole name when every dot strictly inside the name is
   * followed by another dot later on (so the last dot is at either end);
   * otherwise it is the part before the last dot, which is followed by at
   * least one character.
   */
  lemma StemSpec(name: string)
    ensures var st := Stem(name);
      || (st == name && forall i :: 0 < i < |name| - 1 && name[i] == '.' ==> '.' in name[i + 1..])
      || (exists i :: 0 < i < |name| - 1 && name[i] == '.' && '.' !in name[i + 1..] && st == name[..i])
  {
    var r := RFind(name, '.');
    if !(0 < r < |name| - 1) {
      forall i | 0 < i < |name| - 1 && name[i] == '.'
        ensures '.' in name[i + 1..]
      {
        RFindAtLeast(name, '.', i);
        assert name[i + 1..][r - i - 1] == name[r];
      }
    }
  }

  /** The DDL and DML outputs of one input never share a name. */
  lemma OutputNamesDiffer(sourceName: string)
    ensures OutputName(DdlFile, sourceName) != OutputName(DmlFile, sourceName)
  {
    var st := Stem(sourceName);
    assert OutputName(DdlFile, sourceName)[|st| + 2] == 'D';
    assert OutputName(DmlFile, sourceName)[|st| + 2] == 'M';
  }

  // ---------------------------------------------------------------------
  // File content

  /** The blocks alternate: annotated statement `k` at position `2k`, a separator at `2k + 1`. */
  lemma {:induction false} InterleaveShape(annotated: seq<string>)
    ensures var b := Interleave(annotated);
      && |b| == 2 * |annotated|
      && forall k :: 0 <= k < |annotated| ==> b[2 * k] == annotated[k] && b[2 * k + 1] == StatementSeparator
  {
    if annotated != [] {
      var init := annotated[..|annotated| - 1];
      InterleaveShape(init);
      assert forall k :: 0 <= k < |init| ==> annotated[k] == init[k];
    }
  }

  /** The number of occurrences of `x` in `xs`. */
  function CountOf(xs: seq<string>, x: string): nat {
    if xs == [] then 0 else CountOf(xs[..|xs| - 1], x) + (if xs[|xs| - 1] == x then 1 else 0)
  }

  lemma {:induction false} CountOfAppend(xs: seq<string>, ys: seq<string>, x: string)
    ensures CountOf(xs + ys, x) == CountOf(xs, x) + CountOf(ys, x)
    decreases |ys|
  {
    if ys == [] {
      assert xs + ys == xs;
    } else {
      assert (xs + ys)[..|xs + ys| - 1] == xs + ys[..|ys| - 1];
      CountOfAppend(xs, ys[..|ys| - 1], x);
    }
  }

  /** Appending an item that is not a separator adds exactly one separator. */
  lemma InterleaveSnocCount(annotated: seq<string>, last: string)
    requires last != StatementSeparator
    ensures CountOf(Interleave(annotated + [last]), StatementSeparator)
         == CountOf(Interleave(annotated), StatementSeparator) + 1
  {
    assert (annotated + [last])[..|annotated|] == annotated;
    assert Interleave(annotated + [last]) == Interleave(annotated) + [last, StatementSeparator];
    CountOfAppend(Interleave(annotated), [last, StatementSeparator], StatementSeparator);
    assert [last][..0] == [];
    assert CountOf([last], StatementSeparator) == 0;
    assert [last, StatementSeparator][..1] == [last];
    assert CountOf([last, StatementSeparator], StatementSeparator) == CountOf([last], StatementSeparator) + 1;
  }

  /** Statement `k` of the input becomes annotated block `k`. */
  lemma AnnotateAllAt(stmts: seq<string>, nomenclature: string, timestamp: string, k: nat)
    requires k < |stmts|
    ensures AnnotateAll(stmts, nomenclature, timestamp)[k]
         == Annotator.ApplyBankingNomenclature(stmts[k], nomenclature, timestamp)
  {
    MapAllAt(Annotation(nomenclature, timestamp), stmts, k);
  }

  /** The separator begins with a newline; an annotated statement begins with the banner's `-`. */
  lemma AnnotatedIsNotSeparator(stmt: string, nomenclature: string, timestamp: string)
    ensures Annotator.ApplyBankingNomenclature(stmt, nomenclature, timestamp) != StatementSeparator
  {
    Annotator.BannerTextStartsWithDash(
      Annotator.Summary(nomenclature), timestamp, Annotator.ValidationComment(stmt), stmt);
    assert StatementSeparator[0] == '\n';
  }

  /**
   * The list of blocks (`processed_statements`) holds exactly one separator
   * entry per statement. Banners hold separator lines of their own, so this
   * is not a count of occurrences in the joined text.
   */
  lemma {:induction false} SeparatorCount(stmts: seq<string>, nomenclature: string, timestamp: string)
    ensures CountOf(Interleave(AnnotateAll(stmts, nomenclature, timestamp)), StatementSeparator) == |stmts|
  {
    if stmts != [] {
      var init, last := stmts[..|stmts| - 1], stmts[|stmts| - 1];
      SeparatorCount(init, nomenclature, timestamp);
      AnnotatedIsNotSeparator(last, nomenclature, timestamp);
      InterleaveSnocCount(AnnotateAll(init, nomenclature, timestamp),
        Annotator.ApplyBankingNomenclature(last, nomenclature, timestamp));
    }
  }

  /** With no statements the body is empty. */
  lemma EmptyBody(prefix: string, nomenclature: string, timestamp: string)
    ensures prefix + Body(AnnotateAll([], nomenclature, timestamp)) == prefix
  {
    assert Body(AnnotateAll([], nomenclature, timestamp)) == "";
  }

  /** With no statements the file is the header alone. */
  lemma EmptyFileIsHeader(kind: FileKind, sourceName: string, nomenclature: string, timestamp: string)
    ensures FileContent(kind, sourceName, [], nomenclature, timestamp) == Header(kind, sourceName, timestamp)
  {
    EmptyBody(Header(kind, sourceName, timestamp), nomenclature, timestamp);
  }

  /**
   * One more statement extends the body, in order: a newline, the annotated
   * statement, a newline and a separator follow what was there.
   */
  lemma BodySnoc(annotated: seq<string>, a: string)
    requires annotated != []
    ensures Body(annotated + [a]) == Body(annotated) + "\n" + a + "\n" + StatementSeparator
  {
    var b := Interleave(annotated);
    assert (annotated + [a])[..|annotated|] == annotated;
    assert Interleave(annotated + [a]) == b + [a, StatementSeparator];
    InterleaveShape(annotated);
    JoinAppend(b, [a, StatementSeparator], "\n");
    assert Join([a, StatementSeparator], "\n") == a + "\n" + StatementSeparator;
  }
}
