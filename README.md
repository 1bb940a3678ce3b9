# SQL file processor: a verified model of its text pipeline

This project models the deterministic core of `sql_processor_tools.py`,
the tool module of a banking SQL file processor. The module reads a SQL
script and a banking nomenclature document, then:

- splits the script into statements;
- sorts the statements into DDL and DML;
- checks each statement against Snowflake rules written as regular
  expressions;
- puts a banner of SQL comments in front of each statement (the subject
  areas named in the nomenclature, a timestamp, and the compliance report);
- writes `<stem>_DDL.sql` and `<stem>_DML.sql`, each a fixed header
  followed by the annotated statements, each followed by a separator.

The model has one module per stage:

| module | file | stage |
|---|---|---|
| `Text` | `text.dfy` | Python string helpers: `strip`, `upper`, `lower`, `find`, `in`, `split('\n')`, `'\n'.join` |
| `Segmenter` | `segmenter.dfy` | the line scanner of `parse_sql_statements` |
| `Classifier` | `classifier.dfy` | the DDL/DML sorting of `parse_sql_statements` |
| `Patterns` | `patterns.dfy` | the eight regular expressions, each as a hand-written matcher |
| `Compliance` | `compliance.dfy` | `validate_snowflake_syntax` |
| `Annotator` | `annotator.dfy` | `apply_banking_nomenclature` |
| `Emitter` | `emitter.dfy` | the file name and content built by `generate_ddl_file` and `generate_dml_file` |
| `Pipeline` | `pipeline.dfy` | the parse-then-generate sequence of `_process_sql_file_impl` |

The source's loops are methods with loop invariants:

- the segmenter scan (`Segmenter.SplitStatements`);
- the DDL/DML partition (`Classifier.Partition`, called by `Classifier.ParseSqlStatements`);
- the lead-line search (`Classifier.FindLeadLine`);
- the rule-table loops and report assembly (`Compliance.CollectMatches`,
  `Compliance.AppendBulleted`, `Compliance.RenderReport`);
- the `processed_statements` loop (`Emitter.AnnotateStatements`).

Each of these methods is proved equal to a specification function. The
properties are then proved as lemmas about those functions. String
composition without loops is modelled as functions.

The timestamp is a parameter: it stands for the already-formatted output
of `datetime.now().strftime(...)`. A file path is represented by its final
component, the `input_path.name` of the source. The input's stem follows
the rule of `PurePath.stem` up to Python 3.13: the text before the last
dot, unless that dot is the first or the last character (Python 3.14
changed the case of a trailing dot).

Both keyword tests, the prefix test and the standalone-word test, look
only at the upper-cased lead line (sql_processor_tools.py:171-179), never
at the rest of the statement.

## Model

| member | source | states |
|---|---|---|
| Segmenter.SplitStatements | sql_processor_tools.py:116-148 | The line loop, with its block-comment flag and accumulator, returns exactly `Statements(text)`: the trimmed flushed chunks, then the trimmed remainder if it is not blank. |
| Segmenter.LineNeverEndsStatement | sql_processor_tools.py:123-144 | A line does not flush the accumulator, and is appended to it with its newline, in each of these cases: the scan is inside a block comment; the line contains `/*` or `*/`; its trimmed form starts with `--`; it has no `;`; or its first `--` comes before its first `;`. |
| Segmenter.LineEndsStatement | sql_processor_tools.py:135-144 | In every other case the line flushes the accumulator plus itself and its newline, and the accumulator is reset. |
| Segmenter.BlockCommentSuppressesTermination | sql_processor_tools.py:123-132 | After a line that opens a block comment without closing it, no line ends a statement until a line containing `*/` is read, and the flag stays set. |
| Segmenter.FeedLossless | sql_processor_tools.py:122-144 | Reading one line adds exactly that line and its newline to the flushed chunks followed by the accumulator. |
| Segmenter.RunLossless | sql_processor_tools.py:120-144 | The flushed chunks followed by the accumulator spell out the lines read so far, each followed by a newline. |
| Segmenter.SegmentationLossless | sql_processor_tools.py:116-148 | The raw chunks of a script concatenate to the script plus one trailing newline. |
| Segmenter.FlushedChunksTerminated | sql_processor_tools.py:138-144 | Every chunk flushed inside the loop ends with a line that passes the terminator test, and it contains a `;`. |
| Segmenter.StatementsAreTrimmedChunks | sql_processor_tools.py:143-148 | The statements are the trimmed non-blank chunks, in document order. Each statement is non-empty and already trimmed. |
| Classifier.LeadIndex | sql_processor_tools.py:159-165 | The index returned is the first line that is non-blank once trimmed and starts with neither `--` nor `/*`. `None` means no line qualifies. |
| Classifier.FindLeadLine | sql_processor_tools.py:159-165 | The search loop returns the trimmed first code line, or `""` when there is none. |
| Classifier.ClassifyStatement | sql_processor_tools.py:154-184 | The tests applied to one statement give its class: dropped when empty, a comment block or without a lead line; otherwise DDL if the upper-cased lead line passes a DDL test, else DML if it passes a DML test, else dropped. |
| Classifier.Partition | sql_processor_tools.py:150-184 | The loop appends each statement to the list of its class, so the lists are the statements of each class in input order. |
| Classifier.ParseSqlStatements | sql_processor_tools.py:93-189 | The DDL and DML lists are the segmented statements of each class, in document order. |
| Classifier.SelectMembership | sql_processor_tools.py:153-184 | A statement is in the list of a class exactly when it is a segmented statement of that class. |
| Classifier.DdlAndDmlDisjoint | sql_processor_tools.py:181-184 | No statement is in both the DDL and the DML list. |
| Classifier.SelectAppend | sql_processor_tools.py:153-184 | Sorting distributes over concatenation, so each list keeps document order. |
| Classifier.SelectPartition | sql_processor_tools.py:153-184 | Every segmented statement is counted exactly once: as DDL, as DML, or as dropped. |
| Classifier.DdlWinsTie | sql_processor_tools.py:174-184 | A lead line that passes both the DDL and the DML test is DDL. |
| Classifier.DroppedIff | sql_processor_tools.py:154-184 | A statement is dropped exactly when one of these holds: it is empty; it is a comment block without `CREATE` or `INSERT`; it has no lead line; or its lead line passes neither keyword test. |
| Classifier.ClassDependsOnLeadLine | sql_processor_tools.py:171-179 | Two statements that pass the comment-block test, and whose lead lines agree once upper-cased, get the same class. |
| Classifier.RawPrefixIsDdl | sql_processor_tools.py:174 | The prefix test is raw: a lead line that begins with any DDL keyword of lines 103-108 is DDL, whatever follows the keyword. |
| Classifier.RawPrefixIsDml | sql_processor_tools.py:178 | A lead line that begins with any DML keyword of lines 110-113 and passes no DDL test is DML, whatever follows the keyword. |
| Classifier.CreatedAtIsDdl | sql_processor_tools.py:103-108 | An instance of the raw prefix test: every lead line beginning `CREATED_AT` counts as `CREATE`, so it is DDL. |
| Classifier.OnlySpaceSeparatesWords | sql_processor_tools.py:175 | The standalone-word test pads with single spaces only, so for any character `c` other than a space (a tab, `(`, `,`) and any non-empty word `w` without `c`, the text `c` followed by `w` does not hold `w` as a standalone word. |
| Classifier.ParenthesisedCreateIsNoWord | sql_processor_tools.py:175 | The instance at the DDL fallback: `(CREATE` does not hold `CREATE` as a standalone word. |
| Patterns.MatchesAt | sql_processor_tools.py:209-226 | The greedy matcher of each of the eight patterns at a position. A match lies inside the text and starts at a `\b` word boundary. |
| Patterns.MatchStartsWord | sql_processor_tools.py:209-226 | Every pattern opens with `\b` and a word character, so every match starts a word: its first character is a word character and the one before it, if any, is not. |
| Patterns.SkipSpacesSpec | sql_processor_tools.py:210-225 | Greedy reading of `\s*` consumes only whitespace and stops at the first non-space character. |
| Patterns.MatcherAgreesWithRegex | sql_processor_tools.py:209-226 | For each of the eight rules, the greedy matcher matches at a position exactly when the rule's regular expression, with its whitespace runs chosen freely, matches there. |
| Patterns.SearchAgreesWithRegex | sql_processor_tools.py:229-241 | `re.search` succeeds on the upper-cased statement exactly when the regular expression matches at some position. |
| Compliance.CollectMatches | sql_processor_tools.py:228-241 | Each rule-table loop collects the messages of the matching rules, in table order. |
| Compliance.AppendBulleted | sql_processor_tools.py:248-261 | The inner loops append one bulleted line per item, in order. |
| Compliance.RenderReport | sql_processor_tools.py:243-269 | The assembly of `validation_parts` builds exactly `ReportLines` of the three lists. |
| Compliance.ValidateSnowflakeSyntax | sql_processor_tools.py:192-271 | The returned text is the newline-joined report for the upper-cased statement. |
| Compliance.DetectedEmptyIff | sql_processor_tools.py:228-241 | A list of findings is empty exactly when no rule of its table matches. |
| Compliance.CompliantIff | sql_processor_tools.py:264 | A statement is compliant exactly when neither issue pattern nor the warning pattern matches its upper-cased text. |
| Compliance.VerdictLines | sql_processor_tools.py:264-269 | The last two report lines are the compliant verdict exactly when the statement is compliant, and the review verdict exactly when it is not. |
| Compliance.VerdictIgnoresGoodPractices | sql_processor_tools.py:258-269 | Changing the good-practice list never changes the last two lines. |
| Compliance.ReportIgnoresCase | sql_processor_tools.py:206 | A statement and its upper-cased form give the same report. |
| Compliance.GoodPracticeLinesCapped | sql_processor_tools.py:258-262 | The report holds exactly min(number of good practices, 3) tick lines. |
| Compliance.HeadersPresentIff | sql_processor_tools.py:246-262 | Each section header is in the report exactly when its list is non-empty. |
| Annotator.ApplyBankingNomenclature | sql_processor_tools.py:274-338 | The annotated statement is the banner followed by the statement unchanged: it begins with the banner's `-`, and its last lines are the statement's own lines, after a blank line. |
| Annotator.SubjectAreas | sql_processor_tools.py:299-307 | An area is listed exactly when its keyword test passes on the lower-cased nomenclature. Areas come in the fixed order customer, accounts, transactions, risk, each at most once. |
| Annotator.CustomerTestRedundant | sql_processor_tools.py:300 | The `customer` test adds nothing to the `cust` test. |
| Annotator.SummaryLines | sql_processor_tools.py:310 | The summary's lines are the area texts, one per listed area, or the single fallback line when no area is listed. |
| Annotator.CommentLineRoundTrip | sql_processor_tools.py:318 | Every commented report line starts with `--`. Removing the marker gives back the original line when it was non-blank or empty. |
| Annotator.ValidationCommentLines | sql_processor_tools.py:313-318 | The validation comment's lines are the report's lines, each commented, and each starts with `--`. |
| Annotator.FixedBannerLines | sql_processor_tools.py:321-336 | Every banner line except the subject-areas line and the validation comment is a single comment or blank line. |
| Annotator.SubjectAreasLine | sql_processor_tools.py:310-325 | The subject-areas entry is all comment lines exactly when at most one area is listed. |
| Annotator.BannerIsCommentsIff | sql_processor_tools.py:299-338 | The banner consists only of comment and blank lines exactly when the nomenclature mentions at most one subject area. Further area texts land on lines without the `--` marker. |
| Annotator.BannerTextStartsWithDash | sql_processor_tools.py:321-338 | An annotated statement begins with the banner's leading `-`. |
| Annotator.AnnotationKeepsStatement | sql_processor_tools.py:321-338 | The banner ends with a blank line. The lines of banner plus statement are the banner's lines up to that blank line, followed by the statement's own lines, unchanged. |
| Emitter.StemSpec | sql_processor_tools.py:369 | The stem is the part before the last dot when that dot is neither first nor last; otherwise it is the whole name. |
| Emitter.StemOfSqlName | sql_processor_tools.py:369 | For any non-empty `s`, the stem of `s.sql` is `s`, even when `s` contains dots. |
| Emitter.OutputNamesDiffer | sql_processor_tools.py:369-371 | The DDL and DML outputs of one input never share a name. The DML generator repeats these lines at 455-457. |
| Emitter.Header | sql_processor_tools.py:374-408 | The fixed header opens with the `-- ====` separator line and ends with a blank line, so the first statement starts after it. The DML generator repeats these lines at 460-494. |
| Emitter.AnnotateStatements | sql_processor_tools.py:410-415 | For any annotation function, the loop builds each annotated statement followed by the separator, in input order. The DML generator repeats these lines at 496-501. |
| Emitter.MakeContent | sql_processor_tools.py:374-420 | The written text is the header followed by the newline-joined processed statements. The DML generator repeats these lines at 460-506. |
| Emitter.GenerateFile | sql_processor_tools.py:359-420 | A generated file has the output name and the content above. The DML generator repeats these lines at 445-506. |
| Emitter.GenerateDdlFile | sql_processor_tools.py:341-424 | The DDL file is the generated file of the DDL kind. |
| Emitter.GenerateDmlFile | sql_processor_tools.py:427-510 | The DML file is the generated file of the DML kind. |
| Emitter.AnnotateAllAt | sql_processor_tools.py:412-413 | Annotated block `k` is statement `k` passed through `apply_banking_nomenclature`. The DML generator repeats these lines at 498-499. |
| Emitter.InterleaveShape | sql_processor_tools.py:411-415 | The block list has twice as many entries as statements. Statement `k`'s annotation is at position `2k` and a separator at `2k + 1`. The DML generator repeats these lines at 497-501. |
| Emitter.SeparatorCount | sql_processor_tools.py:410-415 | The list of blocks (`processed_statements`) holds exactly one separator entry per statement. The banners contain separator lines of their own, so this counts list entries, not occurrences in the joined text. The DML generator repeats these lines at 496-501. |
| Emitter.EmptyFileIsHeader | sql_processor_tools.py:418-420 | With no statements the file content is the header alone. The DML generator repeats these lines at 504-506. |
| Emitter.BodySnoc | sql_processor_tools.py:415-420 | After at least one statement, one more statement extends the body by a newline, its annotation, a newline and a separator, leaving the earlier text unchanged. |
| Pipeline.ProcessSqlContent | sql_processor_tools.py:539-544 | The script is parsed once. The DDL file is generated from the DDL list and the DML file from the DML list, and both lists are returned. |
| Pipeline.SummaryCounts | sql_processor_tools.py:550-551 | The two reported counts add up to at most the number of segmented statements. Each count equals the number of separator entries in the list of blocks (`processed_statements`) of its file. |

## Left out

- File reading (`read_sql_file`, `read_banking_nomenclature`, `get_sql_file_content`, `get_nomenclature_content`, lines 11-90) is file-system I/O. So are the `"Error"`-prefix checks of `_process_sql_file_impl` (531-537) and its `try/except` (556-557).
- `mkdir`, `open`, `write` and the `try/except` around them in the generators (362-366, 418-424, 448-452, 504-510) are I/O. The output directory is not modelled: a generated file is its name and its content.
- The current time (`datetime.now()`, lines 326, 378, 464) is a parameter holding the formatted timestamp. One value serves both headers and every banner. The source reads the clock once per header and once per statement, so two banners of one file, or a banner and its header, can show different times; the model does not capture that.
- The summary text of `_process_sql_file_impl` (546-555) is left out. It prints file paths and decimal numbers; its two counts are modelled by `Pipeline.SummaryCounts`.
- The values `prefixes` (289-296) and `is_valid` (314) are computed but never used, so they are not modelled.
- The LangChain tool registrations, the Pydantic input schema and the file-management toolkit (560-655) are thin wrappers over libraries that are not part of this model.
- sql_processor.py, an LLM worker/evaluator graph, is not part of this model. Neither is sql_processor_app.py, a Gradio user interface.
- `upper()`, `lower()` and `strip()` work on ASCII letters and Python's ASCII whitespace only. Likewise `\w` and `\s` are ASCII only. Unicode case mapping and Unicode whitespace are not modelled.
- Python's regular-expression engine is not modelled in general. Each of the eight patterns is its own matcher, and `Patterns.MatcherAgreesWithRegex` ties each one to a declarative reading of its pattern.
- Annotator.AnnotationKeepsStatement: stated for any summary, timestamp and validation comment, not just those computed from a nomenclature and a statement. `ApplyBankingNomenclature` is one instance of it.
