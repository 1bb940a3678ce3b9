/**
 * The statement segmenter of `parse_sql_statements`: the script is split on
 * newlines and scanned line by line with an "inside a block comment" flag and
 * an accumulator; the accumulator is flushed (trimmed) when a line ends a
 * statement, and whatever non-blank text is left at the end is flushed too.
 *
 * `Run` is the scan as a function of the lines read so far; `SplitStatements`
 * is the loop itself, proved to compute `Statements`.
 */
module Segmenter {
  import opened Text

  /**
   * The terminator test applied to a line outside any block comment: it holds
   * a `;`, its trimmed form does not begin with `--`, and its first `;` comes
   * before its first `--` (or it has no `--`).
   */
  predicate EndsStatement(line: string) {
    ';' in line && !StartsWith(Strip(line), "--")
    && (Find(line, "--") == -1 || Find(line, ";") < Find(line, "--"))
  }

  /**
   * State of the scan: the block-comment flag, the accumulator, and the raw
   * (untrimmed) chunks flushed so far.
   */
  datatype Scan = Scan(inBlockComment: bool, current: string, flushed: seq<string>)

  const Start: Scan := Scan(false, "", [])

  /** One pass of the loop body over one line. */
  function Feed(st: Scan, line: string): Scan {
    var inBlock := if Contains(line, "/*") then true else st.inBlockComment;
    if Contains(line, "*/") then
      // the closing line is kept and the terminator test is skipped
      Scan(false, st.current + line + "\n", st.flushed)
    else if inBlock then
      Scan(true, st.current + line + "\n", st.flushed)
    else if EndsStatement(line) then
      Scan(false, "", st.flushed + [st.current + line + "\n"])
    else
      Scan(false, st.current + line + "\n", st.flushed)
  }

  /** The scan after the given lines. */
  function Run(lines: seq<string>): Scan {
    if lines == [] then Start else Feed(Run(lines[..|lines| - 1]), lines[|lines| - 1])
  }

  function StripAll(xs: seq<string>): (r: seq<string>)
    ensures |r| == |xs| && forall i :: 0 <= i < |xs| ==> r[i] == Strip(xs[i])
  {
    seq(|xs|, i requires 0 <= i < |xs| => Strip(xs[i]))
  }

  /** Every raw chunk the scan of `text` produces: the flushed ones, then the remainder. */
  function RawChunks(text: string): seq<string> {
    var r := Run(Lines(text));
    r.flushed + [r.current]
  }

  /** The statements `parse_sql_statements` segments `text` into. */
  function Statements(text: string): seq<string> {
    var r := Run(Lines(text));
    StripAll(r.flushed) + (if Strip(r.current) != "" then [Strip(r.current)] else [])
  }

  /** The trimmed forms of the chunks that are not blank, in order. */
  function NonBlankTrimmed(xs: seq<string>): seq<string> {
    if xs == [] then []
    else
      NonBlankTrimmed(xs[..|xs| - 1])
      + (if Strip(xs[|xs| - 1]) != "" then [Strip(xs[|xs| - 1])] else [])
  }

  /** The segmenter's loop (lines 116-148). */
  method SplitStatements(text: string) returns (statements: seq<string>)
    ensures statements == Statements(text)
  {
    var lines := Lines(text);
    statements := [];
    var current := "";
    var inBlockComment := false;
    ghost var chunks: seq<string> := [];
    for i := 0 to |lines|
      invariant Run(lines[..i]) == Scan(inBlockComment, current, chunks)
      invariant statements == StripAll(chunks)
    {
      var line := lines[i];
      assert lines[..i + 1][..i] == lines[..i];
      if Contains(line, "/*") {
        inBlockComment := true;
      }
      if Contains(line, "*/") {
        inBlockComment := false;
        current := current + line + "\n";
      } else if inBlockComment {
        current := current + line + "\n";
      } else {
        current := current + line + "\n";
        if ';' in line && !StartsWith(Strip(line), "--") {
          var semicolonPos := Find(line, ";");
          var commentPos := Find(line, "--");
          if commentPos == -1 || semicolonPos < commentPos {
            statements := statements + [Strip(current)];
            chunks := chunks + [current];
            current := "";
          }
        }
      }
    }
    assert lines[..|lines|] == lines;
    if Strip(current) != "" {
      statements := statements + [Strip(current)];
    }
  }

  // ---------------------------------------------------------------------
  // When a line ends a statement

  /**
   * A line does not end a statement when the scan is inside a block comment,
   * when the line opens or closes one, when its trimmed form begins with `--`,
   * when it has no `;`, or when its first `--` comes before its first `;`.
   */
  lemma LineNeverEndsStatement(st: Scan, line: string)
    requires || st.inBlockComment
             || Contains(line, "/*") || Contains(line, "*/")
             || StartsWith(Strip(line), "--")
             || ';' !in line
             || 0 <= Find(line, "--") < Find(line, ";")
    ensures Feed(st, line).flushed == st.flushed
    ensures Feed(st, line).current == st.current + line + "\n"
  {
  }

  /** Otherwise the line ends the statement: the accumulator plus the line is flushed and reset. */
  lemma LineEndsStatement(st: Scan, line: string)
    requires !st.inBlockComment && !Contains(line, "/*") && !Contains(line, "*/")
    requires ';' in line && !StartsWith(Strip(line), "--")
    requires !(0 <= Find(line, "--") < Find(line, ";"))
    ensures Feed(st, line) == Scan(false, "", st.flushed + [st.current + line + "\n"])
  {
    var commentPos, semicolonPos := Find(line, "--"), Find(line, ";");
    FindSpec(line, "--");
    FindSpec(line, ";");
    ContainsChar(line, ';');
    assert semicolonPos >= 0;
    if commentPos >= 0 {
      assert line[commentPos] == line[commentPos..commentPos + 2][0] == '-';
      assert line[semicolonPos] == line[semicolonPos..semicolonPos + 1][0] == ';';
    }
    assert EndsStatement(line);
  }

  /**
   * Once a line opens a block comment without closing it, no later line ends
   * a statement until a line that closes the comment is read.
   */
  lemma {:induction false} BlockCommentSuppressesTermination(lines: seq<string>, k: nat, m: nat)
    requires k < m <= |lines|
    requires Contains(lines[k], "/*") && !Contains(lines[k], "*/")
    requires forall j :: k < j < m ==> !Contains(lines[j], "*/")
    ensures Run(lines[..m]).flushed == Run(lines[..k]).flushed
    ensures Run(lines[..m]).inBlockComment
  {
    assert lines[..m][..m - 1] == lines[..m - 1];
    if m > k + 1 {
      BlockCommentSuppressesTermination(lines, k, m - 1);
    }
  }

  // ---------------------------------------------------------------------
  // Losslessness and the shape of flushed chunks

  /** The text after the last newline of `s`. */
  function LastLine(s: string): string {
    if s == [] || s[|s| - 1] == '\n' then [] else LastLine(s[..|s| - 1]) + [s[|s| - 1]]
  }

  /** A chunk flushed inside the loop: it ends with the newline after a line that ends a statement. */
  predicate Terminated(c: string) {
    |c| > 0 && c[|c| - 1] == '\n' && EndsStatement(LastLine(c[..|c| - 1]))
  }

  lemma {:induction false} LastLineAfterNewline(acc: string, line: string)
    requires acc == [] || acc[|acc| - 1] == '\n'
    requires '\n' !in line
    ensures LastLine(acc + line) == line
    decreases |line|
  {
    if line != [] {
      var init := line[..|line| - 1];
      var s := acc + line;
      assert s[|s| - 1] == line[|line| - 1] != '\n';
      assert s[..|s| - 1] == acc + init;
      LastLineAfterNewline(acc, init);
    }
  }

  lemma {:induction false} LastLineIsSuffix(s: string)
    ensures |LastLine(s)| <= |s| && LastLine(s) == s[|s| - |LastLine(s)|..]
  {
    if s != [] && s[|s| - 1] != '\n' {
      LastLineIsSuffix(s[..|s| - 1]);
    }
  }

  /** The accumulator is empty or ends with the newline of its last line. */
  lemma {:induction false} RunCurrentEndsLine(lines: seq<string>)
    ensures Run(lines).current == [] || Run(lines).current[|Run(lines).current| - 1] == '\n'
  {
    if lines != [] {
      RunCurrentEndsLine(lines[..|lines| - 1]);
    }
  }

  /** One step loses nothing: the line and its newline move into the flushed chunks or the accumulator. */
  lemma FeedLossless(st: Scan, line: string)
    ensures Concat(Feed(st, line).flushed) + Feed(st, line).current
         == Concat(st.flushed) + st.current + line + "\n"
  {
    var r := Feed(st, line);
    var c := st.current + line + "\n";
    if r.flushed == st.flushed {
      assert r.current == c;
    } else {
      assert r.flushed == st.flushed + [c] && r.current == "";
      assert (st.flushed + [c])[..|st.flushed|] == st.flushed;
      assert Concat(r.flushed) == Concat(st.flushed) + c;
    }
  }

  /** The scan loses nothing: flushed chunks and accumulator spell out the lines read. */
  lemma {:induction false} RunLossless(lines: seq<string>)
    ensures Concat(Run(lines).flushed) + Run(lines).current == ConcatLines(lines)
  {
    if lines != [] {
      var init, line := lines[..|lines| - 1], lines[|lines| - 1];
      assert lines == init + [line];
      RunLossless(init);
      ConcatLinesSnoc(init, line);
      FeedLossless(Run(init), line);
    }
  }

  /** Every chunk the scan flushes ends with a line that ends a statement. */
  lemma {:induction false} RunTerminated(lines: seq<string>)
    requires forall k :: 0 <= k < |lines| ==> '\n' !in lines[k]
    ensures forall c :: c in Run(lines).flushed ==> Terminated(c)
  {
    if lines != [] {
      var init, line := lines[..|lines| - 1], lines[|lines| - 1];
      RunTerminated(init);
      var st := Run(init);
      var r := Feed(st, line);
      if r.flushed != st.flushed {
        var c := st.current + line + "\n";
        assert r.flushed == st.flushed + [c];
        assert c[..|c| - 1] == st.current + line;
        RunCurrentEndsLine(init);
        LastLineAfterNewline(st.current, line);
        assert Terminated(c);
      }
    }
  }

  /**
   * Segmentation is lossless: the raw chunks concatenate to the input plus
   * the newline appended after its last line.
   */
  lemma SegmentationLossless(text: string)
    ensures Concat(RawChunks(text)) == text + "\n"
  {
    var r := Run(Lines(text));
    RunLossless(Lines(text));
    ConcatLinesOfLines(text);
    ConcatAppend(r.flushed, [r.current]);
    assert Concat([r.current]) == r.current by {
      assert [r.current][..0] == [];
    }
  }

  lemma TerminatedNotBlank(c: string)
    requires Terminated(c)
    ensures ';' in c && Strip(c) != ""
  {
    var l := LastLine(c[..|c| - 1]);
    LastLineIsSuffix(c[..|c| - 1]);
    var i :| 0 <= i < |l| && l[i] == ';';
    assert c[|c| - 1 - |l| + i] == ';';
    StripEmptyIff(c);
  }

  /** Every chunk flushed inside the loop holds a `;` on its last line of input. */
  lemma FlushedChunksTerminated(text: string)
    ensures forall c :: c in Run(Lines(text)).flushed ==> Terminated(c) && ';' in c
  {
    RunTerminated(Lines(text));
    forall c | c in Run(Lines(text)).flushed
      ensures ';' in c
    {
      TerminatedNotBlank(c);
    }
  }

  lemma {:induction false} NonBlankTrimmedOfTerminated(xs: seq<string>)
    requires forall c :: c in xs ==> Terminated(c)
    ensures NonBlankTrimmed(xs) == StripAll(xs)
  {
    if xs != [] {
      var init := xs[..|xs| - 1];
      assert forall c :: c in init ==> c in xs;
      NonBlankTrimmedOfTerminated(init);
      TerminatedNotBlank(xs[|xs| - 1]);
      assert StripAll(xs) == StripAll(init) + [Strip(xs[|xs| - 1])];
    }
  }

  /**
   * The statements are exactly the trimmed forms of the non-blank raw chunks,
   * in document order; the last may lack a terminator.
   */
  lemma StatementsAreTrimmedChunks(text: string)
    ensures Statements(text) == NonBlankTrimmed(RawChunks(text))
    ensures forall s :: s in Statements(text) ==> s != "" && Strip(s) == s
  {
    var r := Run(Lines(text));
    RunTerminated(Lines(text));
    NonBlankTrimmedOfTerminated(r.flushed);
    assert RawChunks(text)[..|RawChunks(text)| - 1] == r.flushed;
    forall s | s in Statements(text)
      ensures s != "" && Strip(s) == s
    {
      var i :| 0 <= i < |Statements(text)| && Statements(text)[i] == s;
      var c := RawChunks(text)[i];
      if i < |r.flushed| {
        TerminatedNotBlank(c);
      }
      StripIdempotent(c);
    }
  }
}
