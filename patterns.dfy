/**
 * The eight regular expressions of `validate_snowflake_syntax`, each written
 * out as its own matcher over the upper-cased statement. `\b` is the ASCII
 * word boundary, `\s` the ASCII whitespace of `Text.IsSpace`.
 *
 * Each matcher `MatchesAt(rule, s, i)` is executable: it reads every `\s+`
 * or `\s*` greedily with `SkipSpaces`. Beside it, `RegexMatchAt` states what
 * the regular expression means, with the lengths of the whitespace runs (and
 * the closing parenthesis of CHECK) chosen existentially; the lemmas below
 * prove the two agree, so greedy reading loses no match.
 */
module Patterns {
  import opened Text

  /** The eight rules, in the order of the three rule tables. */
  datatype Rule =
    | CreateIndex          // \bCREATE\s+INDEX\b
    | AutoIncrement        // \bAUTO_INCREMENT\b
    | CheckConstraint      // \bCHECK\s*\([^)]*\)
    | CreateOrReplace      // \bCREATE\s+(OR\s+REPLACE\s+)?(TABLE|VIEW|PROCEDURE|FUNCTION)
    | IfNotExists          // \bIF\s+NOT\s+EXISTS\b
    | TimestampTypes       // \bTIMESTAMP_NTZ\b|\bTIMESTAMP_LTZ\b|\bTIMESTAMP_TZ\b
    | NativeTypes          // \bVARCHAR\b|\bNUMBER\b|\bBOOLEAN\b
    | AutoIncrementNative  // \bAUTOINCREMENT\b

  /** `\b` at position `i`: a word character on exactly one side. */
  predicate Boundary(s: string, i: int)
    requires 0 <= i <= |s|
  {
    (i > 0 && IsWordChar(s[i - 1])) != (i < |s| && IsWordChar(s[i]))
  }

  /** `\bW\b` at position `i`. */
  predicate WordAt(s: string, w: string, i: int) {
    OccursAt(s, w, i) && Boundary(s, i) && Boundary(s, i + |w|)
  }

  /** The end of the run of whitespace that starts at `i`. */
  function SkipSpaces(s: string, i: nat): (j: nat)
    requires i <= |s|
    ensures i <= j <= |s|
    decreases |s| - i
  {
    if i < |s| && IsSpace(s[i]) then SkipSpaces(s, i + 1) else i
  }

  /** `(TABLE|VIEW|PROCEDURE|FUNCTION)` at position `j`, with no boundary after it. */
  predicate ObjectKindAt(s: string, j: int) {
    OccursAt(s, "TABLE", j) || OccursAt(s, "VIEW", j)
    || OccursAt(s, "PROCEDURE", j) || OccursAt(s, "FUNCTION", j)
  }

  /** `OR\s+REPLACE\s+(TABLE|...)` at position `j`, read greedily. */
  predicate OrReplaceKindAt(s: string, j: nat)
    requires j <= |s|
  {
    OccursAt(s, "OR", j)
    && var k := SkipSpaces(s, j + 2);
    k > j + 2 && OccursAt(s, "REPLACE", k)
    && var m := SkipSpaces(s, k + 7);
    m > k + 7 && ObjectKindAt(s, m)
  }

  /** `NOT\s+EXISTS\b` at position `j`, read greedily. */
  predicate NotExistsAt(s: string, j: nat)
    requires j <= |s|
  {
    OccursAt(s, "NOT", j)
    && var k := SkipSpaces(s, j + 3);
    k > j + 3 && WordEndAt(s, "EXISTS", k)
  }

  /** The matcher of each rule at position `i`: a match lies inside the text and starts at a word boundary. */
  predicate MatchesAt(rule: Rule, s: string, i: nat)
    requires i <= |s|
    ensures MatchesAt(rule, s, i) ==> i < |s| && Boundary(s, i)
  {
    match rule
    case CreateIndex =>
      Boundary(s, i) && OccursAt(s, "CREATE", i)
      && var j := SkipSpaces(s, i + 6);
      j > i + 6 && WordEndAt(s, "INDEX", j)
    case AutoIncrement =>
      WordAt(s, "AUTO_INCREMENT", i)
    case CheckConstraint =>
      Boundary(s, i) && OccursAt(s, "CHECK", i)
      && var j := SkipSpaces(s, i + 5);
      j < |s| && s[j] == '(' && Contains(s[j + 1..], ")")
    case CreateOrReplace =>
      Boundary(s, i) && OccursAt(s, "CREATE", i)
      && var j := SkipSpaces(s, i + 6);
      j > i + 6 && (ObjectKindAt(s, j) || OrReplaceKindAt(s, j))
    case IfNotExists =>
      Boundary(s, i) && OccursAt(s, "IF", i)
      && var j := SkipSpaces(s, i + 2);
      j > i + 2 && NotExistsAt(s, j)
    case TimestampTypes =>
      WordAt(s, "TIMESTAMP_NTZ", i) || WordAt(s, "TIMESTAMP_LTZ", i) || WordAt(s, "TIMESTAMP_TZ", i)
    case NativeTypes =>
      WordAt(s, "VARCHAR", i) || WordAt(s, "NUMBER", i) || WordAt(s, "BOOLEAN", i)
    case AutoIncrementNative =>
      WordAt(s, "AUTOINCREMENT", i)
  }

  /** `W\b` at position `j`: the word, then a boundary. */
  predicate WordEndAt(s: string, w: string, j: int) {
    OccursAt(s, w, j) && Boundary(s, j + |w|)
  }

  /** `re.search(pattern, s)` succeeds. */
  predicate Matches(rule: Rule, s: string) {
    exists i :: 0 <= i <= |s| && MatchesAt(rule, s, i)
  }

  /** A word occurring at `i` puts its first character there. */
  lemma HeadChar(s: string, w: string, i: int)
    requires OccursAt(s, w, i) && w != []
    ensures i < |s| && s[i] == w[0]
  {
    assert s[i] == s[i..i + |w|][0];
  }

  /** Every pattern opens with `\b` and a word character, so a match starts a word. */
  lemma MatchStartsWord(rule: Rule, s: string, i: nat)
    requires i <= |s| && MatchesAt(rule, s, i)
    ensures i < |s| && IsWordChar(s[i]) && (i == 0 || !IsWordChar(s[i - 1]))
  {
    match rule
    case CreateIndex => HeadChar(s, "CREATE", i);
    case AutoIncrement => HeadChar(s, "AUTO_INCREMENT", i);
    case CheckConstraint => HeadChar(s, "CHECK", i);
    case CreateOrReplace => HeadChar(s, "CREATE", i);
    case IfNotExists => HeadChar(s, "IF", i);
    case TimestampTypes =>
      if OccursAt(s, "TIMESTAMP_NTZ", i) {
        HeadChar(s, "TIMESTAMP_NTZ", i);
      } else if OccursAt(s, "TIMESTAMP_LTZ", i) {
        HeadChar(s, "TIMESTAMP_LTZ", i);
      } else {
        HeadChar(s, "TIMESTAMP_TZ", i);
      }
    case NativeTypes =>
      if OccursAt(s, "VARCHAR", i) {
        HeadChar(s, "VARCHAR", i);
      } else if OccursAt(s, "NUMBER", i) {
        HeadChar(s, "NUMBER", i);
      } else {
        HeadChar(s, "BOOLEAN", i);
      }
    case AutoIncrementNative => HeadChar(s, "AUTOINCREMENT", i);
  }

  // ---------------------------------------------------------------------
  // What the regular expressions mean

  /** `\s+` spans exactly `s[a..b]`. */
  ghost predicate SpaceRun(s: string, a: int, b: int) {
    0 <= a < b <= |s| && forall k :: a <= k < b ==> IsSpace(s[k])
  }

  /** `\s*` spans exactly `s[a..b]`. */
  ghost predicate SpaceGap(s: string, a: int, b: int) {
    0 <= a <= b <= |s| && forall k :: a <= k < b ==> IsSpace(s[k])
  }

  /** `\([^)]*\)` spans `s[j..k + 1]`. */
  ghost predicate ParenGroup(s: string, j: int, k: int) {
    0 <= j < k < |s| && s[j] == '(' && s[k] == ')' && forall m :: j < m < k ==> s[m] != ')'
  }

  /** A match of the regular expression of `rule` starting at position `i`. */
  ghost predicate RegexMatchAt(rule: Rule, s: string, i: nat)
    requires i <= |s|
  {
    match rule
    case CreateIndex =>
      Boundary(s, i) && OccursAt(s, "CREATE", i)
      && exists j :: SpaceRun(s, i + 6, j) && WordEndAt(s, "INDEX", j)
    case AutoIncrement =>
      WordAt(s, "AUTO_INCREMENT", i)
    case CheckConstraint =>
      Boundary(s, i) && OccursAt(s, "CHECK", i)
      && exists j, k :: SpaceGap(s, i + 5, j) && ParenGroup(s, j, k)
    case CreateOrReplace =>
      Boundary(s, i) && OccursAt(s, "CREATE", i)
      && exists j :: SpaceRun(s, i + 6, j) && (ObjectKindAt(s, j) || RegexOrReplaceAt(s, j))
    case IfNotExists =>
      Boundary(s, i) && OccursAt(s, "IF", i)
      && exists j :: SpaceRun(s, i + 2, j) && RegexNotExistsAt(s, j)
    case TimestampTypes =>
      WordAt(s, "TIMESTAMP_NTZ", i) || WordAt(s, "TIMESTAMP_LTZ", i) || WordAt(s, "TIMESTAMP_TZ", i)
    case NativeTypes =>
      WordAt(s, "VARCHAR", i) || WordAt(s, "NUMBER", i) || WordAt(s, "BOOLEAN", i)
    case AutoIncrementNative =>
      WordAt(s, "AUTOINCREMENT", i)
  }

  /** `OR\s+REPLACE\s+(TABLE|...)` at position `j`. */
  ghost predicate RegexOrReplaceAt(s: string, j: int) {
    OccursAt(s, "OR", j)
    && exists k, m :: SpaceRun(s, j + 2, k) && OccursAt(s, "REPLACE", k)
                      && SpaceRun(s, k + 7, m) && ObjectKindAt(s, m)
  }

  /** `NOT\s+EXISTS\b` at position `j`. */
  ghost predicate RegexNotExistsAt(s: string, j: int) {
    OccursAt(s, "NOT", j)
    && exists k :: SpaceRun(s, j + 3, k) && WordEndAt(s, "EXISTS", k)
  }

  // ---------------------------------------------------------------------
  // Greedy whitespace reading agrees with the regular expressions

  /** `SkipSpaces` stops at the first non-space at or after `i`. */
  lemma {:induction false} SkipSpacesSpec(s: string, i: nat)
    requires i <= |s|
    ensures SpaceGap(s, i, SkipSpaces(s, i))
    ensures SkipSpaces(s, i) == |s| || !IsSpace(s[SkipSpaces(s, i)])
    decreases |s| - i
  {
    if i < |s| && IsSpace(s[i]) {
      SkipSpacesSpec(s, i + 1);
    }
  }

  /** A whitespace run followed by a non-space ends where `SkipSpaces` stops. */
  lemma {:induction false} SkipSpacesUnique(s: string, i: nat, j: int)
    requires i <= |s| && SpaceGap(s, i, j) && j < |s| && !IsSpace(s[j])
    ensures SkipSpaces(s, i) == j
    decreases j - i
  {
    if i < j {
      assert IsSpace(s[i]);
      SkipSpacesUnique(s, i + 1, j);
    }
  }

  /** A keyword occurring at `j` starts with a non-space. */
  lemma KeywordNotSpace(s: string, w: string, j: int)
    requires OccursAt(s, w, j) && w != [] && !IsSpace(w[0])
    ensures j < |s| && !IsSpace(s[j])
  {
    assert s[j] == s[j..j + |w|][0];
  }

  lemma ObjectKindNotSpace(s: string, j: int)
    requires ObjectKindAt(s, j)
    ensures j < |s| && !IsSpace(s[j])
  {
    if OccursAt(s, "TABLE", j) {
      KeywordNotSpace(s, "TABLE", j);
    } else if OccursAt(s, "VIEW", j) {
      KeywordNotSpace(s, "VIEW", j);
    } else if OccursAt(s, "PROCEDURE", j) {
      KeywordNotSpace(s, "PROCEDURE", j);
    } else {
      KeywordNotSpace(s, "FUNCTION", j);
    }
  }

  lemma CreateIndexAgrees(s: string, i: nat)
    requires i <= |s|
    ensures MatchesAt(CreateIndex, s, i) <==> RegexMatchAt(CreateIndex, s, i)
  {
    if Boundary(s, i) && OccursAt(s, "CREATE", i) {
      var j := SkipSpaces(s, i + 6);
      SkipSpacesSpec(s, i + 6);
      if MatchesAt(CreateIndex, s, i) {
        assert SpaceRun(s, i + 6, j);
      }
      if RegexMatchAt(CreateIndex, s, i) {
        var j' :| SpaceRun(s, i + 6, j') && WordEndAt(s, "INDEX", j');
        KeywordNotSpace(s, "INDEX", j');
        SkipSpacesUnique(s, i + 6, j');
      }
    }
  }

  /** The first `)` after the `(` closes the group `\([^)]*\)`. */
  lemma FirstCloseParen(s: string, j: nat)
    requires j < |s| && s[j] == '(' && Contains(s[j + 1..], ")")
    ensures ParenGroup(s, j, j + 1 + Find(s[j + 1..], ")"))
  {
    var t := s[j + 1..];
    FindSpec(t, ")");
    var k := j + 1 + Find(t, ")");
    assert s[k] == t[k - j - 1..k - j][0];
    forall m | j < m < k
      ensures s[m] != ')'
    {
      assert !OccursAt(t, ")", m - j - 1);
      assert t[m - j - 1..m - j] == [s[m]];
    }
  }

  /** A group `\([^)]*\)` means a `)` follows the `(`. */
  lemma CloseParenFound(s: string, j: int, k: int)
    requires ParenGroup(s, j, k)
    ensures Contains(s[j + 1..], ")")
  {
    var t := s[j + 1..];
    assert t[k - j - 1..k - j] == [s[k]];
    ContainsAt(t, ")", k - j - 1);
  }

  lemma CheckConstraintAgrees(s: string, i: nat)
    requires i <= |s|
    ensures MatchesAt(CheckConstraint, s, i) <==> RegexMatchAt(CheckConstraint, s, i)
  {
    if Boundary(s, i) && OccursAt(s, "CHECK", i) {
      var j := SkipSpaces(s, i + 5);
      SkipSpacesSpec(s, i + 5);
      if MatchesAt(CheckConstraint, s, i) {
        FirstCloseParen(s, j);
      }
      if RegexMatchAt(CheckConstraint, s, i) {
        var j', k :| SpaceGap(s, i + 5, j') && ParenGroup(s, j', k);
        SkipSpacesUnique(s, i + 5, j');
        CloseParenFound(s, j', k);
      }
    }
  }

  lemma OrReplaceSound(s: string, j: nat)
    requires j <= |s| && OrReplaceKindAt(s, j)
    ensures RegexOrReplaceAt(s, j)
  {
    var k := SkipSpaces(s, j + 2);
    SkipSpacesSpec(s, j + 2);
    var m := SkipSpaces(s, k + 7);
    SkipSpacesSpec(s, k + 7);
    assert SpaceRun(s, j + 2, k) && SpaceRun(s, k + 7, m);
  }

  lemma OrReplaceComplete(s: string, j: nat)
    requires j <= |s| && RegexOrReplaceAt(s, j)
    ensures OrReplaceKindAt(s, j)
  {
    var k, m :| SpaceRun(s, j + 2, k) && OccursAt(s, "REPLACE", k)
                && SpaceRun(s, k + 7, m) && ObjectKindAt(s, m);
    KeywordNotSpace(s, "REPLACE", k);
    SkipSpacesUnique(s, j + 2, k);
    assert SkipSpaces(s, j + 2) == k > j + 2;
    ObjectKindNotSpace(s, m);
    SkipSpacesUnique(s, k + 7, m);
    assert SkipSpaces(s, k + 7) == m > k + 7;
  }

  lemma OrReplaceAgrees(s: string, j: nat)
    requires j <= |s|
    ensures OrReplaceKindAt(s, j) <==> RegexOrReplaceAt(s, j)
  {
    if OrReplaceKindAt(s, j) {
      OrReplaceSound(s, j);
    }
    if RegexOrReplaceAt(s, j) {
      OrReplaceComplete(s, j);
    }
  }

  lemma CreateOrReplaceAgrees(s: string, i: nat)
    requires i <= |s|
    ensures MatchesAt(CreateOrReplace, s, i) <==> RegexMatchAt(CreateOrReplace, s, i)
  {
    if Boundary(s, i) && OccursAt(s, "CREATE", i) {
      var j := SkipSpaces(s, i + 6);
      SkipSpacesSpec(s, i + 6);
      OrReplaceAgrees(s, j);
      if MatchesAt(CreateOrReplace, s, i) {
        assert SpaceRun(s, i + 6, j);
      }
      if RegexMatchAt(CreateOrReplace, s, i) {
        var j' :| SpaceRun(s, i + 6, j') && (ObjectKindAt(s, j') || RegexOrReplaceAt(s, j'));
        if ObjectKindAt(s, j') {
          ObjectKindNotSpace(s, j');
        } else {
          KeywordNotSpace(s, "OR", j');
        }
        SkipSpacesUnique(s, i + 6, j');
      }
    }
  }

  lemma NotExistsAgrees(s: string, j: nat)
    requires j <= |s|
    ensures NotExistsAt(s, j) <==> RegexNotExistsAt(s, j)
  {
    if OccursAt(s, "NOT", j) {
      var k := SkipSpaces(s, j + 3);
      SkipSpacesSpec(s, j + 3);
      if NotExistsAt(s, j) {
        assert SpaceRun(s, j + 3, k);
      }
      if RegexNotExistsAt(s, j) {
        var k' :| SpaceRun(s, j + 3, k') && WordEndAt(s, "EXISTS", k');
        KeywordNotSpace(s, "EXISTS", k');
        SkipSpacesUnique(s, j + 3, k');
      }
    }
  }

  lemma IfNotExistsAgrees(s: string, i: nat)
    requires i <= |s|
    ensures MatchesAt(IfNotExists, s, i) <==> RegexMatchAt(IfNotExists, s, i)
  {
    if Boundary(s, i) && OccursAt(s, "IF", i) {
      var j := SkipSpaces(s, i + 2);
      SkipSpacesSpec(s, i + 2);
      NotExistsAgrees(s, j);
      if MatchesAt(IfNotExists, s, i) {
        assert SpaceRun(s, i + 2, j);
      }
      if RegexMatchAt(IfNotExists, s, i) {
        var j' :| SpaceRun(s, i + 2, j') && RegexNotExistsAt(s, j');
        KeywordNotSpace(s, "NOT", j');
        SkipSpacesUnique(s, i + 2, j');
      }
    }
  }

  /** Each matcher finds a match at `i` exactly when its regular expression does. */
  lemma MatcherAgreesWithRegex(rule: Rule, s: string, i: nat)
    requires i <= |s|
    ensures MatchesAt(rule, s, i) <==> RegexMatchAt(rule, s, i)
  {
    match rule
    case CreateIndex => CreateIndexAgrees(s, i);
    case CheckConstraint => CheckConstraintAgrees(s, i);
    case CreateOrReplace => CreateOrReplaceAgrees(s, i);
    case IfNotExists => IfNotExistsAgrees(s, i);
    case _ =>
  }

  /** `re.search` succeeds exactly when the regular expression matches somewhere. */
  lemma SearchAgreesWithRegex(rule: Rule, s: string)
    ensures Matches(rule, s) <==> exists i :: 0 <= i <= |s| && RegexMatchAt(rule, s, i)
  {
    forall i | 0 <= i <= |s|
      ensures MatchesAt(rule, s, i) <==> RegexMatchAt(rule, s, i)
    {
      MatcherAgreesWithRegex(rule, s, i);
    }
  }
}
