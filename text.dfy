/**
 * The handful of Python string operations the SQL processor relies on
 * (`str.strip`, `str.upper`, `str.lower`, `str.find`, `in`, `startswith`,
 * `str.split('\n')` and `'\n'.join`), restricted to ASCII: letters are
 * upper- and lower-cased only in the range a-z / A-Z, and whitespace is the
 * ASCII part of Python's `str.isspace`.
 */
module Text {

  datatype Option<+T> = None | Some(value: T)

  /** The ASCII characters for which Python's `str.isspace` holds. */
  predicate IsSpace(c: char) {
    c == ' ' || c == '\t' || c == '\n' || c == '\r' || c == '\U{0b}' || c == '\U{0c}'
    || c == '\U{1c}' || c == '\U{1d}' || c == '\U{1e}' || c == '\U{1f}'
  }

  /** A regex word character (`\w`), ASCII letters, digits and underscore. */
  predicate IsWordChar(c: char) {
    ('a' <= c <= 'z') || ('A' <= c <= 'Z') || ('0' <= c <= '9') || c == '_'
  }

  predicate IsBlank(s: string) {
    forall i :: 0 <= i < |s| ==> IsSpace(s[i])
  }

  function UpperChar(c: char): char {
    if 'a' <= c <= 'z' then (c as int - 32) as char else c
  }

  function LowerChar(c: char): char {
    if 'A' <= c <= 'Z' then (c as int + 32) as char else c
  }

  /** `s.upper()` */
  function Upper(s: string): (r: string)
    ensures |r| == |s|
    ensures forall i :: 0 <= i < |s| ==> r[i] == UpperChar(s[i])
  {
    seq(|s|, i requires 0 <= i < |s| => UpperChar(s[i]))
  }

  /** `s.lower()` */
  function Lower(s: string): (r: string)
    ensures |r| == |s|
    ensures forall i :: 0 <= i < |s| ==> r[i] == LowerChar(s[i])
  {
    seq(|s|, i requires 0 <= i < |s| => LowerChar(s[i]))
  }

  lemma UpperIdempotent(s: string)
    ensures Upper(Upper(s)) == Upper(s)
  {
    var u := Upper(s);
    assert forall i :: 0 <= i < |u| ==> Upper(u)[i] == u[i];
  }

  function TrimLeft(s: string): string {
    if s == [] || !IsSpace(s[0]) then s else TrimLeft(s[1..])
  }

  function TrimRight(s: string): string {
    if s == [] || !IsSpace(s[|s| - 1]) then s else TrimRight(s[..|s| - 1])
  }

  /** `s.strip()`: the input without its leading and trailing whitespace. */
  function Strip(s: string): string {
    TrimRight(TrimLeft(s))
  }

  lemma {:induction false} TrimLeftSpec(s: string)
    ensures |TrimLeft(s)| <= |s| && TrimLeft(s) == s[|s| - |TrimLeft(s)|..]
    ensures TrimLeft(s) == [] || !IsSpace(TrimLeft(s)[0])
    ensures IsBlank(s[..|s| - |TrimLeft(s)|])
  {
    if s != [] && IsSpace(s[0]) {
      TrimLeftSpec(s[1..]);
      var r := TrimLeft(s[1..]);
      assert s[..|s| - |r|] == [s[0]] + s[1..][..|s[1..]| - |r|];
    }
  }

  lemma {:induction false} TrimRightSpec(s: string)
    ensures |TrimRight(s)| <= |s| && TrimRight(s) == s[..|TrimRight(s)|]
    ensures TrimRight(s) == [] || !IsSpace(TrimRight(s)[|TrimRight(s)| - 1])
    ensures IsBlank(s[|TrimRight(s)|..])
  {
    if s != [] && IsSpace(s[|s| - 1]) {
      TrimRightSpec(s[..|s| - 1]);
      var r := TrimRight(s[..|s| - 1]);
      assert s[|r|..] == s[..|s| - 1][|r|..] + [s[|s| - 1]];
    }
  }

  /** The result of `s.strip()` neither begins nor ends with whitespace. */
  lemma StripEnds(s: string)
    ensures Strip(s) == [] || (!IsSpace(Strip(s)[0]) && !IsSpace(Strip(s)[|Strip(s)| - 1]))
  {
    TrimLeftSpec(s);
    TrimRightSpec(TrimLeft(s));
  }

  /** `s.strip()` is empty exactly when `s` is all whitespace. */
  lemma StripEmptyIff(s: string)
    ensures Strip(s) == [] <==> IsBlank(s)
  {
    TrimLeftSpec(s);
    var l := TrimLeft(s);
    TrimRightSpec(l);
    var r := TrimRight(l);
    if r == [] {
      assert IsBlank(l[0..]);
      assert s == s[..|s| - |l|] + l;
    } else {
      assert s[|s| - |l|] == r[0];
    }
  }

  /** Stripping twice is stripping once. */
  lemma StripIdempotent(s: string)
    ensures Strip(Strip(s)) == Strip(s)
  {
    StripEnds(s);
  }

  /** `s.startswith(p)` */
  predicate StartsWith(s: string, p: string) {
    |p| <= |s| && s[..|p|] == p
  }

  /** `p` occurs in `s` at position `i`. */
  predicate OccursAt(s: string, p: string, i: int) {
    0 <= i && i + |p| <= |s| && s[i..i + |p|] == p
  }

  /** `s.find(p)`: the first position where `p` occurs, or -1. */
  function Find(s: string, p: string): int {
    if |s| < |p| then -1
    else if s[..|p|] == p then 0
    else
      var r := Find(s[1..], p);
      if r == -1 then -1 else r + 1
  }

  lemma {:induction false} FindSpec(s: string, p: string)
    ensures -1 <= Find(s, p) <= |s|
    ensures Find(s, p) == -1 ==> forall i :: !OccursAt(s, p, i)
    ensures Find(s, p) >= 0 ==> OccursAt(s, p, Find(s, p)) && forall i :: 0 <= i < Find(s, p) ==> !OccursAt(s, p, i)
  {
    if |s| >= |p| {
      if s[..|p|] == p {
        assert OccursAt(s, p, 0);
      } else {
        FindSpec(s[1..], p);
        assert !OccursAt(s, p, 0);
        forall i | 1 <= i
          ensures OccursAt(s, p, i) <==> OccursAt(s[1..], p, i - 1)
        {
          OccursShift(s, p, i);
        }
      }
    }
  }

  /** An occurrence past the first character is an occurrence in the tail. */
  lemma OccursShift(s: string, p: string, i: int)
    requires 1 <= i && s != []
    ensures OccursAt(s, p, i) <==> OccursAt(s[1..], p, i - 1)
  {
    if i + |p| <= |s| {
      assert s[1..][i - 1..i - 1 + |p|] == s[i..i + |p|];
    }
  }

  /** `s.rfind(c)`: the last position of `c` in `s`, or -1. */
  function RFind(s: string, c: char): (r: int)
    ensures -1 <= r < |s|
    ensures r == -1 ==> forall k :: 0 <= k < |s| ==> s[k] != c
    ensures r >= 0 ==> s[r] == c && forall k :: r < k < |s| ==> s[k] != c
  {
    if s == [] then -1
    else if s[|s| - 1] == c then |s| - 1
    else RFind(s[..|s| - 1], c)
  }

  /** The last occurrence is where `rfind` points. */
  lemma {:induction false} RFindAt(s: string, c: char, j: nat)
    requires j < |s| && s[j] == c && c !in s[j + 1..]
    ensures RFind(s, c) == j
  {
    if j < |s| - 1 {
      assert s[|s| - 1] == s[j + 1..][|s| - j - 2];
      assert s[..|s| - 1][j + 1..] == s[j + 1..|s| - 1];
      RFindAt(s[..|s| - 1], c, j);
    }
  }

  /** `rfind` points at or after every occurrence. */
  lemma {:induction false} RFindAtLeast(s: string, c: char, i: nat)
    requires i < |s| && s[i] == c
    ensures RFind(s, c) >= i
  {
    if s[|s| - 1] != c {
      RFindAtLeast(s[..|s| - 1], c, i);
    }
  }

  /** `p in s` */
  predicate Contains(s: string, p: string) {
    Find(s, p) >= 0
  }

  lemma ContainsAt(s: string, p: string, i: int)
    requires OccursAt(s, p, i)
    ensures Contains(s, p)
  {
    FindSpec(s, p);
  }

  /** `p in s` for a one-character `p` is Dafny's own membership. */
  lemma ContainsChar(s: string, c: char)
    ensures Contains(s, [c]) <==> c in s
  {
    if c in s {
      var i :| 0 <= i < |s| && s[i] == c;
      assert OccursAt(s, [c], i);
    }
    FindSpec(s, [c]);
    if Contains(s, [c]) {
      var i := Find(s, [c]);
      assert s[i..i + 1] == [c];
      assert s[i] in s;
    }
  }

  /** `s.split('\n')`: the lines of `s`; a trailing newline yields a final empty line. */
  function Lines(s: string): (r: seq<string>)
    ensures |r| >= 1
    ensures forall k :: 0 <= k < |r| ==> '\n' !in r[k]
  {
    if s == [] then [""]
    else if s[0] == '\n' then [""] + Lines(s[1..])
    else
      var t := Lines(s[1..]);
      [[s[0]] + t[0]] + t[1..]
  }

  /** `sep.join(xs)` */
  function Join(xs: seq<string>, sep: string): string {
    if xs == [] then ""
    else if |xs| == 1 then xs[0]
    else xs[0] + sep + Join(xs[1..], sep)
  }

  /** Each line followed by a newline, concatenated. */
  function ConcatLines(xs: seq<string>): string {
    if xs == [] then "" else xs[0] + "\n" + ConcatLines(xs[1..])
  }

  /** Concatenation of a sequence of strings. */
  function Concat(xs: seq<string>): string {
    if xs == [] then "" else Concat(xs[..|xs| - 1]) + xs[|xs| - 1]
  }

  lemma ConcatAppend(xs: seq<string>, ys: seq<string>)
    ensures Concat(xs + ys) == Concat(xs) + Concat(ys)
    decreases |ys|
  {
    if ys == [] {
      assert xs + ys == xs;
    } else {
      ConcatAppend(xs, ys[..|ys| - 1]);
      assert (xs + ys)[..|xs + ys| - 1] == xs + ys[..|ys| - 1];
    }
  }

  lemma ConcatLinesSnoc(xs: seq<string>, x: string)
    ensures ConcatLines(xs + [x]) == ConcatLines(xs) + x + "\n"
  {
    if xs != [] {
      assert (xs + [x])[1..] == xs[1..] + [x];
      ConcatLinesSnoc(xs[1..], x);
    }
  }

  /** Every line of `s`, each followed by a newline, gives back `s` plus one newline. */
  lemma {:induction false} ConcatLinesOfLines(s: string)
    ensures ConcatLines(Lines(s)) == s + "\n"
  {
    if s == [] {
    } else if s[0] == '\n' {
      ConcatLinesOfLines(s[1..]);
      assert s == "\n" + s[1..];
    } else {
      ConcatLinesOfLines(s[1..]);
      var t := Lines(s[1..]);
      var ls := [[s[0]] + t[0]] + t[1..];
      assert Lines(s) == ls;
      assert ls[1..] == t[1..];
      assert ConcatLines(ls) == [s[0]] + t[0] + "\n" + ConcatLines(t[1..]);
      assert ConcatLines(t) == t[0] + "\n" + ConcatLines(t[1..]);
      assert s + "\n" == [s[0]] + (s[1..] + "\n");
    }
  }

  /** Joining two non-empty lists is joining their joins. */
  lemma {:induction false} JoinAppend(xs: seq<string>, ys: seq<string>, sep: string)
    requires xs != [] && ys != []
    ensures Join(xs + ys, sep) == Join(xs, sep) + sep + Join(ys, sep)
  {
    if |xs| == 1 {
      assert (xs + ys)[1..] == ys;
    } else {
      assert (xs + ys)[1..] == xs[1..] + ys;
      JoinAppend(xs[1..], ys, sep);
    }
  }

  /** A string without newlines is a single line. */
  lemma {:induction false} LinesOfLine(s: string)
    requires '\n' !in s
    ensures Lines(s) == [s]
  {
    if s != [] {
      LinesOfLine(s[1..]);
      assert s == [s[0]] + s[1..];
    }
  }

  /** Splitting at a newline splits the lines. */
  lemma {:induction false} LinesSplit(a: string, b: string)
    ensures Lines(a + "\n" + b) == Lines(a) + Lines(b)
  {
    var s := a + "\n" + b;
    if a == [] {
      assert s == "\n" + b;
      assert s[1..] == b;
    } else {
      assert s[0] == a[0];
      assert s[1..] == a[1..] + "\n" + b;
      LinesSplit(a[1..], b);
    }
  }

  /** A newline-free prefix joins the first line. */
  lemma {:induction false} LinesPrefix(p: string, s: string)
    requires '\n' !in p
    ensures Lines(p + s) == [p + Lines(s)[0]] + Lines(s)[1..]
  {
    if p == [] {
      assert p + s == s && p + Lines(s)[0] == Lines(s)[0];
      assert [Lines(s)[0]] + Lines(s)[1..] == Lines(s);
    } else {
      var t := p + s;
      assert t[0] == p[0] && t[0] != '\n';
      assert t[1..] == p[1..] + s;
      LinesPrefix(p[1..], s);
      assert [p[0]] + (p[1..] + Lines(s)[0]) == p + Lines(s)[0];
    }
  }

  /** The lines of each string of `xs`, one after another. */
  function FlatLines(xs: seq<string>): seq<string> {
    if xs == [] then [] else Lines(xs[0]) + FlatLines(xs[1..])
  }

  /** The lines of a newline-joined list are the lines of its items. */
  lemma {:induction false} LinesOfJoin(xs: seq<string>)
    requires xs != []
    ensures Lines(Join(xs, "\n")) == FlatLines(xs)
  {
    if |xs| == 1 {
      assert FlatLines(xs) == Lines(xs[0]) + FlatLines(xs[1..]);
    } else {
      LinesOfJoin(xs[1..]);
      LinesSplit(xs[0], Join(xs[1..], "\n"));
    }
  }

  /** Joining newline-free items with newlines and splitting again gives the items back. */
  lemma {:induction false} LinesOfJoinedLines(xs: seq<string>)
    requires xs != []
    requires forall k :: 0 <= k < |xs| ==> '\n' !in xs[k]
    ensures Lines(Join(xs, "\n")) == xs
  {
    LinesOfJoin(xs);
    FlatLinesOfLines(xs);
  }

  lemma {:induction false} FlatLinesOfLines(xs: seq<string>)
    requires forall k :: 0 <= k < |xs| ==> '\n' !in xs[k]
    ensures FlatLines(xs) == xs
  {
    if xs != [] {
      LinesOfLine(xs[0]);
      FlatLinesOfLines(xs[1..]);
    }
  }

  /** A join begins with its first item. */
  lemma JoinStartsWithFirst(xs: seq<string>, sep: string)
    requires xs != []
    ensures |xs[0]| <= |Join(xs, sep)| && Join(xs, sep)[..|xs[0]|] == xs[0]
  {
    if |xs| > 1 {
      assert Join(xs, sep) == xs[0] + (sep + Join(xs[1..], sep));
    }
  }
}
