/** `lex`, which both assembly tokenizers define identically: remove every
    `//` comment up to the end of its line, split the text at `\n`, keep the
    lines that are not blank and cut each into fields with the regular
    expression `"[^"]*"|[^,\s]+` (a double-quoted run without an inner quote,
    or a maximal run of characters that are neither commas nor whitespace). */
module AsmLex {
  import opened PyStr

  // ---------------------------------------------------------------- comments

  predicate HasCommentAt(s: string, i: int) {
    0 <= i && i + 1 < |s| && s[i] == '/' && s[i + 1] == '/'
  }

  /** No `//` occurs anywhere in `s`. */
  predicate CommentFree(s: string) {
    forall i :: 0 <= i < |s| ==> !HasCommentAt(s, i)
  }

  /** Index of the first `\n` of `s`, or `|s|` when there is none. */
  function LineEnd(s: string): (k: nat)
    ensures k <= |s|
    ensures forall i :: 0 <= i < k ==> s[i] != '\n'
    ensures k < |s| ==> s[k] == '\n'
  {
    if |s| == 0 || s[0] == '\n' then 0 else 1 + LineEnd(s[1..])
  }

  /** `re.sub(r'//.*', '', s)`: the scan finds the leftmost `//`, removes it and
      everything after it up to (not including) the next `\n`, and resumes
      there. */
  function StripComments(s: string): string
    decreases |s|
  {
    if |s| == 0 then []
    else if HasCommentAt(s, 0) then StripComments(s[LineEnd(s)..])
    else [s[0]] + StripComments(s[1..])
  }

  /** One line (no `\n` in it) with its comment cut off. */
  function CutComment(line: string): (r: string)
    decreases |line|
  {
    if |line| == 0 then []
    else if HasCommentAt(line, 0) then []
    else [line[0]] + CutComment(line[1..])
  }

  // ------------------------------------------------------------------- lines

  /** Python `s.split('\n')`: always at least one piece, no piece holds `\n`. */
  function SplitLines(s: string): (r: seq<string>)
    ensures |r| >= 1
    decreases |s|
  {
    var k := LineEnd(s);
    if k == |s| then [s] else [s[..k]] + SplitLines(s[k + 1..])
  }

  function CutLines(lines: seq<string>): (r: seq<string>)
    ensures |r| == |lines|
  {
    if |lines| == 0 then [] else [CutComment(lines[0])] + CutLines(lines[1..])
  }

  // ------------------------------------------------------------------ fields

  /** A character that `[^,\s]` matches. */
  predicate IsFieldChar(c: char) {
    c != ',' && !IsSpace(c)
  }

  /** Length of the run of field characters at the start of `s`. */
  function RunLength(s: string): (k: nat)
    ensures k <= |s|
    ensures forall i :: 0 <= i < k ==> IsFieldChar(s[i])
    ensures k < |s| ==> !IsFieldChar(s[k])
  {
    if |s| == 0 || !IsFieldChar(s[0]) then 0 else 1 + RunLength(s[1..])
  }

  /** Index of the first `"` of `s`, or `|s|`. */
  function QuoteIndex(s: string): (k: nat)
    ensures k <= |s|
    ensures forall i :: 0 <= i < k ==> s[i] != '"'
    ensures k < |s| ==> s[k] == '"'
  {
    if |s| == 0 || s[0] == '"' then 0 else 1 + QuoteIndex(s[1..])
  }

  /** `"[^"]*"`: quotes at both ends, none inside. */
  predicate IsQuotedField(f: string) {
    |f| >= 2 && f[0] == '"' && f[|f| - 1] == '"' && forall i :: 0 < i < |f| - 1 ==> f[i] != '"'
  }

  /** `[^,\s]+`: a non-empty run of field characters. */
  predicate IsBareField(f: string) {
    |f| > 0 && forall i :: 0 <= i < |f| ==> IsFieldChar(f[i])
  }

  /** `re.findall(r'"[^"]*"|[^,\s]+', line)`. At each position the quoted
      alternative is tried first; the bare alternative also accepts a `"`
      whose closing quote is missing. A position that neither matches is
      skipped. */
  function Fields(line: string): (r: seq<string>)
    ensures forall j :: 0 <= j < |r| ==> IsQuotedField(r[j]) || IsBareField(r[j])
    decreases |line|
  {
    if |line| == 0 then []
    else if line[0] == '"' && QuoteIndex(line[1..]) < |line| - 1 then
      var k := QuoteIndex(line[1..]) + 2;
      assert IsQuotedField(line[..k]);
      [line[..k]] + Fields(line[k..])
    else if IsFieldChar(line[0]) then
      var k := RunLength(line);
      [line[..k]] + Fields(line[k..])
    else Fields(line[1..])
  }

  // --------------------------------------------------------------------- lex

  /** The lines that are not blank, in their order, each one an input line. */
  function ContentLines(lines: seq<string>): (r: seq<string>)
    ensures |r| <= |lines|
    ensures forall j :: 0 <= j < |r| ==> NotBlank(r[j]) && r[j] in lines
  {
    if |lines| == 0 then []
    else if NotBlank(lines[0]) then [lines[0]] + ContentLines(lines[1..])
    else ContentLines(lines[1..])
  }

  /** `[tokenize(line) for line in lines if line.strip()]`. */
  function LexLines(lines: seq<string>): seq<seq<string>> {
    if |lines| == 0 then []
    else if NotBlank(lines[0]) then [Fields(lines[0])] + LexLines(lines[1..])
    else LexLines(lines[1..])
  }

  /** One field list per non-blank line, in order. */
  lemma {:induction false} LexLinesContent(lines: seq<string>)
    ensures |LexLines(lines)| == |ContentLines(lines)| <= |lines|
    ensures forall j :: 0 <= j < |LexLines(lines)| ==> LexLines(lines)[j] == Fields(ContentLines(lines)[j])
  {
    if |lines| > 0 {
      var rest, kept := LexLines(lines[1..]), ContentLines(lines[1..]);
      LexLinesContent(lines[1..]);
      if NotBlank(lines[0]) {
        assert LexLines(lines) == [Fields(lines[0])] + rest;
        assert ContentLines(lines) == [lines[0]] + kept;
        forall j | 1 <= j < |LexLines(lines)|
          ensures LexLines(lines)[j] == Fields(ContentLines(lines)[j])
        {
          assert LexLines(lines)[j] == rest[j - 1];
          assert ContentLines(lines)[j] == kept[j - 1];
        }
      }
    }
  }

  function Lex(s: string): seq<seq<string>> {
    LexLines(SplitLines(StripComments(s)))
  }

  // ----------------------------------------------------------------- lemmas

  /** After stripping, no `//` is left. */
  lemma {:induction false} StripCommentsFree(s: string)
    ensures CommentFree(StripComments(s))
    decreases |s|
  {
    if |s| == 0 {
    } else if HasCommentAt(s, 0) {
      StripCommentsFree(s[LineEnd(s)..]);
    } else {
      var t := StripComments(s[1..]);
      StripCommentsFree(s[1..]);
      StripHead(s[1..]);
      var r := [s[0]] + t;
      forall i | 0 <= i < |r|
        ensures !HasCommentAt(r, i)
      {
        if i > 0 {
          assert !HasCommentAt(t, i - 1);
        } else {
          assert |t| > 0 && t[0] == '/' ==> |s| > 1 && s[1] == '/';
        }
      }
    }
  }

  /** The first character of the stripped text is `s[0]`, unless a comment
      starts at 0 (then stripping starts at the next line break). */
  lemma {:induction false} StripHead(s: string)
    ensures |StripComments(s)| > 0 && StripComments(s)[0] == '/' ==> |s| > 0 && s[0] == '/' && !HasCommentAt(s, 0)
    decreases |s|
  {
    if |s| > 0 && HasCommentAt(s, 0) {
      var k := LineEnd(s);
      var rest := s[k..];
      StripHead(rest);
      assert |rest| > 0 ==> rest[0] == '\n';
    }
  }

  /** Text without `//` is left as it is. */
  lemma {:induction false} StripCommentFreeIdentity(s: string)
    requires CommentFree(s)
    ensures StripComments(s) == s
    decreases |s|
  {
    if |s| > 0 {
      assert !HasCommentAt(s, 0);
      assert CommentFree(s[1..]) by {
        forall i | 0 <= i < |s[1..]| ensures !HasCommentAt(s[1..], i) {
          assert !HasCommentAt(s, i + 1);
        }
      }
      StripCommentFreeIdentity(s[1..]);
    }
  }

  /** Stripping is idempotent. */
  lemma StripIdempotent(s: string)
    ensures StripComments(StripComments(s)) == StripComments(s)
  {
    StripCommentsFree(s);
    StripCommentFreeIdentity(StripComments(s));
  }

  /** A line, up to its `\n`, is stripped on its own: the comment cut never
      reaches into the next line. */
  lemma {:induction false} StripLine(line: string, rest: string)
    requires forall i :: 0 <= i < |line| ==> line[i] != '\n'
    ensures StripComments(line + "\n" + rest) == CutComment(line) + "\n" + StripComments(rest)
    ensures StripComments(line) == CutComment(line)
    decreases |line|
  {
    if |line| == 0 {
      StripNewline(rest);
      assert line + "\n" + rest == "\n" + rest;
    } else if HasCommentAt(line, 0) {
      StripLineComment(line, rest);
    } else {
      StripLineStep(line, rest);
      StripLine(line[1..], rest);
      assert [line[0]] + (CutComment(line[1..]) + "\n" + StripComments(rest))
        == [line[0]] + CutComment(line[1..]) + "\n" + StripComments(rest);
    }
  }

  lemma StripNewline(rest: string)
    ensures StripComments("\n" + rest) == "\n" + StripComments(rest)
  {
    assert !HasCommentAt("\n" + rest, 0);
    assert ("\n" + rest)[1..] == rest;
  }

  /** A line that starts with `//` strips to nothing, up to its `\n`. */
  lemma StripLineComment(line: string, rest: string)
    requires forall i :: 0 <= i < |line| ==> line[i] != '\n'
    requires HasCommentAt(line, 0)
    ensures StripComments(line + "\n" + rest) == "\n" + StripComments(rest)
    ensures StripComments(line) == []
  {
    var s := line + "\n" + rest;
    assert HasCommentAt(s, 0);
    LineEndAt(line, rest);
    assert s[|line|..] == "\n" + rest;
    StripNewline(rest);
    LineEndFree(line);
    assert line[|line|..] == [];
  }

  /** A first character that does not open a comment is kept. */
  lemma StripLineStep(line: string, rest: string)
    requires forall i :: 0 <= i < |line| ==> line[i] != '\n'
    requires |line| > 0 && !HasCommentAt(line, 0)
    ensures StripComments(line + "\n" + rest) == [line[0]] + StripComments(line[1..] + "\n" + rest)
    ensures StripComments(line) == [line[0]] + StripComments(line[1..])
  {
    var s := line + "\n" + rest;
    assert !HasCommentAt(s, 0) by {
      if |line| == 1 { assert s[1] == '\n'; }
    }
    assert s[1..] == line[1..] + "\n" + rest;
  }

  lemma {:induction false} LineEndAt(line: string, rest: string)
    requires forall i :: 0 <= i < |line| ==> line[i] != '\n'
    ensures LineEnd(line + "\n" + rest) == |line|
    decreases |line|
  {
    if |line| > 0 {
      assert (line + "\n" + rest)[1..] == line[1..] + "\n" + rest;
      LineEndAt(line[1..], rest);
    }
  }

  lemma {:induction false} LineEndFree(line: string)
    requires forall i :: 0 <= i < |line| ==> line[i] != '\n'
    ensures LineEnd(line) == |line|
    decreases |line|
  {
    if |line| > 0 {
      LineEndFree(line[1..]);
    }
  }

  lemma {:induction false} CutCommentNoNewline(line: string)
    requires forall i :: 0 <= i < |line| ==> line[i] != '\n'
    ensures forall i :: 0 <= i < |CutComment(line)| ==> CutComment(line)[i] != '\n'
    ensures |CutComment(line)| <= |line|
    decreases |line|
  {
    if |line| > 0 && !HasCommentAt(line, 0) {
      CutCommentNoNewline(line[1..]);
    }
  }

  /** Removing comments and then splitting gives the lines of the source text,
      each with its own comment cut off: `lex` works line by line. */
  lemma {:induction false} StripThenSplit(s: string)
    ensures SplitLines(StripComments(s)) == CutLines(SplitLines(s))
    decreases |s|
  {
    var k := LineEnd(s);
    var line := s[..k];
    if k == |s| {
      assert s == line;
      StripLine(line, "");
      CutCommentNoNewline(line);
      LineEndFree(CutComment(line));
    } else {
      var rest := s[k + 1..];
      assert s == line + "\n" + rest;
      StripLine(line, rest);
      CutCommentNoNewline(line);
      LineEndAt(CutComment(line), StripComments(rest));
      var t := CutComment(line) + "\n" + StripComments(rest);
      assert t[..|CutComment(line)|] == CutComment(line);
      assert t[|CutComment(line)| + 1..] == StripComments(rest);
      StripThenSplit(rest);
    }
  }

  /** `lex` in terms of the lines of its input. */
  lemma LexByLine(s: string)
    ensures Lex(s) == LexLines(CutLines(SplitLines(s)))
  {
    StripThenSplit(s);
  }

  /** Comma and whitespace runs between fields produce nothing. */
  lemma {:induction false} FieldsSkip(sep: string, rest: string)
    requires forall i :: 0 <= i < |sep| ==> !IsFieldChar(sep[i])
    ensures Fields(sep + rest) == Fields(rest)
    decreases |sep|
  {
    if |sep| > 0 {
      assert (sep + rest)[0] == sep[0];
      assert (sep + rest)[1..] == sep[1..] + rest;
      FieldsSkip(sep[1..], rest);
    } else {
      assert sep + rest == rest;
    }
  }

  /** A field that is quoted, or bare and not starting with a quote, comes back
      as one match when a separator or the end of the line follows it. */
  predicate IsPlainField(f: string) {
    IsQuotedField(f) || (IsBareField(f) && f[0] != '"')
  }

  lemma FieldsFirst(f: string, rest: string)
    requires IsPlainField(f)
    requires |rest| == 0 || !IsFieldChar(rest[0])
    ensures Fields(f + rest) == [f] + Fields(rest)
  {
    var s := f + rest;
    if IsQuotedField(f) {
      QuoteAt(f[1..], rest, |f| - 2);
      assert s[1..] == f[1..] + rest;
      assert s[..|f|] == f;
      assert s[|f|..] == rest;
    } else {
      RunAt(f, rest);
      assert s[..|f|] == f;
      assert s[|f|..] == rest;
    }
  }

  lemma {:induction false} QuoteAt(a: string, rest: string, k: nat)
    requires k < |a| && a[k] == '"' && forall i :: 0 <= i < k ==> a[i] != '"'
    ensures QuoteIndex(a + rest) == k
    decreases k
  {
    if k > 0 {
      assert (a + rest)[1..] == a[1..] + rest;
      QuoteAt(a[1..], rest, k - 1);
    }
  }

  lemma {:induction false} RunAt(f: string, rest: string)
    requires forall i :: 0 <= i < |f| ==> IsFieldChar(f[i])
    requires |rest| == 0 || !IsFieldChar(rest[0])
    ensures RunLength(f + rest) == |f|
    decreases |f|
  {
    if |f| > 0 {
      assert (f + rest)[1..] == f[1..] + rest;
      RunAt(f[1..], rest);
    } else {
      assert f + rest == rest;
    }
  }

  /** `sep.join(fields)`. */
  function Join(fs: seq<string>, sep: string): string {
    if |fs| == 0 then []
    else if |fs| == 1 then fs[0]
    else fs[0] + sep + Join(fs[1..], sep)
  }

  /** Fields written out with any non-empty separator of commas and
      whitespace are read back unchanged. */
  lemma {:induction false} FieldsJoin(fs: seq<string>, sep: string)
    requires forall j :: 0 <= j < |fs| ==> IsPlainField(fs[j])
    requires |sep| > 0 && forall i :: 0 <= i < |sep| ==> !IsFieldChar(sep[i])
    ensures Fields(Join(fs, sep)) == fs
  {
    if |fs| == 1 {
      FieldsFirst(fs[0], []);
      assert fs[0] + [] == fs[0];
    } else if |fs| > 1 {
      var tail := Join(fs[1..], sep);
      assert fs[0] + sep + tail == fs[0] + (sep + tail);
      FieldsFirst(fs[0], sep + tail);
      FieldsSkip(sep, tail);
      FieldsJoin(fs[1..], sep);
    }
  }
}
