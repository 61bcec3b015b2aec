/** The first assembler's tokenizer (assembler/tokenizer.py): a `Parser`
    that pops field lists off a queue and appends one token per consumed
    line, plus `tokenize = Parser(lex(asm)).parse()`.

    A statement line with one field or with four or more fields is never
    consumed, so `parse`'s `while` loop runs forever on it; the model reports
    that as `Err(Diverges)`. */
module AsmTokenizer {
  import opened Outcomes
  import opened AsmLex
  import opened AsmTokens

  /** What `_line` does with the line at the front of the queue. */
  datatype Step = Emit(token: Token) | Stuck | Raise(error: Error)

  /** `x[0].startswith('.')` and `x[0].endswith(':')`. */
  predicate IsDirectiveLine(f: seq<string>) requires |f| > 0 { |f[0]| > 0 && f[0][0] == '.' }
  predicate IsLabelLine(f: seq<string>) requires |f| > 0 { |f[0]| > 0 && f[0][|f[0]| - 1] == ':' }

  /** `_statement`: the `ops` table knows `mov`, `adr` and `svc`; the lookup
      happens after the line is popped (KeyError), then the dataclass call
      checks the argument count (TypeError). */
  function StatementStep(f: seq<string>): (r: Step)
    requires |f| > 0
    ensures r.Stuck? <==> |f| != 2 && |f| != 3
    ensures r.Emit? ==> r.token.IsInstruction() && r.token.name == f[0]
    ensures r.Raise? && f[0] !in {"mov", "adr", "svc"} ==> r.error == KeyError
  {
    if |f| == 3 then
      if f[0] == "mov" then Emit(Mov(f[0], f[1], f[2]))
      else if f[0] == "adr" then Emit(Adr(f[0], f[1], f[2], 0))
      else if f[0] == "svc" then Raise(TypeError)
      else Raise(KeyError)
    else if |f| == 2 then
      if f[0] == "svc" then Emit(Svc(f[0], f[1]))
      else if f[0] == "mov" || f[0] == "adr" then Raise(TypeError)
      else Raise(KeyError)
    else Stuck
  }

  /** `_line`: a directive is recognised before a label, and a label before
      a statement. */
  function LineStep(f: seq<string>): (r: Step)
    ensures |f| == 0 ==> r == Raise(IndexError)
    ensures |f| > 0 && IsDirectiveLine(f) ==>
      r == if |f| == 2 then Emit(Directive(f[0], f[1])) else Raise(ValueError)
    ensures |f| > 0 && !IsDirectiveLine(f) && IsLabelLine(f) ==> r == Emit(Label(DropLast(f[0])))
    ensures r.Stuck? <==> |f| > 0 && !IsDirectiveLine(f) && !IsLabelLine(f) && (|f| == 1 || |f| >= 4)
  {
    if |f| == 0 then Raise(IndexError)
    else if IsDirectiveLine(f) then
      if |f| == 2 then Emit(Directive(f[0], f[1])) else Raise(ValueError)
    else if IsLabelLine(f) then Emit(Label(DropLast(f[0])))
    else StatementStep(f)
  }

  /** `parse` on a queue of lines: one token per line, in order, stopping at
      the first line that raises or is never consumed. */
  function ParseSpec(lines: seq<seq<string>>): Result<seq<Token>> {
    if |lines| == 0 then Ok([])
    else
      match LineStep(lines[0])
      case Emit(t) => Then([t], ParseSpec(lines[1..]))
      case Stuck => Err(Diverges)
      case Raise(e) => Err(e)
  }

  /** Parsing succeeds exactly when every line gives a token, and then the
      i-th token is the i-th line's. */
  lemma {:induction false} ParseSpecOk(lines: seq<seq<string>>)
    ensures ParseSpec(lines).Ok? <==> forall i :: 0 <= i < |lines| ==> LineStep(lines[i]).Emit?
    ensures ParseSpec(lines).Ok? ==> |ParseSpec(lines).value| == |lines|
    ensures ParseSpec(lines).Ok? ==>
      forall i :: 0 <= i < |lines| ==> ParseSpec(lines).value[i] == LineStep(lines[i]).token
  {
    if |lines| > 0 {
      ParseSpecOk(lines[1..]);
      assert forall i :: 1 <= i < |lines| ==> lines[1..][i - 1] == lines[i];
    }
  }

  /** A failing parse reports the first line that does not give a token:
      its exception, or Diverges when the line is never consumed. */
  lemma {:induction false} ParseSpecErr(lines: seq<seq<string>>)
    requires ParseSpec(lines).Err?
    ensures exists i :: (0 <= i < |lines| && !LineStep(lines[i]).Emit?
      && (forall j :: 0 <= j < i ==> LineStep(lines[j]).Emit?)
      && ParseSpec(lines).error == (if LineStep(lines[i]).Stuck? then Diverges else LineStep(lines[i]).error))
  {
    if LineStep(lines[0]).Emit? {
      ParseSpecErr(lines[1..]);
      var k :| 0 <= k < |lines[1..]| && !LineStep(lines[1..][k]).Emit?
        && (forall j :: 0 <= j < k ==> LineStep(lines[1..][j]).Emit?)
        && ParseSpec(lines[1..]).error == (if LineStep(lines[1..][k]).Stuck? then Diverges else LineStep(lines[1..][k]).error);
      assert lines[1..][k] == lines[k + 1];
      assert forall j :: 1 <= j < k + 1 ==> lines[1..][j - 1] == lines[j];
    }
  }

  lemma {:induction false} ParseSpecAppend(a: seq<seq<string>>, b: seq<seq<string>>)
    requires ParseSpec(a).Ok?
    ensures ParseSpec(a + b) == Then(ParseSpec(a).value, ParseSpec(b))
  {
    if |a| > 0 {
      assert (a + b)[0] == a[0];
      assert (a + b)[1..] == a[1..] + b;
      ParseSpecAppend(a[1..], b);
      var t := LineStep(a[0]).token;
      var v := ParseSpec(a[1..]).value;
      match ParseSpec(b)
      case Ok(w) =>
        assert [t] + (v + w) == ([t] + v) + w;
      case Err(_) =>
    } else {
      assert a + b == b;
      match ParseSpec(b)
      case Ok(v) => assert [] + v == v;
      case Err(_) =>
    }
  }

  class Parser {
    const tokens: seq<seq<string>>
    var q: seq<seq<string>>
    var out: seq<Token>

    constructor (tokens: seq<seq<string>>)
      ensures this.tokens == tokens && q == tokens && out == []
    {
      this.tokens := tokens;
      q := tokens;
      out := [];
    }

    /** `_directive`: pops the line, then unpacks exactly two fields. */
    method ParseDirective() returns (s: Step)
      requires |q| > 0 && |q[0]| > 0 && IsDirectiveLine(q[0])
      modifies this
      ensures s == LineStep(old(q)[0])
      ensures q == old(q)[1..]
      ensures out == if s.Emit? then old(out) + [s.token] else old(out)
    {
      var line := q[0];
      q := q[1..];
      if |line| != 2 {
        return Raise(ValueError);
      }
      var t := Directive(line[0], line[1]);
      out := out + [t];
      s := Emit(t);
    }

    /** `_label`: pops the line and keeps its first field without the colon. */
    method ParseLabel() returns (s: Step)
      requires |q| > 0 && |q[0]| > 0 && !IsDirectiveLine(q[0]) && IsLabelLine(q[0])
      modifies this
      ensures s == LineStep(old(q)[0]) && s.Emit?
      ensures q == old(q)[1..] && out == old(out) + [s.token]
    {
      var line := q[0];
      q := q[1..];
      var t := Label(DropLast(line[0]));
      out := out + [t];
      s := Emit(t);
    }

    /** `_statement`: a 3-field or 2-field line is popped and built; any other
        line is left where it is. */
    method ParseStatement() returns (s: Step)
      requires |q| > 0 && |q[0]| > 0 && !IsDirectiveLine(q[0]) && !IsLabelLine(q[0])
      modifies this
      ensures s == LineStep(old(q)[0])
      ensures q == if s.Stuck? then old(q) else old(q)[1..]
      ensures out == if s.Emit? then old(out) + [s.token] else old(out)
    {
      var line := q[0];
      if |line| == 3 {
        q := q[1..];
        var name := line[0];
        if name == "mov" {
          s := Emit(Mov(name, line[1], line[2]));
        } else if name == "adr" {
          s := Emit(Adr(name, line[1], line[2], 0));
        } else if name == "svc" {
          s := Raise(TypeError);
        } else {
          s := Raise(KeyError);
        }
      } else if |line| == 2 {
        q := q[1..];
        var name := line[0];
        if name == "svc" {
          s := Emit(Svc(name, line[1]));
        } else if name == "mov" || name == "adr" {
          s := Raise(TypeError);
        } else {
          s := Raise(KeyError);
        }
      } else {
        s := Stuck;
      }
      if s.Emit? {
        out := out + [s.token];
      }
    }

    /** `_line`. */
    method ParseLine() returns (s: Step)
      requires |q| > 0
      modifies this
      ensures s == LineStep(old(q)[0])
      ensures q == if s.Stuck? || |old(q)[0]| == 0 then old(q) else old(q)[1..]
      ensures out == if s.Emit? then old(out) + [s.token] else old(out)
    {
      if |q[0]| == 0 {
        return Raise(IndexError);
      }
      if IsDirectiveLine(q[0]) {
        s := ParseDirective();
      } else if IsLabelLine(q[0]) {
        s := ParseLabel();
      } else {
        s := ParseStatement();
      }
    }

    /** `parse`: runs `_line` while the queue is non-empty. A step that
        consumes nothing would repeat forever. */
    method Parse() returns (r: Result<seq<Token>>)
      modifies this
      ensures r == Then(old(out), ParseSpec(old(q)))
    {
      ghost var emitted: seq<Token> := [];
      ThenNothing(ParseSpec(q));
      while |q| > 0
        invariant ParseSpec(old(q)) == Then(emitted, ParseSpec(q))
        invariant out == old(out) + emitted
        decreases |q|
      {
        ghost var rest := q[1..];
        var s := ParseLine();
        if !s.Emit? {
          r := Err(if s.Stuck? then Diverges else s.error);
          return;
        }
        ThenThen(emitted, s.token, ParseSpec(rest));
        emitted := emitted + [s.token];
      }
      assert emitted + [] == emitted;
      r := Ok(out);
    }
  }

  /** `tokenize(asm)`. */
  method Tokenize(asm: string) returns (r: Result<seq<Token>>)
    ensures r == ParseSpec(Lex(asm))
  {
    var p := new Parser(Lex(asm));
    r := p.Parse();
    ThenNothing(ParseSpec(Lex(asm)));
  }
}
