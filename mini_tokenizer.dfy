/** The compiler's assembly tokenizer (minicompiler/assembler/tokenizer.py).
    It shares `lex` with the first tokenizer; its `_statement` looks the
    mnemonic up in a table of seven spellings and passes the whole field
    list, mnemonic included, as the positional arguments of the token's
    dataclass. Every `_line` call pops exactly one line or raises, so
    `parse` always terminates. */
module MiniTokenizer {
  import opened Outcomes
  import opened AsmLex
  import opened MiniTokens

  predicate IsDirectiveLine(f: seq<string>) requires |f| > 0 { |f[0]| > 0 && f[0][0] == '.' }
  predicate IsLabelLine(f: seq<string>) requires |f| > 0 { |f[0]| > 0 && f[0][|f[0]| - 1] == ':' }

  /** The keys of the `ops` table. */
  const Mnemonics: set<string> := {"mov", "MOV", "adr", "add", "ADD", "svc", "RET"}

  /** `ops[op[0]](*op)`: KeyError for an unknown mnemonic, TypeError when the
      dataclass does not take that many positional arguments (MOV 3, ADR 3 or
      4, ADD 4, SVC 2, RET 1). */
  function StatementStep(f: seq<string>): (r: Result<Token>)
    requires |f| > 0
    ensures f[0] !in Mnemonics <==> r == Err(KeyError)
    ensures r.Ok? ==> r.value.IsInstruction() && r.value.name == f[0]
    ensures r.Ok? && r.value.Add? ==> |f| == 4 && r.value.s1 == f[1] && r.value.s2 == f[2] && r.value.dst == f[3]
    ensures r.Ok? && r.value.Adr? ==> (|f| == 3 || |f| == 4) && r.value.imm == if |f| == 4 then TextImm(f[3]) else IntImm(0)
  {
    var name := f[0];
    if name == "mov" || name == "MOV" then
      if |f| == 3 then Ok(Mov(name, f[1], f[2])) else Err(TypeError)
    else if name == "adr" then
      if |f| == 3 then Ok(Adr(name, f[1], f[2], IntImm(0)))
      else if |f| == 4 then Ok(Adr(name, f[1], f[2], TextImm(f[3])))
      else Err(TypeError)
    else if name == "add" || name == "ADD" then
      if |f| == 4 then Ok(Add(name, f[1], f[2], f[3])) else Err(TypeError)
    else if name == "svc" then
      if |f| == 2 then Ok(Svc(name, f[1])) else Err(TypeError)
    else if name == "RET" then
      if |f| == 1 then Ok(Ret(name)) else Err(TypeError)
    else Err(KeyError)
  }

  /** `_line`: a directive is recognised before a label, and a label before
      a statement. */
  function LineStep(f: seq<string>): (r: Result<Token>)
    ensures |f| == 0 ==> r == Err(IndexError)
    ensures |f| > 0 && IsDirectiveLine(f) ==>
      r == if |f| == 2 then Ok(Directive(f[0], f[1])) else Err(ValueError)
    ensures |f| > 0 && !IsDirectiveLine(f) && IsLabelLine(f) ==> r == Ok(Label(DropLast(f[0])))
  {
    if |f| == 0 then Err(IndexError)
    else if IsDirectiveLine(f) then
      if |f| == 2 then Ok(Directive(f[0], f[1])) else Err(ValueError)
    else if IsLabelLine(f) then Ok(Label(DropLast(f[0])))
    else StatementStep(f)
  }

  /** `parse` on a queue of lines. */
  function ParseSpec(lines: seq<seq<string>>): Result<seq<Token>> {
    if |lines| == 0 then Ok([])
    else
      match LineStep(lines[0])
      case Ok(t) => Then([t], ParseSpec(lines[1..]))
      case Err(e) => Err(e)
  }

  /** One token per line, in line order, or the exception of the first line
      that cannot be turned into a token. */
  lemma {:induction false} ParseSpecOk(lines: seq<seq<string>>)
    ensures ParseSpec(lines).Ok? <==> forall i :: 0 <= i < |lines| ==> LineStep(lines[i]).Ok?
    ensures ParseSpec(lines).Ok? ==> |ParseSpec(lines).value| == |lines|
    ensures ParseSpec(lines).Ok? ==>
      forall i :: 0 <= i < |lines| ==> ParseSpec(lines).value[i] == LineStep(lines[i]).value
  {
    if |lines| > 0 {
      ParseSpecOk(lines[1..]);
      assert forall i :: 1 <= i < |lines| ==> lines[1..][i - 1] == lines[i];
    }
  }

  lemma {:induction false} ParseSpecErr(lines: seq<seq<string>>)
    requires ParseSpec(lines).Err?
    ensures exists i :: (0 <= i < |lines| && LineStep(lines[i]).Err?
      && (forall j :: 0 <= j < i ==> LineStep(lines[j]).Ok?)
      && ParseSpec(lines).error == LineStep(lines[i]).error)
  {
    if LineStep(lines[0]).Ok? {
      ParseSpecErr(lines[1..]);
      var k :| 0 <= k < |lines[1..]| && LineStep(lines[1..][k]).Err?
        && (forall j :: 0 <= j < k ==> LineStep(lines[1..][j]).Ok?)
        && ParseSpec(lines[1..]).error == LineStep(lines[1..][k]).error;
      assert lines[1..][k] == lines[k + 1];
      assert forall j :: 1 <= j < k + 1 ==> lines[1..][j - 1] == lines[j];
    }
  }

  lemma {:induction false} ParseSpecAppend(a: seq<seq<string>>, b: seq<seq<string>>)
    requires ParseSpec(a).Ok?
    ensures ParseSpec(a + b) == Then(ParseSpec(a).value, ParseSpec(b))
  {
    if |a| > 0 {
      assert (a + b)[0] == a[0];
      assert (a + b)[1..] == a[1..] + b;
      ParseSpecAppend(a[1..], b);
      var t := LineStep(a[0]).value;
      var v := ParseSpec(a[1..]).value;
      match ParseSpec(b)
      case Ok(w) =>
        assert [t] + (v + w) == ([t] + v) + w;
      case Err(_) =>
    } else {
      assert a + b == b;
      match ParseSpec(b)
      case Ok(v) => assert [] + v == v;
      case Err(_) =>
    }
  }

  class Parser {
    const tokens: seq<seq<string>>
    var q: seq<seq<string>>
    var out: seq<Token>

    constructor (tokens: seq<seq<string>>)
      ensures this.tokens == tokens && q == tokens && out == []
    {
      this.tokens := tokens;
      q := tokens;
      out := [];
    }

    /** `_directive`: pops the line, then unpacks exactly two fields. */
    method ParseDirective() returns (r: Result<Token>)
      requires |q| > 0 && |q[0]| > 0 && IsDirectiveLine(q[0])
      modifies this
      ensures r == LineStep(old(q)[0])
      ensures q == old(q)[1..]
      ensures out == if r.Ok? then old(out) + [r.value] else old(out)
    {
      var line := q[0];
      q := q[1..];
      if |line| != 2 {
        return Err(ValueError);
      }
      var t := Directive(line[0], line[1]);
      out := out + [t];
      r := Ok(t);
    }

    /** `_label`. */
    method ParseLabel() returns (r: Result<Token>)
      requires |q| > 0 && |q[0]| > 0 && !IsDirectiveLine(q[0]) && IsLabelLine(q[0])
      modifies this
      ensures r == LineStep(old(q)[0]) && r.Ok?
      ensures q == old(q)[1..] && out == old(out) + [r.value]
    {
      var line := q[0];
      q := q[1..];
      var t := Label(DropLast(line[0]));
      out := out + [t];
      r := Ok(t);
    }

    /** `_statement`: pops the line, then builds the token. */
    method ParseStatement() returns (r: Result<Token>)
      requires |q| > 0 && |q[0]| > 0 && !IsDirectiveLine(q[0]) && !IsLabelLine(q[0])
      modifies this
      ensures r == LineStep(old(q)[0])
      ensures q == old(q)[1..]
      ensures out == if r.Ok? then old(out) + [r.value] else old(out)
    {
      var op := q[0];
      q := q[1..];
      r := StatementStep(op);
      if r.Ok? {
        out := out + [r.value];
      }
    }

    /** `_line`: consumes the front line unless `x[0]` fails on an empty one. */
    method ParseLine() returns (r: Result<Token>)
      requires |q| > 0
      modifies this
      ensures r == LineStep(old(q)[0])
      ensures q == if |old(q)[0]| == 0 then old(q) else old(q)[1..]
      ensures out == if r.Ok? then old(out) + [r.value] else old(out)
    {
      if |q[0]| == 0 {
        return Err(IndexError);
      }
      if IsDirectiveLine(q[0]) {
        r := ParseDirective();
      } else if IsLabelLine(q[0]) {
        r := ParseLabel();
      } else {
        r := ParseStatement();
      }
    }

    /** `parse`. */
    method Parse() returns (r: Result<seq<Token>>)
      modifies this
      ensures r == Then(old(out), ParseSpec(old(q)))
    {
      ghost var emitted: seq<Token> := [];
      ThenNothing(ParseSpec(q));
      while |q| > 0
        invariant ParseSpec(old(q)) == Then(emitted, ParseSpec(q))
        invariant out == old(out) + emitted
        decreases |q|
      {
        ghost var rest := q[1..];
        var s := ParseLine();
        if s.Err? {
          r := Err(s.error);
          return;
        }
        ThenThen(emitted, s.value, ParseSpec(rest));
        emitted := emitted + [s.value];
      }
      assert emitted + [] == emitted;
      r := Ok(out);
    }
  }

  /** `tokenize(asm)`: one token per non-blank line of `asm`, in order, or
      the first exception. */
  method Tokenize(asm: string) returns (r: Result<seq<Token>>)
    ensures r == ParseSpec(Lex(asm))
    ensures r.Ok? ==> |r.value| == |Lex(asm)|
  {
    var p := new Parser(Lex(asm));
    r := p.Parse();
    ParseSpecOk(Lex(asm));
    ThenNothing(ParseSpec(Lex(asm)));
  }
}
