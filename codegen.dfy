/** The code generator of minicompiler/compiler/tree.py.

    Every AST node class turns itself into a list of assembly lines, taking
    registers from one `RegisterAllocator` that hands out each of X0 to X30
    at most once and never takes one back. Which free register `get_free`
    returns is up to Python's `set.pop`, so the model leaves the choice
    open: the function `Asm` describes the code for any order in which the
    registers are handed out, and the methods record the order that
    occurred. */
module CodeGen {
  import opened Outcomes
  import opened PyStr
  import opened AsmLex

  // -------------------------------------------------------------- registers

  /** The registers a fresh allocator holds: `{f'X{i}' for i in range(31)}`. */
  const AllRegs: set<string> := set i | 0 <= i < 31 :: RegName(i)

  /** The first `n` register names, one at a time. */
  function RegsBelow(n: nat): set<string> {
    if n == 0 then {} else RegsBelow(n - 1) + {RegName(n - 1)}
  }

  /** `X{i}` is among the first `n` names exactly when `i < n`. */
  lemma {:induction false} RegsBelowHas(n: nat, i: nat)
    ensures RegName(i) in RegsBelow(n) <==> i < n
  {
    if n > 0 {
      RegsBelowHas(n - 1, i);
      if RegName(i) == RegName(n - 1) {
        RegNameInjective(i, n - 1);
      }
    }
  }

  /** The first `n` register names are `n` distinct strings. */
  lemma {:induction false} RegsBelowCount(n: nat)
    ensures |RegsBelow(n)| == n
  {
    if n > 0 {
      RegsBelowCount(n - 1);
      RegsBelowHas(n - 1, n - 1);
    }
  }

  lemma {:induction false} RegsBelowOnly(n: nat, r: string)
    requires r in RegsBelow(n)
    ensures exists i :: 0 <= i < n && r == RegName(i)
  {
    if r != RegName(n - 1) {
      RegsBelowOnly(n - 1, r);
    }
  }

  /** The pool of a fresh allocator has 31 distinct registers. */
  lemma AllRegsCount()
    ensures |AllRegs| == 31
  {
    forall r | r in AllRegs
      ensures r in RegsBelow(31)
    {
      var i :| 0 <= i < 31 && r == RegName(i);
      RegsBelowHas(31, i);
    }
    forall r | r in RegsBelow(31)
      ensures r in AllRegs
    {
      RegsBelowOnly(31, r);
    }
    assert AllRegs == RegsBelow(31);
    RegsBelowCount(31);
  }

  /** What the allocator's pool and the registers handed out so far keep
      true: each register was handed out at most once, and the pool holds
      exactly the registers of X0..X30 not yet handed out. */
  ghost predicate Pool(regs: set<string>, issued: seq<string>) {
    NoDuplicates(issued)
    && (forall i :: 0 <= i < |issued| ==> issued[i] in AllRegs)
    && (forall r :: r in regs <==> r in AllRegs && r !in issued)
  }

  lemma {:induction false} DistinctCount(s: seq<string>)
    requires NoDuplicates(s)
    ensures |set i | 0 <= i < |s| :: s[i]| == |s|
  {
    if |s| > 0 {
      var front := s[..|s| - 1];
      DistinctCount(front);
      var a := set i | 0 <= i < |front| :: front[i];
      var b := set i | 0 <= i < |s| :: s[i];
      assert b == a + {s[|s| - 1]};
      assert s[|s| - 1] !in a;
    }
  }

  /** At most 31 registers are ever handed out, and the pool is empty
      exactly when all 31 have been: the 32nd request is the first that
      fails. */
  lemma PoolEmpty(regs: set<string>, issued: seq<string>)
    requires Pool(regs, issued)
    ensures |issued| <= 31
    ensures regs == {} <==> |issued| == 31
  {
    AllRegsCount();
    DistinctCount(issued);
    var handed := set i | 0 <= i < |issued| :: issued[i];
    assert handed <= AllRegs;
    assert regs == AllRegs - handed;
    assert |AllRegs - handed| == |AllRegs| - |handed|;
  }

  class RegisterAllocator {
    var regs: set<string>
    var h: map<string, string>
    /** The registers `get_free` has returned, in order. */
    ghost var issued: seq<string>

    ghost predicate Valid()
      reads this
    {
      Pool(regs, issued)
    }

    constructor ()
      ensures Valid() && regs == AllRegs && h == map[] && issued == []
    {
      regs := AllRegs;
      h := map[];
      issued := [];
    }

    /** `get_free`: `regs.pop()` removes and returns some free register, a
        different one each time; on the 32nd call the pool is empty and
        `pop` raises KeyError. */
    method GetFree() returns (r: Result<string>)
      requires Valid()
      modifies this
      ensures Valid() && h == old(h)
      ensures r.Ok? <==> |old(issued)| < 31
      ensures r.Err? ==> r.error == KeyError && regs == old(regs) && issued == old(issued)
      ensures r.Ok? ==> (r.value in old(regs) && r.value !in old(issued)
        && regs == old(regs) - {r.value} && issued == old(issued) + [r.value])
    {
      PoolEmpty(regs, issued);
      if regs == {} {
        return Err(KeyError);
      }
      var x :| x in regs;
      regs := regs - {x};
      issued := issued + [x];
      r := Ok(x);
    }

    /** `alloc_var`: binds the variable to a fresh register. */
    method AllocVar(v: string) returns (r: Result<string>)
      requires Valid()
      modifies this
      ensures Valid()
      ensures r.Ok? <==> |old(issued)| < 31
      ensures r.Err? ==> r.error == KeyError && regs == old(regs) && issued == old(issued) && h == old(h)
      ensures r.Ok? ==> (r.value !in old(issued) && issued == old(issued) + [r.value]
        && regs == old(regs) - {r.value} && h == old(h)[v := r.value])
    {
      r := GetFree();
      if r.Ok? {
        h := h[v := r.value];
      }
    }

    /** `get_reg`: the variable's register, or `'NA'` when it has none. */
    method GetReg(v: string) returns (r: string)
      ensures v in h ==> r == h[v]
      ensures v !in h ==> r == "NA"
    {
      r := if v in h then h[v] else "NA";
    }
  }

  // ------------------------------------------------------------------- nodes

  /** The node classes without a `gen_asm` of their own. */
  datatype PlainClass = ASTNode | Expr | Stmt | Decl | BinOp | ParenExpr {
    function Name(): string {
      match this
      case ASTNode => "ASTNode"
      case Expr => "Expr"
      case Stmt => "Stmt"
      case Decl => "Decl"
      case BinOp => "BinOp"
      case ParenExpr => "ParenExpr"
    }

    /** The subclasses of `Expr`, which have an `out_reg` field. */
    predicate HasOutReg() {
      this == Expr || this == BinOp || this == ParenExpr
    }
  }

  /** The AST, with the fields `gen_asm` reads. A `Plain` node's `outReg`
      is the `out_reg` it was built with (`None` by default). */
  datatype Node =
    | Root(children: seq<Node>)
    | NumExpr(val: Option<int>)
    | DeclRefExpr(ident: string)
    | AddOp(op1: Node, op2: Node)
    | CompoundStmt(stmts: seq<Node>)
    | VarDecl(name: string, init: Node)
    | DeclStmt(decl: Node)
    | ReturnStmt(expr: Node, outReg: string)
    | FunctionDecl(fname: string, body: Node)
    | Plain(cls: PlainClass, plainReg: Option<string>)

  /** A node's `out_reg` after its `gen_asm`: a register name, Python's
      `None`, or no such attribute at all. */
  datatype OutReg = Reg(name: string) | NoneReg | Missing

  /** Reading `node.out_reg` inside an f-string. */
  function ReadReg(o: OutReg): (r: Result<string>)
    ensures r.Err? <==> o.Missing?
    ensures r.Err? ==> r.error == AttributeError
  {
    match o
    case Reg(x) => Ok(x)
    case NoneReg => Ok("None")
    case Missing => Err(AttributeError)
  }

  /** `f'{self.val}'` of a `NumExpr`. */
  function ShowVal(v: Option<int>): string {
    match v
    case Some(n) => ShowInt(n)
    case None => "None"
  }

  /** The `k`-th call of `get_free`, when the registers are handed out in
      the order `picks`; asking for more than `picks` holds is the failing
      `pop` on an empty pool. */
  function Pick(picks: seq<string>, k: nat): (r: Result<string>)
    ensures r.Ok? <==> k < |picks|
    ensures r.Ok? ==> r.value == picks[k]
    ensures r.Err? ==> r.error == KeyError
  {
    if k < |picks| then Ok(picks[k]) else Err(KeyError)
  }

  /** What `gen_asm` produces: its lines, the node's `out_reg`, how many
      registers have been handed out after it, and the allocator's
      variable map. */
  datatype Gen = Gen(lines: seq<string>, out: OutReg, next: nat, h: map<string, string>)

  /** `node.gen_asm(ra)` when `ra` has handed out `k` registers, will hand
      them out in the order `picks`, and maps variables as `h`. */
  function Asm(n: Node, picks: seq<string>, k: nat, h: map<string, string>): Result<Gen>
    decreases n
  {
    match n
    case Root(cs) =>
      var g :- AsmSeq(cs, picks, k, h);
      Ok(g)
    case NumExpr(v) =>
      var r :- Pick(picks, k);
      Ok(Gen(["MOV " + r + ", #" + ShowVal(v)], Reg(r), k + 1, h))
    case DeclRefExpr(x) =>
      Ok(Gen([], Reg(if x in h then h[x] else "NA"), k, h))
    case AddOp(a, b) =>
      var g1 :- Asm(a, picks, k, h);
      var g2 :- Asm(b, picks, g1.next, g1.h);
      AddCombine(g1, g2, picks)
    case CompoundStmt(ss) =>
      var g :- AsmSeq(ss, picks, k, h);
      Ok(g)
    case VarDecl(x, e) =>
      var reg :- Pick(picks, k);
      var g :- Asm(e, picks, k + 1, h[x := reg]);
      var v :- ReadReg(g.out);
      Ok(Gen(g.lines + ["MOV " + reg + ", " + v], Missing, g.next, g.h))
    case DeclStmt(d) =>
      var g :- Asm(d, picks, k, h);
      Ok(g.(out := Missing))
    case ReturnStmt(e, o) =>
      var g :- Asm(e, picks, k, h);
      var v :- ReadReg(g.out);
      Ok(Gen(g.lines + ["MOV " + o + ", " + v, "RET"], Reg(o), g.next, g.h))
    case FunctionDecl(x, body) =>
      var g :- Asm(body, picks, k, h);
      Ok(Gen([".global " + x, x + ":"] + g.lines, Missing, g.next, g.h))
    case Plain(c, o) =>
      var out := if !c.HasOutReg() then Missing else if o.Some? then Reg(o.value) else NoneReg;
      Ok(Gen([c.Name() + " -- NA"], out, k, h))
  }

  /** The rest of `AddOp.gen_asm` once both operands are generated: read
      their `out_reg`s, take a fresh register, emit the ADD. */
  function AddCombine(g1: Gen, g2: Gen, picks: seq<string>): Result<Gen> {
    var r1 :- ReadReg(g1.out);
    var r2 :- ReadReg(g2.out);
    var r :- Pick(picks, g2.next);
    Ok(Gen(g1.lines + g2.lines + ["ADD " + r + ", " + r1 + ", " + r2], Reg(r), g2.next + 1, g2.h))
  }

  /** The loop `for x in children: a += x.gen_asm(ra)`. */
  function AsmSeq(ns: seq<Node>, picks: seq<string>, k: nat, h: map<string, string>): Result<Gen>
    decreases ns
  {
    if |ns| == 0 then Ok(Gen([], Missing, k, h))
    else
      var g1 :- AsmSeq(ns[..|ns| - 1], picks, k, h);
      var g2 :- Asm(ns[|ns| - 1], picks, g1.next, g1.h);
      Ok(Gen(g1.lines + g2.lines, Missing, g2.next, g2.h))
  }

  // ----------------------------------------------------------- static counts

  /** How many registers a node takes from the allocator: one per
      `NumExpr`, `AddOp` and `VarDecl` the generator reaches. */
  function Allocs(n: Node): nat
    decreases n
  {
    match n
    case Root(cs) => AllocsSeq(cs)
    case NumExpr(_) => 1
    case DeclRefExpr(_) => 0
    case AddOp(a, b) => Allocs(a) + Allocs(b) + 1
    case CompoundStmt(ss) => AllocsSeq(ss)
    case VarDecl(_, e) => 1 + Allocs(e)
    case DeclStmt(d) => Allocs(d)
    case ReturnStmt(e, _) => Allocs(e)
    case FunctionDecl(_, body) => Allocs(body)
    case Plain(_, _) => 0
  }

  function AllocsSeq(ns: seq<Node>): nat
    decreases ns
  {
    if |ns| == 0 then 0 else AllocsSeq(ns[..|ns| - 1]) + Allocs(ns[|ns| - 1])
  }

  /** How many lines a node emits. */
  function LineCount(n: Node): nat
    decreases n
  {
    match n
    case Root(cs) => LineCountSeq(cs)
    case NumExpr(_) => 1
    case DeclRefExpr(_) => 0
    case AddOp(a, b) => LineCount(a) + LineCount(b) + 1
    case CompoundStmt(ss) => LineCountSeq(ss)
    case VarDecl(_, e) => LineCount(e) + 1
    case DeclStmt(d) => LineCount(d)
    case ReturnStmt(e, _) => LineCount(e) + 2
    case FunctionDecl(_, body) => 2 + LineCount(body)
    case Plain(_, _) => 1
  }

  function LineCountSeq(ns: seq<Node>): nat
    decreases ns
  {
    if |ns| == 0 then 0 else LineCountSeq(ns[..|ns| - 1]) + LineCount(ns[|ns| - 1])
  }

  // ------------------------------------------------------------------ lemmas

  /** A node that generates takes exactly `Allocs(n)` registers, all from
      the ones still to be handed out, and emits `LineCount(n)` lines. */
  lemma {:induction false} AsmCounts(n: Node, picks: seq<string>, k: nat, h: map<string, string>)
    requires Asm(n, picks, k, h).Ok?
    ensures var g := Asm(n, picks, k, h).value;
      g.next == k + Allocs(n) && (Allocs(n) > 0 ==> g.next <= |picks|) && |g.lines| == LineCount(n)
    decreases n, 1
  {
    match n
    case Root(cs) => AsmSeqCounts(cs, picks, k, h);
    case CompoundStmt(ss) => AsmSeqCounts(ss, picks, k, h);
    case AddOp(a, b) => AsmAddCounts(a, b, picks, k, h);
    case VarDecl(x, e) => AsmCounts(e, picks, k + 1, h[x := picks[k]]);
    case DeclStmt(d) => AsmCounts(d, picks, k, h);
    case ReturnStmt(e, _) => AsmCounts(e, picks, k, h);
    case FunctionDecl(_, body) => AsmCounts(body, picks, k, h);
    case _ =>
  }

  lemma {:induction false} AsmAddCounts(a: Node, b: Node, picks: seq<string>, k: nat, h: map<string, string>)
    requires Asm(AddOp(a, b), picks, k, h).Ok?
    ensures var g := Asm(AddOp(a, b), picks, k, h).value;
      g.next == k + Allocs(AddOp(a, b)) && g.next <= |picks| && |g.lines| == LineCount(AddOp(a, b))
    decreases AddOp(a, b), 0
  {
    AsmCounts(a, picks, k, h);
    var g1 := Asm(a, picks, k, h).value;
    AsmCounts(b, picks, g1.next, g1.h);
  }

  lemma {:induction false} AsmSeqCounts(ns: seq<Node>, picks: seq<string>, k: nat, h: map<string, string>)
    requires AsmSeq(ns, picks, k, h).Ok?
    ensures var g := AsmSeq(ns, picks, k, h).value;
      g.next == k + AllocsSeq(ns) && (AllocsSeq(ns) > 0 ==> g.next <= |picks|) && |g.lines| == LineCountSeq(ns)
    decreases ns
  {
    if |ns| > 0 {
      AsmSeqCounts(ns[..|ns| - 1], picks, k, h);
      var g1 := AsmSeq(ns[..|ns| - 1], picks, k, h).value;
      AsmCounts(ns[|ns| - 1], picks, g1.next, g1.h);
    }
  }

  /** Running the loop over `xs + ys` is running it over `xs` and then,
      from where that left the allocator, over `ys`: the lines of the
      children come out in order. */
  lemma {:induction false} AsmSeqAppend(xs: seq<Node>, ys: seq<Node>, picks: seq<string>, k: nat, h: map<string, string>)
    ensures AsmSeq(xs + ys, picks, k, h)
      == (var g1 :- AsmSeq(xs, picks, k, h);
          var g2 :- AsmSeq(ys, picks, g1.next, g1.h);
          Ok(Gen(g1.lines + g2.lines, Missing, g2.next, g2.h)))
    decreases |ys|
  {
    if |ys| == 0 {
      assert xs + ys == xs;
      if AsmSeq(xs, picks, k, h).Ok? {
        assert AsmSeq(xs, picks, k, h).value.lines + [] == AsmSeq(xs, picks, k, h).value.lines;
      }
    } else {
      var zs := xs + ys;
      var front := ys[..|ys| - 1];
      assert zs[..|zs| - 1] == xs + front;
      assert zs[|zs| - 1] == ys[|ys| - 1];
      AsmSeqAppend(xs, front, picks, k, h);
      if AsmSeq(xs, picks, k, h).Ok? && AsmSeq(front, picks, AsmSeq(xs, picks, k, h).value.next, AsmSeq(xs, picks, k, h).value.h).Ok? {
        var g1 := AsmSeq(xs, picks, k, h).value;
        var g2 := AsmSeq(front, picks, g1.next, g1.h).value;
        var last := Asm(ys[|ys| - 1], picks, g2.next, g2.h);
        if last.Ok? {
          assert g1.lines + g2.lines + last.value.lines == g1.lines + (g2.lines + last.value.lines);
        }
      }
    }
  }

  /** A node that needs more registers than remain cannot generate. */
  lemma TooFewRegisters(n: Node, picks: seq<string>, k: nat, h: map<string, string>)
    requires k <= |picks| < k + Allocs(n)
    ensures Asm(n, picks, k, h).Err?
  {
    if Asm(n, picks, k, h).Ok? {
      AsmCounts(n, picks, k, h);
    }
  }

  /** Registers handed out later do not change code that has already been
      generated: a successful run reads only the picks it takes. */
  lemma {:induction false} AsmExtend(n: Node, picks: seq<string>, more: seq<string>, k: nat, h: map<string, string>)
    requires Asm(n, picks, k, h).Ok?
    ensures Asm(n, picks + more, k, h) == Asm(n, picks, k, h)
    decreases n, 1
  {
    match n
    case Root(cs) => AsmSeqExtend(cs, picks, more, k, h);
    case CompoundStmt(ss) => AsmSeqExtend(ss, picks, more, k, h);
    case AddOp(a, b) => AsmAddExtend(a, b, picks, more, k, h);
    case VarDecl(x, e) => AsmVarExtend(x, e, picks, more, k, h);
    case DeclStmt(d) => AsmExtend(d, picks, more, k, h);
    case ReturnStmt(e, _) => AsmExtend(e, picks, more, k, h);
    case FunctionDecl(_, body) => AsmExtend(body, picks, more, k, h);
    case NumExpr(_) =>
    case DeclRefExpr(_) =>
    case Plain(_, _) =>
  }

  lemma {:induction false} AsmAddExtend(a: Node, b: Node, picks: seq<string>, more: seq<string>, k: nat, h: map<string, string>)
    requires Asm(AddOp(a, b), picks, k, h).Ok?
    ensures Asm(AddOp(a, b), picks + more, k, h) == Asm(AddOp(a, b), picks, k, h)
    decreases AddOp(a, b), 0
  {
    AsmExtend(a, picks, more, k, h);
    var g1 := Asm(a, picks, k, h).value;
    AsmExtend(b, picks, more, g1.next, g1.h);
    var g2 := Asm(b, picks, g1.next, g1.h).value;
    PickExtend(picks, more, g2.next);
  }

  lemma PickExtend(picks: seq<string>, more: seq<string>, j: nat)
    requires Pick(picks, j).Ok?
    ensures Pick(picks + more, j) == Pick(picks, j)
  {
  }

  lemma {:induction false} AsmVarExtend(x: string, e: Node, picks: seq<string>, more: seq<string>, k: nat, h: map<string, string>)
    requires Asm(VarDecl(x, e), picks, k, h).Ok?
    ensures Asm(VarDecl(x, e), picks + more, k, h) == Asm(VarDecl(x, e), picks, k, h)
    decreases VarDecl(x, e), 0
  {
    assert (picks + more)[k] == picks[k];
    AsmExtend(e, picks, more, k + 1, h[x := picks[k]]);
  }

  lemma {:induction false} AsmSeqExtend(ns: seq<Node>, picks: seq<string>, more: seq<string>, k: nat, h: map<string, string>)
    requires AsmSeq(ns, picks, k, h).Ok?
    ensures AsmSeq(ns, picks + more, k, h) == AsmSeq(ns, picks, k, h)
    decreases ns
  {
    if |ns| > 0 {
      AsmSeqExtend(ns[..|ns| - 1], picks, more, k, h);
      var g1 := AsmSeq(ns[..|ns| - 1], picks, k, h).value;
      AsmExtend(ns[|ns| - 1], picks, more, g1.next, g1.h);
    }
  }

  /** The register an `AddOp` writes is taken after both operands are
      generated, so with registers handed out at most once it is none of
      the registers its operands took. */
  lemma AddFresh(a: Node, b: Node, picks: seq<string>, k: nat, h: map<string, string>)
    requires NoDuplicates(picks)
    requires Asm(AddOp(a, b), picks, k, h).Ok?
    ensures var g := Asm(AddOp(a, b), picks, k, h).value;
      0 < g.next <= |picks| && g.out == Reg(picks[g.next - 1])
      && forall j :: k <= j < g.next - 1 ==> picks[j] != g.out.name
  {
    AsmCounts(AddOp(a, b), picks, k, h);
  }

  /** A `VarDecl` binds its variable to a register taken before its value
      is generated; that register is none of those the value takes. */
  lemma VarFresh(x: string, e: Node, picks: seq<string>, k: nat, h: map<string, string>)
    requires NoDuplicates(picks)
    requires Asm(VarDecl(x, e), picks, k, h).Ok?
    ensures var g := Asm(VarDecl(x, e), picks, k, h).value;
      k < g.next <= |picks| && (forall j :: k < j < g.next ==> picks[j] != picks[k])
    ensures var g := Asm(VarDecl(x, e), picks, k, h).value;
      var ge := Asm(e, picks, k + 1, h[x := picks[k]]);
      ge.Ok? && ReadReg(ge.value.out).Ok? && |g.lines| > 0
      && g.lines[..|g.lines| - 1] == ge.value.lines
      && g.lines[|g.lines| - 1] == "MOV " + picks[k] + ", " + ReadReg(ge.value.out).value
  {
    AsmCounts(VarDecl(x, e), picks, k, h);
    var g := Asm(VarDecl(x, e), picks, k, h).value;
    var ge := Asm(e, picks, k + 1, h[x := picks[k]]).value;
    assert g.lines == ge.lines + ["MOV " + picks[k] + ", " + ReadReg(ge.out).value];
  }

  /** `'\n'.join(lines)` read back with `split('\n')` gives the lines again
      when none of them holds a line break. */
  lemma {:induction false} JoinSplit(lines: seq<string>)
    requires |lines| > 0
    requires forall j, i :: 0 <= j < |lines| && 0 <= i < |lines[j]| ==> lines[j][i] != '\n'
    ensures SplitLines(Join(lines, "\n")) == lines
  {
    if |lines| == 1 {
      LineEndFree(lines[0]);
    } else {
      var rest := Join(lines[1..], "\n");
      LineEndAt(lines[0], rest);
      var s := lines[0] + "\n" + rest;
      assert s[..|lines[0]|] == lines[0];
      assert s[|lines[0]| + 1..] == rest;
      JoinSplit(lines[1..]);
    }
  }

  // ----------------------------------------------------------------- methods

  /** `node.gen_asm(ra)`. The node's `out_reg` is returned rather than
      stored. */
  method GenAsm(n: Node, ra: RegisterAllocator) returns (r: Result<(seq<string>, OutReg)>)
    requires ra.Valid()
    modifies ra
    ensures ra.Valid()
    ensures |old(ra.issued)| <= |ra.issued| && ra.issued[..|old(ra.issued)|] == old(ra.issued)
    ensures var g := Asm(n, ra.issued, |old(ra.issued)|, old(ra.h));
      (r.Ok? <==> g.Ok?)
      && (r.Ok? ==> r.value == (g.value.lines, g.value.out) && g.value.next == |ra.issued| && ra.h == g.value.h)
      && (r.Err? ==> r.error == g.error)
    decreases n
  {
    ghost var k := |ra.issued|;
    ghost var h0 := ra.h;
    match n {
      case Root(cs) =>
        var a;
        a := GenSeq(cs, ra);
        if a.Err? {
          return Err(a.error);
        }
        return Ok((a.value, Missing));
      case NumExpr(v) =>
        var reg := ra.GetFree();
        if reg.Err? {
          return Err(reg.error);
        }
        return Ok((["MOV " + reg.value + ", #" + ShowVal(v)], Reg(reg.value)));
      case DeclRefExpr(x) =>
        var reg := ra.GetReg(x);
        return Ok(([], Reg(reg)));
      case AddOp(a, b) =>
        r := GenAdd(a, b, ra);
      case CompoundStmt(ss) =>
        var a;
        a := GenSeq(ss, ra);
        if a.Err? {
          return Err(a.error);
        }
        return Ok((a.value, Missing));
      case VarDecl(x, e) =>
        r := GenVar(x, e, ra);
      case DeclStmt(d) =>
        r := GenDeclStmt(d, ra);
      case ReturnStmt(e, o) =>
        r := GenReturn(e, o, ra);
      case FunctionDecl(x, body) =>
        r := GenFunction(x, body, ra);
      case Plain(c, o) =>
        var out := if !c.HasOutReg() then Missing else if o.Some? then Reg(o.value) else NoneReg;
        return Ok(([c.Name() + " -- NA"], out));
    }
  }

  /** `DeclStmt.gen_asm`: the declaration's code; a `DeclStmt` has no `out_reg`. */
  method GenDeclStmt(d: Node, ra: RegisterAllocator) returns (r: Result<(seq<string>, OutReg)>)
    requires ra.Valid()
    modifies ra
    ensures ra.Valid()
    ensures |old(ra.issued)| <= |ra.issued| && ra.issued[..|old(ra.issued)|] == old(ra.issued)
    ensures var g := Asm(DeclStmt(d), ra.issued, |old(ra.issued)|, old(ra.h));
      (r.Ok? <==> g.Ok?)
      && (r.Ok? ==> r.value == (g.value.lines, g.value.out) && g.value.next == |ra.issued| && ra.h == g.value.h)
      && (r.Err? ==> r.error == g.error)
    decreases DeclStmt(d), 0
  {
    var g := GenAsm(d, ra);
    if g.Err? {
      return Err(g.error);
    }
    return Ok((g.value.0, Missing));
  }

  /** `ReturnStmt.gen_asm`: the value, its move into the statement's `out_reg`, and `RET`. */
  method GenReturn(e: Node, o: string, ra: RegisterAllocator) returns (r: Result<(seq<string>, OutReg)>)
    requires ra.Valid()
    modifies ra
    ensures ra.Valid()
    ensures |old(ra.issued)| <= |ra.issued| && ra.issued[..|old(ra.issued)|] == old(ra.issued)
    ensures var g := Asm(ReturnStmt(e, o), ra.issued, |old(ra.issued)|, old(ra.h));
      (r.Ok? <==> g.Ok?)
      && (r.Ok? ==> r.value == (g.value.lines, g.value.out) && g.value.next == |ra.issued| && ra.h == g.value.h)
      && (r.Err? ==> r.error == g.error)
    decreases ReturnStmt(e, o), 0
  {
    var g := GenAsm(e, ra);
    if g.Err? {
      return Err(g.error);
    }
    var v := ReadReg(g.value.1);
    if v.Err? {
      return Err(v.error);
    }
    return Ok((g.value.0 + ["MOV " + o + ", " + v.value, "RET"], Reg(o)));
  }

  /** `FunctionDecl.gen_asm`: the `.global` directive and label for the function's name, then its body. */
  method GenFunction(x: string, body: Node, ra: RegisterAllocator) returns (r: Result<(seq<string>, OutReg)>)
    requires ra.Valid()
    modifies ra
    ensures ra.Valid()
    ensures |old(ra.issued)| <= |ra.issued| && ra.issued[..|old(ra.issued)|] == old(ra.issued)
    ensures var g := Asm(FunctionDecl(x, body), ra.issued, |old(ra.issued)|, old(ra.h));
      (r.Ok? <==> g.Ok?)
      && (r.Ok? ==> r.value == (g.value.lines, g.value.out) && g.value.next == |ra.issued| && ra.h == g.value.h)
      && (r.Err? ==> r.error == g.error)
    decreases FunctionDecl(x, body), 0
  {
    var g := GenAsm(body, ra);
    if g.Err? {
      return Err(g.error);
    }
    return Ok(([".global " + x, x + ":"] + g.value.0, Missing));
  }

  /** What a node generated stays valid while later registers are handed
      out. */
  lemma Extended(n: Node, p: seq<string>, q: seq<string>, k: nat, h: map<string, string>)
    requires Asm(n, p, k, h).Ok? && |p| <= |q| && q[..|p|] == p
    ensures Asm(n, q, k, h) == Asm(n, p, k, h)
  {
    AsmExtend(n, p, q[|p|..], k, h);
    assert p + q[|p|..] == q;
  }

  lemma SeqExtended(ns: seq<Node>, p: seq<string>, q: seq<string>, k: nat, h: map<string, string>)
    requires AsmSeq(ns, p, k, h).Ok? && |p| <= |q| && q[..|p|] == p
    ensures AsmSeq(ns, q, k, h) == AsmSeq(ns, p, k, h)
  {
    AsmSeqExtend(ns, p, q[|p|..], k, h);
    assert p + q[|p|..] == q;
  }

  /** An error in the first `j` nodes is the error of the whole loop. */
  lemma {:induction false} AsmSeqErr(ns: seq<Node>, j: nat, picks: seq<string>, k: nat, h: map<string, string>)
    requires j <= |ns| && AsmSeq(ns[..j], picks, k, h).Err?
    ensures AsmSeq(ns, picks, k, h) == AsmSeq(ns[..j], picks, k, h)
  {
    if j < |ns| {
      var front := ns[..|ns| - 1];
      assert front[..j] == ns[..j];
      AsmSeqErr(front, j, picks, k, h);
    } else {
      assert ns[..j] == ns;
    }
  }

  /** `AddOp.gen_asm`: both operands, their `out_reg`s, then a fresh
      register for the sum. */
  method GenAdd(a: Node, b: Node, ra: RegisterAllocator) returns (r: Result<(seq<string>, OutReg)>)
    requires ra.Valid()
    modifies ra
    ensures ra.Valid()
    ensures |old(ra.issued)| <= |ra.issued| && ra.issued[..|old(ra.issued)|] == old(ra.issued)
    ensures var g := Asm(AddOp(a, b), ra.issued, |old(ra.issued)|, old(ra.h));
      (r.Ok? <==> g.Ok?)
      && (r.Ok? ==> r.value == (g.value.lines, g.value.out) && g.value.next == |ra.issued| && ra.h == g.value.h)
      && (r.Err? ==> r.error == g.error)
    decreases AddOp(a, b), 0
  {
    ghost var k := |ra.issued|;
    ghost var h0 := ra.h;
    var g1 := GenAsm(a, ra);
    if g1.Err? {
      return Err(g1.error);
    }
    ghost var p1 := ra.issued;
    var g2 := GenAsm(b, ra);
    Extended(a, p1, ra.issued, k, h0);
    if g2.Err? {
      return Err(g2.error);
    }
    ghost var p2 := ra.issued;
    ghost var gA := Asm(a, p2, k, h0).value;
    ghost var gB := Asm(b, p2, |p1|, gA.h).value;
    r := AddTail(g1.value, g2.value, ra, gA, gB);
    Extended(a, p2, ra.issued, k, h0);
    Extended(b, p2, ra.issued, |p1|, gA.h);
  }

  /** The register reads and `get_free` of `AddOp.gen_asm`. */
  method AddTail(x1: (seq<string>, OutReg), x2: (seq<string>, OutReg), ra: RegisterAllocator, ghost g1: Gen, ghost g2: Gen)
    returns (r: Result<(seq<string>, OutReg)>)
    requires ra.Valid()
    requires x1 == (g1.lines, g1.out) && x2 == (g2.lines, g2.out) && g2.next == |ra.issued| && ra.h == g2.h
    modifies ra
    ensures ra.Valid()
    ensures |old(ra.issued)| <= |ra.issued| && ra.issued[..|old(ra.issued)|] == old(ra.issued)
    ensures var g := AddCombine(g1, g2, ra.issued);
      (r.Ok? <==> g.Ok?)
      && (r.Ok? ==> r.value == (g.value.lines, g.value.out) && g.value.next == |ra.issued| && ra.h == g.value.h)
      && (r.Err? ==> r.error == g.error)
  {
    var r1 := ReadReg(x1.1);
    var r2 := ReadReg(x2.1);
    if r1.Err? {
      return Err(r1.error);
    }
    if r2.Err? {
      return Err(r2.error);
    }
    var out := ra.GetFree();
    if out.Err? {
      return Err(out.error);
    }
    return Ok((x1.0 + x2.0 + ["ADD " + out.value + ", " + r1.value + ", " + r2.value], Reg(out.value)));
  }

  lemma PrefixTrans(a: seq<string>, b: seq<string>, c: seq<string>)
    requires |a| <= |b| <= |c| && b[..|a|] == a && c[..|b|] == b
    ensures c[..|a|] == a
  {
    assert c[..|a|] == c[..|b|][..|a|];
  }

  /** One step of `Asm` on a `VarDecl` whose register was available. */
  lemma VarStep(x: string, e: Node, picks: seq<string>, k: nat, h: map<string, string>)
    requires k < |picks|
    ensures Asm(VarDecl(x, e), picks, k, h)
      == (var g :- Asm(e, picks, k + 1, h[x := picks[k]]);
          var v :- ReadReg(g.out);
          Ok(Gen(g.lines + ["MOV " + picks[k] + ", " + v], Missing, g.next, g.h)))
  {
  }

  /** `VarDecl.gen_asm`: the variable's register first, then the value,
      then the move into the variable's register. */
  method GenVar(x: string, e: Node, ra: RegisterAllocator) returns (r: Result<(seq<string>, OutReg)>)
    requires ra.Valid()
    modifies ra
    ensures ra.Valid()
    ensures |old(ra.issued)| <= |ra.issued| && ra.issued[..|old(ra.issued)|] == old(ra.issued)
    ensures var g := Asm(VarDecl(x, e), ra.issued, |old(ra.issued)|, old(ra.h));
      (r.Ok? <==> g.Ok?)
      && (r.Ok? ==> r.value == (g.value.lines, g.value.out) && g.value.next == |ra.issued| && ra.h == g.value.h)
      && (r.Err? ==> r.error == g.error)
    decreases VarDecl(x, e), 0
  {
    ghost var k := |ra.issued|;
    ghost var h0 := ra.h;
    var reg := ra.AllocVar(x);
    if reg.Err? {
      return Err(reg.error);
    }
    ghost var p := ra.issued;
    ghost var h1 := ra.h;
    var g := GenAsm(e, ra);
    PrefixTrans(old(ra.issued), p, ra.issued);
    assert ra.issued[..k + 1] == p;
    assert ra.issued[k] == reg.value;
    VarStep(x, e, ra.issued, k, h0);
    if g.Err? {
      return Err(g.error);
    }
    var v := ReadReg(g.value.1);
    if v.Err? {
      return Err(v.error);
    }
    return Ok((g.value.0 + ["MOV " + reg.value + ", " + v.value], Missing));
  }

  /** The loop `a += x.gen_asm(ra)` of `Root` and `CompoundStmt`. */
  method GenSeq(ns: seq<Node>, ra: RegisterAllocator) returns (r: Result<seq<string>>)
    requires ra.Valid()
    modifies ra
    ensures ra.Valid()
    ensures |old(ra.issued)| <= |ra.issued| && ra.issued[..|old(ra.issued)|] == old(ra.issued)
    ensures var g := AsmSeq(ns, ra.issued, |old(ra.issued)|, old(ra.h));
      (r.Ok? <==> g.Ok?)
      && (r.Ok? ==> r.value == g.value.lines && g.value.next == |ra.issued| && ra.h == g.value.h)
      && (r.Err? ==> r.error == g.error)
    decreases ns
  {
    ghost var k := |ra.issued|;
    ghost var h0 := ra.h;
    var a := [];
    var i := 0;
    while i < |ns|
      invariant 0 <= i <= |ns|
      invariant ra.Valid()
      invariant k <= |ra.issued| && ra.issued[..k] == old(ra.issued)
      invariant AsmSeq(ns[..i], ra.issued, k, h0) == Ok(Gen(a, Missing, |ra.issued|, ra.h))
    {
      ghost var p := ra.issued;
      var g := GenAsm(ns[i], ra);
      assert ns[..i + 1][..i] == ns[..i];
      SeqExtended(ns[..i], p, ra.issued, k, h0);
      if g.Err? {
        AsmSeqErr(ns, i + 1, ra.issued, k, h0);
        return Err(g.error);
      }
      a := a + g.value.0;
      i := i + 1;
    }
    assert ns[..i] == ns;
    return Ok(a);
  }

  /** The module-level `gen_asm`: one fresh allocator for the whole tree,
      and the lines joined with `'\n'`. A tree that needs more than the 31
      registers fails. */
  method GenProgram(root: Node) returns (r: Result<string>, ghost picks: seq<string>)
    ensures NoDuplicates(picks) && |picks| <= 31 && forall i :: 0 <= i < |picks| ==> picks[i] in AllRegs
    ensures var g := Asm(root, picks, 0, map[]);
      (r.Ok? <==> g.Ok?) && (r.Ok? ==> r.value == Join(g.value.lines, "\n")) && (r.Err? ==> r.error == g.error)
    ensures Allocs(root) > 31 ==> r.Err?
  {
    var ra := new RegisterAllocator();
    var g := GenAsm(root, ra);
    picks := ra.issued;
    PoolEmpty(ra.regs, ra.issued);
    if Allocs(root) > 31 {
      TooFewRegisters(root, picks, 0, map[]);
    }
    if g.Err? {
      return Err(g.error), picks;
    }
    r := Ok(Join(g.value.0, "\n"));
  }
}
