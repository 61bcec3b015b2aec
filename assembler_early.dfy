/** The earlier two-pass assembler of assembler/assembler.py.

    It emits no instruction bytes: `dump` installs a fixed 48-byte program
    as the code, and the two passes only build the tables. Every `mov`,
    `adr` and `svc` moves `lc` by 4 whether or not an `adr` target is
    known, so each label's address is the sum of the sizes before it. The
    second pass starts where the first ended (`lc` is not reset), but since
    it ignores labels it changes no address. */
module AsmEarly {
  import opened Outcomes
  import opened PyStr
  import opened SymbolTables
  import MachO

  /** The token classes `process` matches on: instructions with two
      operands (`BinaryOp`) and with one (`UnaryOp`). */
  datatype Token =
    | Directive(name: string, subject: string)
    | Label(name: string)
    | BinaryOp(name: string, s1: string, s2: string)
    | UnaryOp(name: string, s1: string)

  /** The fields `process` and `dump` update. */
  datatype State = State(dat: seq<Byte>, tables: Tables, lc: int, align: int, firstPass: bool)

  /** The fields as `__init__` sets them. */
  const Initial: State := State([], InitialTables, 0, 4, true)

  /** How far a token moves `lc`: 4 for `mov`, `adr` and `svc`, the UTF-8
      length of an `.ascii` subject, nothing for the rest. */
  function Size(t: Token): nat {
    match t
    case BinaryOp(name, _, _) => if name == "mov" || name == "adr" then 4 else 0
    case UnaryOp(name, _) => if name == "svc" then 4 else 0
    case Directive(name, subject) => if name == ".ascii" then |Utf8(subject)| else 0
    case Label(_) => 0
  }

  /** `process(token)` on the fields `s`. The `adr` case tests whether its
      target is known and does nothing with the answer. */
  function Step(s: State, t: Token): Result<State> {
    match t
    case Directive(name, subject) =>
      if name == ".global" then Ok(s.(tables := Globalize(s.tables, subject)))
      else if name == ".align" then
        var n :- ParseInt(subject);
        Ok(s.(align := n))
      else if name == ".ascii" then Ok(s.(lc := s.lc + |Utf8(subject)|))
      else Ok(s)
    case Label(name) =>
      if s.firstPass then Ok(s.(tables := DefineLabel(s.tables, name, s.lc))) else Ok(s)
    case BinaryOp(name, _, _) =>
      if name == "mov" || name == "adr" then Ok(s.(lc := s.lc + 4)) else Ok(s)
    case UnaryOp(name, _) =>
      if name == "svc" then Ok(s.(lc := s.lc + 4)) else Ok(s)
  }

  /** `int(subject)` of `.align` is the only thing `process` can raise on. */
  predicate Raises(t: Token) {
    t.Directive? && t.name == ".align" && ParseInt(t.subject).Err?
  }

  /** `process` raises ValueError exactly on an `.align` whose subject is
      not an integer. */
  lemma StepRaises(s: State, t: Token)
    ensures Step(s, t).Err? <==> Raises(t)
    ensures Step(s, t).Err? ==> Step(s, t).error == ValueError
  {
  }

  /** Every token moves `lc` by its size and never touches `dat` or the
      pass flag. */
  lemma StepCounters(s: State, t: Token)
    requires Step(s, t).Ok?
    ensures var v := Step(s, t).value;
      v.lc == s.lc + Size(t) && v.dat == s.dat && v.firstPass == s.firstPass
  {
  }

  /** The arms of `Step` that touch the tables. */
  lemma StepArms(s: State, t: Token)
    requires Step(s, t).Ok?
    ensures var v := Step(s, t).value;
      (t.Label? ==> v.tables == if s.firstPass then DefineLabel(s.tables, t.name, s.lc) else s.tables)
      && (t.Directive? && t.name == ".global" ==> v.tables == Globalize(s.tables, t.subject))
      && (!t.Label? && !(t.Directive? && t.name == ".global") ==> v.tables == s.tables)
  {
  }

  /** What `process` does to the tables. A label in the first pass records
      its `lc` and string offset, joins the locals and moves `stidx` past
      its name and terminator; `.global` moves one name from the locals to
      the externals and changes nothing else; every other token, and a
      label in the second pass, leaves the tables as they were. */
  lemma StepTables(s: State, t: Token)
    requires Step(s, t).Ok?
    ensures var v := Step(s, t).value;
      (t.Label? && s.firstPass ==>
         v.tables.symbols == s.tables.symbols[t.name := s.lc]
         && v.tables.strings == s.tables.strings[t.name := s.tables.stidx]
         && v.tables.loc == s.tables.loc + {t.name} && v.tables.ext == s.tables.ext
         && v.tables.stidx == s.tables.stidx + |Utf8(t.name)| + 1)
      && (t.Directive? && t.name == ".global" ==>
         v.tables.symbols == s.tables.symbols && v.tables.strings == s.tables.strings
         && v.tables.keys == s.tables.keys && v.tables.stidx == s.tables.stidx
         && v.tables.loc == s.tables.loc - {t.subject} && v.tables.ext == s.tables.ext + {t.subject})
      && (!(t.Label? && s.firstPass) && !(t.Directive? && t.name == ".global") ==> v.tables == s.tables)
  {
    StepArms(s, t);
  }

  /** `.align` stores `int(subject)`; nothing else touches the alignment. */
  lemma StepAlign(s: State, t: Token)
    requires Step(s, t).Ok?
    ensures t.Directive? && t.name == ".align" ==> Step(s, t).value.align == ParseInt(t.subject).value
    ensures !(t.Directive? && t.name == ".align") ==> Step(s, t).value.align == s.align
  {
  }

  /** One `for x in self.tokens: self.process(x)` loop. */
  function Run(s: State, ts: seq<Token>): Result<State> {
    if |ts| == 0 then Ok(s)
    else
      var u :- Run(s, ts[..|ts| - 1]);
      Step(u, ts[|ts| - 1])
  }

  /** The two passes of `dump`: only `first_pass = False` between them. */
  function Passes(s: State, ts: seq<Token>): Result<State> {
    var p :- Run(s, ts);
    Run(p.(firstPass := false), ts)
  }

  // ------------------------------------------------ the token list, statically

  /** The address after `ts`: the sum of the sizes of its tokens. */
  function Offset(ts: seq<Token>): nat {
    if |ts| == 0 then 0 else Offset(ts[..|ts| - 1]) + Size(ts[|ts| - 1])
  }

  /** The label names of `ts`, in order, repetitions included. */
  function Labels(ts: seq<Token>): seq<string> {
    if |ts| == 0 then []
    else Labels(ts[..|ts| - 1]) + (if ts[|ts| - 1].Label? then [ts[|ts| - 1].name] else [])
  }

  /** The subjects of the `.global` directives. */
  function GlobalSet(ts: seq<Token>): set<string> {
    if |ts| == 0 then {}
    else
      var t := ts[|ts| - 1];
      GlobalSet(ts[..|ts| - 1]) + (if t.Directive? && t.name == ".global" then {t.subject} else {})
  }

  /** The table event of one token in pass 1, given its address. */
  function Event1(t: Token, at: int): seq<Event> {
    if t.Label? then [Define(t.name, at)]
    else if t.Directive? && t.name == ".global" then [Global(t.subject)]
    else []
  }

  /** The table events of a first pass that starts at location `base`:
      each label at its address, and each `.global`. */
  function Events1(ts: seq<Token>, base: int): seq<Event> {
    if |ts| == 0 then []
    else Events1(ts[..|ts| - 1], base) + Event1(ts[|ts| - 1], base + Offset(ts[..|ts| - 1]))
  }

  /** The table events of pass 2: the `.global`s alone. */
  function Events2(ts: seq<Token>): seq<Event> {
    if |ts| == 0 then []
    else
      var t := ts[|ts| - 1];
      Events2(ts[..|ts| - 1]) + (if t.Directive? && t.name == ".global" then [Global(t.subject)] else [])
  }

  /** Pass 1 defines exactly the labels, in order. */
  lemma {:induction false} EventsDefined(ts: seq<Token>, base: int)
    ensures Defined(Events1(ts, base)) == Labels(ts)
  {
    if |ts| > 0 {
      var front, t := ts[..|ts| - 1], ts[|ts| - 1];
      EventsDefined(front, base);
      var e1 := Event1(t, base + Offset(front));
      if |e1| == 1 {
        DefinedStep(Events1(front, base), e1[0]);
      } else {
        assert Events1(ts, base) == Events1(front, base);
      }
    }
  }

  /** Pass 1 declares exactly the `.global` subjects. */
  lemma {:induction false} EventsGlobals(ts: seq<Token>, base: int)
    ensures Globals(Events1(ts, base)) == GlobalSet(ts)
  {
    if |ts| > 0 {
      var front, t := ts[..|ts| - 1], ts[|ts| - 1];
      EventsGlobals(front, base);
      var e1 := Event1(t, base + Offset(front));
      if |e1| == 1 {
        GlobalsStep(Events1(front, base), e1[0]);
      } else {
        assert Events1(ts, base) == Events1(front, base);
      }
    }
  }

  /** So does pass 2. */
  lemma {:induction false} Events2Globals(ts: seq<Token>)
    ensures Globals(Events2(ts)) == GlobalSet(ts)
  {
    if |ts| > 0 {
      var front, t := ts[..|ts| - 1], ts[|ts| - 1];
      Events2Globals(front);
      if t.Directive? && t.name == ".global" {
        GlobalsStep(Events2(front), Global(t.subject));
      } else {
        assert Events2(ts) == Events2(front);
      }
    }
  }

  /** Pass 2's events are all `.global`s. */
  lemma {:induction false} Events2Global(ts: seq<Token>)
    ensures forall k :: 0 <= k < |Events2(ts)| ==> Events2(ts)[k].Global?
  {
    if |ts| > 0 {
      Events2Global(ts[..|ts| - 1]);
    }
  }

  // --------------------------------------------------------------- the runs

  lemma {:induction false} RunSplit(s: State, ts: seq<Token>, k: nat)
    requires k <= |ts|
    ensures Run(s, ts[..k]).Err? ==> Run(s, ts) == Run(s, ts[..k])
    ensures Run(s, ts[..k]).Ok? ==> Run(s, ts) == Run(Run(s, ts[..k]).value, ts[k..])
    decreases |ts|
  {
    if k < |ts| {
      var front := ts[..|ts| - 1];
      assert front[..k] == ts[..k];
      RunSplit(s, front, k);
      if Run(s, ts[..k]).Ok? {
        assert ts[k..][..|ts[k..]| - 1] == front[k..];
      }
    } else {
      assert ts[..k] == ts;
      assert ts[k..] == [];
    }
  }

  /** A pass fails, with ValueError, exactly when some `.align` subject is
      not an integer, whatever state it starts from; so the second pass
      never fails after a first pass that did not. */
  lemma {:induction false} RunFails(s: State, ts: seq<Token>)
    ensures Run(s, ts).Err? <==> exists k :: 0 <= k < |ts| && Raises(ts[k])
    ensures Run(s, ts).Err? ==> Run(s, ts).error == ValueError
  {
    if |ts| > 0 {
      var front, t := ts[..|ts| - 1], ts[|ts| - 1];
      RunFails(s, front);
      if Run(s, front).Ok? {
        StepRaises(Run(s, front).value, t);
      }
      if exists k :: 0 <= k < |front| && Raises(front[k]) {
        var k :| 0 <= k < |front| && Raises(front[k]);
        assert ts[k] == front[k];
      }
      if exists k :: 0 <= k < |ts| && Raises(ts[k]) {
        var k :| 0 <= k < |ts| && Raises(ts[k]);
        if k < |front| {
          assert front[k] == ts[k];
        }
      }
    }
  }

  /** Pass 1 applies its label and `.global` events to the tables, moves
      `lc` from its start by the sizes of all tokens, and leaves `dat` and
      the pass flag alone. */
  lemma {:induction false} Pass1(s: State, ts: seq<Token>)
    requires s.firstPass && Run(s, ts).Ok?
    ensures var v := Run(s, ts).value;
      v.tables == ApplyAll(s.tables, Events1(ts, s.lc)) && v.lc == s.lc + Offset(ts)
      && v.dat == s.dat && v.firstPass
  {
    if |ts| > 0 {
      var front, t := ts[..|ts| - 1], ts[|ts| - 1];
      Pass1(s, front);
      var u := Run(s, front).value;
      assert Run(s, ts) == Step(u, t);
      StepCounters(u, t);
      FirstPassStep(u, t, s.lc + Offset(front));
      Events1Last(ts, s.lc);
      ApplyShort(s.tables, Events1(front, s.lc), Event1(t, s.lc + Offset(front)));
    }
  }

  /** A first-pass step applies the token's event at the current location. */
  lemma FirstPassStep(u: State, t: Token, at: int)
    requires u.firstPass && Step(u, t).Ok? && u.lc == at
    ensures Step(u, t).value.tables == ApplyAll(u.tables, Event1(t, at))
  {
    var e1 := Event1(t, at);
    if |e1| == 1 {
      assert ApplyAll(u.tables, e1) == Apply(ApplyAll(u.tables, []), e1[0]);
    }
  }

  lemma {:induction false} Events1Last(ts: seq<Token>, base: int)
    requires |ts| > 0
    ensures Events1(ts, base) == Events1(ts[..|ts| - 1], base) + Event1(ts[|ts| - 1], base + Offset(ts[..|ts| - 1]))
  {
  }

  /** Applying at most one more event is one more `Apply`. */
  lemma ApplyShort(t: Tables, es: seq<Event>, more: seq<Event>)
    requires |more| <= 1
    ensures ApplyAll(t, es + more) == ApplyAll(ApplyAll(t, es), more)
  {
    if |more| == 1 {
      ApplyStep(t, es, more[0]);
      assert ApplyAll(ApplyAll(t, es), more) == Apply(ApplyAll(ApplyAll(t, es), []), more[0]);
    } else {
      assert es + more == es;
    }
  }

  /** In pass 2 only `.global` touches the tables, `lc` moves by the sizes
      of all tokens once more, and `dat` stays as it was. */
  lemma {:induction false} Pass2(s: State, ts: seq<Token>)
    requires !s.firstPass && Run(s, ts).Ok?
    ensures var v := Run(s, ts).value;
      v.tables == ApplyAll(s.tables, Events2(ts)) && v.lc == s.lc + Offset(ts)
      && v.dat == s.dat && !v.firstPass
  {
    if |ts| > 0 {
      var front, t := ts[..|ts| - 1], ts[|ts| - 1];
      Pass2(s, front);
      var u := Run(s, front).value;
      assert Run(s, ts) == Step(u, t);
      StepCounters(u, t);
      StepArms(u, t);
      if t.Directive? && t.name == ".global" {
        ApplyStep(s.tables, Events2(front), Global(t.subject));
      } else {
        assert Events2(ts) == Events2(front);
      }
    }
  }

  /** After both passes from the initial fields: the tables are those of
      pass 1 except that the `.global` names are external and not local
      (so the two sets are disjoint), `lc` has counted every token twice,
      `dat` is untouched, the string table's keys are the label names in
      order of first definition and `stidx` is 1 plus the bytes of all
      label names with their terminators. */
  lemma PassesFacts(ts: seq<Token>)
    requires Passes(Initial, ts).Ok?
    ensures var p, v := Run(Initial, ts).value, Passes(Initial, ts).value;
      v.lc == 2 * Offset(ts) && v.dat == []
      && v.tables.symbols == p.tables.symbols && v.tables.strings == p.tables.strings
      && v.tables.loc * v.tables.ext == {}
      && v.tables.ext == GlobalSet(ts)
      && (forall x :: x in v.tables.loc <==> x in Labels(ts) && x !in GlobalSet(ts))
      && v.tables.keys == FirstOccurrences(Labels(ts))
      && v.tables.stidx == 1 + NameBytes(Labels(ts))
      && (forall x :: x in v.tables.symbols <==> x in Labels(ts))
  {
    var p := Run(Initial, ts).value;
    Pass1(Initial, ts);
    Pass2(p.(firstPass := false), ts);
    EventsDefined(ts, 0);
    EventsGlobals(ts, 0);
    Events2Globals(ts);
    Events2Global(ts);
    KeysAfter(Events1(ts, 0));
    GlobalsOnly(p.tables, Events2(ts));
    PassesDisjoint(Events1(ts, 0), Events2(ts));
  }

  /** A label's address is the sum of the sizes of the tokens before its
      last definition, and its string offset is 1 plus the bytes of the
      label names before it. */
  lemma {:induction false} LabelAddress(ts: seq<Token>, j: nat)
    requires Run(Initial, ts).Ok?
    requires j < |ts| && ts[j].Label?
    requires forall k :: j < k < |ts| ==> ts[k] != ts[j]
    ensures var v := Run(Initial, ts).value;
      ts[j].name in v.tables.symbols && ts[j].name in v.tables.strings
      && v.tables.symbols[ts[j].name] == Offset(ts[..j])
      && v.tables.strings[ts[j].name] == 1 + NameBytes(Labels(ts[..j]))
  {
    var front, t := ts[..|ts| - 1], ts[|ts| - 1];
    var u := Run(Initial, front).value;
    assert Run(Initial, ts) == Step(u, t);
    StepArms(u, t);
    if j == |ts| - 1 {
      Pass1(Initial, front);
      EventsDefined(front, 0);
      KeysAfter(Events1(front, 0));
      assert front == ts[..j];
    } else {
      LabelAddress(front, j);
      assert front[..j] == ts[..j];
    }
  }

  // --------------------------------------------------------------- the class

  class Assembler {
    const tokens: seq<Token>
    var dat: seq<Byte>
    var symbolTable: map<string, int>
    var locSymbols: set<string>
    var extSymbols: set<string>
    var stringTable: map<string, int>
    /** The keys of `string_table` in insertion order. */
    var stringKeys: seq<string>
    var lc: int
    var stidx: int
    var align: int
    var firstPass: bool

    function Snapshot(): State
      reads this
    {
      State(dat, Tables(symbolTable, stringTable, stringKeys, locSymbols, extSymbols, stidx), lc, align, firstPass)
    }

    constructor (tokens: seq<Token>)
      ensures this.tokens == tokens && Snapshot() == Initial
    {
      this.tokens := tokens;
      dat := [];
      symbolTable := map[];
      locSymbols := {};
      extSymbols := {};
      stringTable := map[];
      stringKeys := [];
      lc := 0;
      stidx := 1;
      align := 4;
      firstPass := true;
    }

    /** `_process_directive`. */
    method ProcessDirective(t: Token) returns (o: Outcome)
      requires t.Directive?
      modifies this
      ensures o.Pass? <==> Step(old(Snapshot()), t).Ok?
      ensures o.Pass? ==> Snapshot() == Step(old(Snapshot()), t).value
      ensures o.Fail? ==> o.error == Step(old(Snapshot()), t).error && Snapshot() == old(Snapshot())
    {
      if t.name == ".global" {
        locSymbols := locSymbols - {t.subject};
        extSymbols := extSymbols + {t.subject};
      } else if t.name == ".align" {
        var n := ParseInt(t.subject);
        if n.Err? {
          return Fail(n.error);
        }
        align := n.value;
      } else if t.name == ".ascii" {
        var s := Utf8(t.subject);
        lc := lc + |s|;
      }
      return Pass;
    }

    /** `_process_label`. */
    method ProcessLabel(t: Token)
      requires t.Label?
      modifies this
      ensures Snapshot() == Step(old(Snapshot()), t).value
    {
      if !firstPass {
        return;
      }
      symbolTable := symbolTable[t.name := lc];
      stringTable := stringTable[t.name := stidx];
      stringKeys := Insert(stringKeys, t.name);
      stidx := stidx + |Utf8(t.name)| + 1;
      locSymbols := locSymbols + {t.name};
    }

    /** `_process_binary_op`. */
    method ProcessBinaryOp(t: Token)
      requires t.BinaryOp?
      modifies this
      ensures Snapshot() == Step(old(Snapshot()), t).value
    {
      if t.name == "mov" || t.name == "adr" {
        lc := lc + 4;
      }
    }

    /** `_process_unary_op`. */
    method ProcessUnaryOp(t: Token)
      requires t.UnaryOp?
      modifies this
      ensures Snapshot() == Step(old(Snapshot()), t).value
    {
      if t.name == "svc" {
        lc := lc + 4;
      }
    }

    /** `process`. */
    method Process(t: Token) returns (o: Outcome)
      modifies this
      ensures o.Pass? <==> Step(old(Snapshot()), t).Ok?
      ensures o.Pass? ==> Snapshot() == Step(old(Snapshot()), t).value
      ensures o.Fail? ==> o.error == Step(old(Snapshot()), t).error && Snapshot() == old(Snapshot())
    {
      match t
      case Directive(_, _) => o := ProcessDirective(t);
      case Label(_) => ProcessLabel(t); o := Pass;
      case BinaryOp(_, _, _) => ProcessBinaryOp(t); o := Pass;
      case UnaryOp(_, _) => ProcessUnaryOp(t); o := Pass;
    }

    /** `_get_symbols`. */
    method GetSymbols(nType: int) returns (r: Result<seq<MachO.Obj>>, ghost order: seq<string>)
      ensures |order| == |locSymbols| + |extSymbols|
      ensures Enumerates(order[..|locSymbols|], locSymbols) && Enumerates(order[|locSymbols|..], extSymbols)
      ensures r == Entries(Snapshot().tables, order, nType)
    {
      r, order := SymbolTables.GetSymbols(Snapshot().tables, nType);
    }

    /** `_get_string_table`: the keys in insertion order. */
    method GetStringTable() returns (names: seq<string>)
      ensures names == Snapshot().tables.keys
    {
      names := stringKeys;
    }

    /** One loop of `dump` over the tokens. */
    method RunTokens() returns (o: Outcome)
      modifies this
      ensures o.Pass? <==> Run(old(Snapshot()), tokens).Ok?
      ensures o.Pass? ==> Snapshot() == Run(old(Snapshot()), tokens).value
      ensures o.Fail? ==> o.error == Run(old(Snapshot()), tokens).error
      ensures dat == old(dat)
    {
      ghost var s0 := Snapshot();
      var i := 0;
      while i < |tokens|
        invariant 0 <= i <= |tokens|
        invariant Run(s0, tokens[..i]) == Ok(Snapshot())
        invariant dat == s0.dat
      {
        assert tokens[..i + 1][..i] == tokens[..i];
        ghost var before := Snapshot();
        o := Process(tokens[i]);
        if o.Pass? {
          StepCounters(before, tokens[i]);
        }
        RunSplit(s0, tokens, i + 1);
        if o.Fail? {
          return;
        }
        i := i + 1;
      }
      assert tokens[..i] == tokens;
      o := Pass;
    }

    /** The passes and builder calls of `dump`: the code is the fixed
        program, whatever the tokens; `nType` stands for `N_TYPE`, which the
        object module does not define. */
    method Dump(nType: int) returns (r: Result<BuilderCalls>, ghost order: seq<string>)
      modifies this
      ensures dat == MachO.Code
      ensures Passes(old(Snapshot()), tokens).Err? ==> r == Err(Passes(old(Snapshot()), tokens).error)
      ensures Passes(old(Snapshot()), tokens).Ok? ==> var v := Passes(old(Snapshot()), tokens).value;
        |order| == |v.tables.loc| + |v.tables.ext|
        && Enumerates(order[..|v.tables.loc|], v.tables.loc) && Enumerates(order[|v.tables.loc|..], v.tables.ext)
        && r == Calls(v.tables, v.align, MachO.Code, order, nType)
    {
      ghost var s0 := Snapshot();
      dat := MachO.Code;
      ghost var s1 := Snapshot();
      DatIgnored(s0, s1, tokens);
      var o := RunTokens();
      if o.Fail? {
        return Err(o.error), [];
      }
      firstPass := false;
      o := RunTokens();
      if o.Fail? {
        return Err(o.error), [];
      }
      var syms;
      syms, order := GetSymbols(nType);
      var names := GetStringTable();
      if syms.Err? {
        return Err(syms.error), order;
      }
      r := Ok(BuilderCalls("__TEXT", "__text", "__TEXT", align, 1, 0xe0000, DysymtabFor(Snapshot().tables),
                           dat, syms.value, names));
    }
  }

  /** The passes never read `dat`: two starting states that differ only
      there end with the same tables, location and alignment. */
  lemma DatIgnored(s: State, t: State, ts: seq<Token>)
    requires t == s.(dat := t.dat)
    ensures Passes(s, ts).Ok? <==> Passes(t, ts).Ok?
    ensures Passes(s, ts).Err? ==> Passes(t, ts).error == Passes(s, ts).error
    ensures Passes(s, ts).Ok? ==> Passes(t, ts).value == Passes(s, ts).value.(dat := t.dat)
  {
    RunDat(s, t, ts);
    if Run(s, ts).Ok? {
      RunDat(Run(s, ts).value.(firstPass := false), Run(t, ts).value.(firstPass := false), ts);
    }
  }

  lemma {:induction false} RunDat(s: State, t: State, ts: seq<Token>)
    requires t == s.(dat := t.dat)
    ensures Run(s, ts).Ok? <==> Run(t, ts).Ok?
    ensures Run(s, ts).Err? ==> Run(t, ts).error == Run(s, ts).error
    ensures Run(s, ts).Ok? ==> Run(t, ts).value == Run(s, ts).value.(dat := t.dat)
  {
    if |ts| > 0 {
      var front, x := ts[..|ts| - 1], ts[|ts| - 1];
      RunDat(s, t, front);
      if Run(s, front).Ok? {
        StepRaises(Run(s, front).value, x);
      }
    }
  }
}
