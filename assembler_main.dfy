/** The two-pass assembler of assembler/main.py.

    Pass 1 records every label's location and string offset; pass 2 resets
    `lc` and emits the bytes. Both passes run the same `process`, so the
    first pass also decodes instructions, and an `adr` whose target label
    comes later is skipped in pass 1 without moving `lc`: every label after
    k such forward references is recorded 4k bytes below the offset its code
    has in pass 2. */
module AsmMain {
  import opened Outcomes
  import opened PyStr
  import opened AsmTokens
  import opened SymbolTables
  import MachO
  import opened StructPack
  import opened A64
  import opened Decoders

  /** The fields `process` and `dump` update. */
  datatype State = State(dat: seq<Byte>, tables: Tables, lc: int, align: int, firstPass: bool)

  /** The fields as `__init__` sets them. */
  const Initial: State := State([], InitialTables, 0, 4, true)

  /** How far a token moves `lc`, given the labels known at that point:
      4 for an instruction, except an `adr` whose target is unknown, and the
      UTF-8 length of an `.ascii` subject. */
  function Width(t: Token, known: set<string>): nat {
    match t
    case Mov(_, _, _) => 4
    case Svc(_, _) => 4
    case Adr(_, _, s2, _) => if s2 in known then 4 else 0
    case Directive(name, subject) => if name == ".ascii" then |Utf8(subject)| else 0
    case Label(_) => 0
  }

  /** `lc += len(out)`, and `dat += out` outside the first pass. */
  function Advance(s: State, out: seq<Byte>): State {
    s.(lc := s.lc + |out|, dat := if s.firstPass then s.dat else s.dat + out)
  }

  /** The token `process` decodes for an `adr` whose target sits at `addr`
      while `lc` is at the `adr`: `token.imm = addr - lc + 4`. */
  function Resolved(t: Token, addr: int, lc: int): Token
    requires t.Adr?
  {
    t.(imm := addr - lc + 4)
  }

  /** `process(token)` on the fields `s`. */
  function Step(s: State, t: Token): Result<State> {
    match t
    case Directive(name, subject) =>
      if name == ".global" then Ok(s.(tables := Globalize(s.tables, subject)))
      else if name == ".align" then
        var n :- ParseInt(subject);
        Ok(s.(align := n))
      else if name == ".ascii" then Ok(Advance(s, Utf8(subject)))
      else Ok(s)
    case Label(name) =>
      if s.firstPass then Ok(s.(tables := DefineLabel(s.tables, name, s.lc))) else Ok(s)
    case Mov(_, _, _) =>
      var out :- Decode(t);
      Ok(Advance(s, out))
    case Adr(name, s1, s2, _) =>
      if s2 !in s.tables.symbols then Ok(s)
      else
        var out :- Decode(Resolved(t, s.tables.symbols[s2], s.lc));
        Ok(Advance(s, out))
    case Svc(_, _) =>
      var out :- Decode(t);
      Ok(Advance(s, out))
  }

  /** Every token moves `lc` by its width given the symbols known so far.
      The first pass never appends to `dat`; the second appends exactly as
      many bytes as `lc` moves. Only labels and `.global` touch the tables,
      and only `.align` the alignment. */
  lemma StepCounters(s: State, t: Token)
    requires Step(s, t).Ok?
    ensures var v := Step(s, t).value;
      v.firstPass == s.firstPass
      && v.lc == s.lc + Width(t, s.tables.symbols.Keys)
      && (s.firstPass ==> v.dat == s.dat)
      && (!s.firstPass ==> |v.dat| == |s.dat| + Width(t, s.tables.symbols.Keys) && v.dat[..|s.dat|] == s.dat)
      && (!t.Label? && !(t.Directive? && t.name == ".global") ==> v.tables == s.tables)
      && (!(t.Directive? && t.name == ".align") ==> v.align == s.align)
  {
  }

  /** The arms of `Step` that pass 2 appends bytes in. */
  lemma StepAppends(s: State, t: Token)
    requires Step(s, t).Ok? && !s.firstPass
    ensures (t.Mov? || t.Svc?) ==> Decode(t).Ok? && Step(s, t).value.dat == s.dat + Decode(t).value
    ensures t.Adr? && t.s2 in s.tables.symbols ==>
      var w := Decode(Resolved(t, s.tables.symbols[t.s2], s.lc));
      w.Ok? && Step(s, t).value.dat == s.dat + w.value
    ensures t.Directive? && t.name == ".ascii" ==> Step(s, t).value.dat == s.dat + Utf8(t.subject)
  {
  }

  /** The word the second pass appends, read back as a little-endian
      integer: the MOVZ encoding of `int(s2[1:])`, the ADR encoding whose
      displacement is `symbol_table[target] - lc + 4`, the SVC encoding of
      the low 15 bits of `int(s1[1:], 16)`; `.ascii` appends its UTF-8 and
      nothing else appends anything. */
  lemma StepBytes(s: State, t: Token)
    requires Step(s, t).Ok? && !s.firstPass
    ensures var v := Step(s, t).value;
      |s.dat| <= |v.dat| && v.dat[..|s.dat|] == s.dat
    ensures t.Mov? ==> (
      t.s1 in Registers && ParseInt(DropFirst(t.s2)).Ok? &&
      var w, n := FromLE(Step(s, t).value.dat[|s.dat|..]), ParseInt(DropFirst(t.s2)).value;
      w == MovzWord(n, Registers[t.s1]) && (n < 0x40000 ==> w == MovzBase + n * 32 + Registers[t.s1]))
    ensures t.Svc? ==> (
      ParseHex(DropFirst(t.s1)).Ok? &&
      FromLE(Step(s, t).value.dat[|s.dat|..]) == 0xD4000001 + (ParseHex(DropFirst(t.s1)).value % 0x8000) * 32)
    ensures t.Adr? && t.s2 in s.tables.symbols ==> (
      t.s1 in Registers &&
      var w, imm := FromLE(Step(s, t).value.dat[|s.dat|..]), s.tables.symbols[t.s2] - s.lc + 4;
      w % 32 == Registers[t.s1] && (w / 0x1000000) % 32 == AdrOpcode && w / 0x80000000 == 0
      && (-0x100000 <= imm < 0x100000 ==> AdrImmediate(w) == imm))
    ensures t.Directive? && t.name == ".ascii" ==> Step(s, t).value.dat[|s.dat|..] == Utf8(t.subject)
    ensures t.Label? || (t.Directive? && t.name != ".ascii") || (t.Adr? && t.s2 !in s.tables.symbols) ==>
      Step(s, t).value.dat == s.dat
  {
    RegistersTable();
    StepAppends(s, t);
    var v := Step(s, t).value;
    match t
    case Mov(_, s1, s2) =>
      assert v.dat[|s.dat|..] == Decode(t).value;
      MovDecodeWord(Registers, s1, s2);
    case Svc(_, s1) =>
      assert v.dat[|s.dat|..] == Decode(t).value;
      SvcDecodeWord(s1);
    case Adr(_, s1, s2, _) =>
      if s2 in s.tables.symbols {
        var imm := s.tables.symbols[s2] - s.lc + 4;
        assert v.dat[|s.dat|..] == AdrDecode(Registers, s1, imm).value;
        AdrDecodeWord(Registers, s1, imm);
      }
    case Directive(name, subject) =>
      if name == ".ascii" {
        assert v.dat[|s.dat|..] == Utf8(subject);
      }
    case Label(_) =>
  }

  /** The arms of `Step` that touch the tables and the alignment. */
  lemma StepArms(s: State, t: Token)
    ensures t.Label? ==> Step(s, t) == Ok(if s.firstPass then s.(tables := DefineLabel(s.tables, t.name, s.lc)) else s)
    ensures t.Directive? && t.name == ".global" ==> Step(s, t) == Ok(s.(tables := Globalize(s.tables, t.subject)))
    ensures t.Directive? && t.name == ".align" ==>
      Step(s, t) == match ParseInt(t.subject) case Ok(n) => Ok(s.(align := n)) case Err(e) => Err(e)
    ensures Step(s, t).Err? ==> t.IsInstruction() || (t.Directive? && t.name == ".align" && Step(s, t).error == ValueError)
  {
  }

  /** What `process` may change and when it raises. The tables change only
      for a label in the first pass, which records its `lc` and string
      offset and makes it local, and for `.global`, which moves one name
      to the externals; `.align` changes only the alignment. Labels and
      directives other than `.ascii` leave `lc` and `dat` alone. `process`
      raises exactly for a bad `.align` (ValueError) and for an instruction
      that does not decode: MOV or SVC whose operands are rejected, or a
      resolved ADR whose register is unknown; an ADR to an unknown label
      never raises. */
  lemma StepTables(s: State, t: Token)
    ensures Step(s, t).Err? <==>
      (t.Directive? && t.name == ".align" && ParseInt(t.subject).Err?)
      || ((t.Mov? || t.Svc?) && Decode(t).Err?)
      || (t.Adr? && t.s2 in s.tables.symbols && t.s1 !in Registers)
    ensures Step(s, t).Err? && t.Directive? ==> Step(s, t).error == ValueError
    ensures Step(s, t).Ok? ==> var v := Step(s, t).value;
      v.firstPass == s.firstPass
      && (!(t.Label? && s.firstPass) && !(t.Directive? && t.name == ".global") ==> v.tables == s.tables)
      && (!(t.Directive? && t.name == ".align") ==> v.align == s.align)
      && (t.Directive? && t.name == ".align" ==> v.align == ParseInt(t.subject).value)
      && (t.Label? || (t.Directive? && t.name != ".ascii") ==> v.lc == s.lc && v.dat == s.dat)
      && (t.Label? && s.firstPass ==>
            v.tables.symbols == s.tables.symbols[t.name := s.lc]
            && v.tables.strings == s.tables.strings[t.name := s.tables.stidx]
            && v.tables.loc == s.tables.loc + {t.name} && v.tables.ext == s.tables.ext)
      && (t.Directive? && t.name == ".global" ==>
            v.tables.symbols == s.tables.symbols && v.tables.strings == s.tables.strings
            && v.tables.loc == s.tables.loc - {t.subject} && v.tables.ext == s.tables.ext + {t.subject})
  {
    RegistersTable();
    StepArms(s, t);
  }

  /** One `for x in self.tokens: self.process(x)` loop. */
  function Run(s: State, ts: seq<Token>): Result<State> {
    if |ts| == 0 then Ok(s)
    else
      var u :- Run(s, ts[..|ts| - 1]);
      Step(u, ts[|ts| - 1])
  }

  /** The two passes of `dump`: `first_pass = False` and `lc = 0` between them. */
  function Passes(s: State, ts: seq<Token>): Result<State> {
    var p :- Run(s, ts);
    Run(p.(firstPass := false, lc := 0), ts)
  }

  // ------------------------------------------------ the token list, statically

  /** The label names of `ts`, in order, repetitions included. */
  function Labels(ts: seq<Token>): seq<string> {
    if |ts| == 0 then []
    else Labels(ts[..|ts| - 1]) + (if ts[|ts| - 1].Label? then [ts[|ts| - 1].name] else [])
  }

  function LabelSet(ts: seq<Token>): set<string> {
    if |ts| == 0 then {}
    else LabelSet(ts[..|ts| - 1]) + (if ts[|ts| - 1].Label? then {ts[|ts| - 1].name} else {})
  }

  /** The subjects of the `.global` directives. */
  function GlobalSet(ts: seq<Token>): set<string> {
    if |ts| == 0 then {}
    else
      var t := ts[|ts| - 1];
      GlobalSet(ts[..|ts| - 1]) + (if t.Directive? && t.name == ".global" then {t.subject} else {})
  }

  /** The location pass 1 reaches after `ts`: each token moves it by its
      width given the labels defined before it. */
  function Lc1(ts: seq<Token>): int {
    if |ts| == 0 then 0 else Lc1(ts[..|ts| - 1]) + Width(ts[|ts| - 1], LabelSet(ts[..|ts| - 1]))
  }

  /** The location pass 2 reaches after `ts`, when the labels `known` are
      defined. */
  function Lc2(ts: seq<Token>, known: set<string>): int {
    if |ts| == 0 then 0 else Lc2(ts[..|ts| - 1], known) + Width(ts[|ts| - 1], known)
  }

  /** The `adr`s whose target is among `known` but not yet defined at that
      point: the forward references. */
  function Forward(ts: seq<Token>, known: set<string>): nat {
    if |ts| == 0 then 0
    else
      var t := ts[|ts| - 1];
      Forward(ts[..|ts| - 1], known) + (if t.Adr? && t.s2 in known && t.s2 !in LabelSet(ts[..|ts| - 1]) then 1 else 0)
  }

  /** The table events of pass 1: each label at its pass-1 location, and
      each `.global`. */
  function Events1(ts: seq<Token>): seq<Event> {
    if |ts| == 0 then []
    else
      var t := ts[|ts| - 1];
      Events1(ts[..|ts| - 1])
        + (if t.Label? then [Define(t.name, Lc1(ts[..|ts| - 1]))]
           else if t.Directive? && t.name == ".global" then [Global(t.subject)]
           else [])
  }

  /** The table events of pass 2: the `.global`s alone. */
  function Events2(ts: seq<Token>): seq<Event> {
    if |ts| == 0 then []
    else
      var t := ts[|ts| - 1];
      Events2(ts[..|ts| - 1]) + (if t.Directive? && t.name == ".global" then [Global(t.subject)] else [])
  }

  /** Pass 1 defines exactly the labels, in order. */
  lemma {:induction false} EventsDefined(ts: seq<Token>)
    ensures Defined(Events1(ts)) == Labels(ts)
  {
    if |ts| > 0 {
      var front, t := ts[..|ts| - 1], ts[|ts| - 1];
      EventsDefined(front);
      var e1 := if t.Label? then [Define(t.name, Lc1(front))]
                else if t.Directive? && t.name == ".global" then [Global(t.subject)] else [];
      assert Events1(ts) == Events1(front) + e1;
      if |e1| == 1 {
        DefinedStep(Events1(front), e1[0]);
      } else {
        assert Events1(front) + e1 == Events1(front);
      }
    }
  }

  /** Both passes declare exactly the `.global` subjects. */
  lemma {:induction false} EventsGlobals(ts: seq<Token>)
    ensures Globals(Events1(ts)) == GlobalSet(ts) && Globals(Events2(ts)) == GlobalSet(ts)
  {
    if |ts| > 0 {
      var front, t := ts[..|ts| - 1], ts[|ts| - 1];
      EventsGlobals(front);
      var e1 := if t.Label? then [Define(t.name, Lc1(front))]
                else if t.Directive? && t.name == ".global" then [Global(t.subject)] else [];
      var e2 := if t.Directive? && t.name == ".global" then [Global(t.subject)] else [];
      assert Events1(ts) == Events1(front) + e1;
      assert Events2(ts) == Events2(front) + e2;
      if |e1| == 1 {
        GlobalsStep(Events1(front), e1[0]);
      } else {
        assert Events1(front) + e1 == Events1(front);
      }
      if |e2| == 1 {
        GlobalsStep(Events2(front), e2[0]);
      } else {
        assert Events2(front) + e2 == Events2(front);
      }
    }
  }

  lemma {:induction false} LabelSetNames(ts: seq<Token>)
    ensures forall x :: x in LabelSet(ts) <==> x in Labels(ts)
  {
    if |ts| > 0 {
      LabelSetNames(ts[..|ts| - 1]);
    }
  }

  /** Pass 2's events are all `.global`s. */
  lemma {:induction false} Events2Global(ts: seq<Token>)
    ensures forall k :: 0 <= k < |Events2(ts)| ==> Events2(ts)[k].Global?
  {
    if |ts| > 0 {
      Events2Global(ts[..|ts| - 1]);
    }
  }

  /** With every label known, pass 2 is ahead of pass 1 by 4 bytes per
      forward reference; without forward references the passes agree. */
  lemma {:induction false} Skew(ts: seq<Token>, known: set<string>)
    requires LabelSet(ts) <= known
    ensures Lc2(ts, known) == Lc1(ts) + 4 * Forward(ts, known)
  {
    if |ts| > 0 {
      var front := ts[..|ts| - 1];
      assert LabelSet(front) <= LabelSet(ts);
      Skew(front, known);
    }
  }

  // --------------------------------------------------------------- the runs

  lemma {:induction false} RunSplit(s: State, ts: seq<Token>, k: nat)
    requires k <= |ts|
    ensures Run(s, ts[..k]).Err? ==> Run(s, ts) == Run(s, ts[..k])
    ensures Run(s, ts[..k]).Ok? ==> Run(s, ts) == Run(Run(s, ts[..k]).value, ts[k..])
    decreases |ts|
  {
    if k < |ts| {
      var front := ts[..|ts| - 1];
      assert front[..k] == ts[..k];
      RunSplit(s, front, k);
      if Run(s, ts[..k]).Ok? {
        assert ts[k..][..|ts[k..]| - 1] == front[k..];
      }
    } else {
      assert ts[..k] == ts;
      assert ts[k..] == [];
    }
  }

  /** From the initial fields, pass 1 applies its label and `.global`
      events to the tables, moves `lc` to the pass-1 location, appends
      nothing, and leaves every label of `ts` in the symbol table. */
  lemma {:induction false} Pass1(ts: seq<Token>)
    requires Run(Initial, ts).Ok?
    ensures var v := Run(Initial, ts).value;
      v.tables == ApplyAll(InitialTables, Events1(ts)) && v.lc == Lc1(ts) && v.dat == [] && v.firstPass
      && (forall x :: x in v.tables.symbols <==> x in LabelSet(ts))
  {
    if |ts| > 0 {
      var front, t := ts[..|ts| - 1], ts[|ts| - 1];
      Pass1(front);
      var u := Run(Initial, front).value;
      assert Run(Initial, ts) == Step(u, t);
      StepCounters(u, t);
      StepArms(u, t);
      WidthSame(t, u.tables.symbols.Keys, LabelSet(front));
      var e1 := if t.Label? then [Define(t.name, Lc1(front))]
                else if t.Directive? && t.name == ".global" then [Global(t.subject)] else [];
      assert Events1(ts) == Events1(front) + e1;
      if |e1| == 1 {
        ApplyStep(InitialTables, Events1(front), e1[0]);
        assert ApplyAll(InitialTables, Events1(ts)) == Apply(u.tables, e1[0]);
      } else {
        assert Events1(ts) == Events1(front);
      }
    }
  }

  /** In pass 2 only `.global` touches the tables, and `dat` grows by
      exactly as many bytes as `lc` advances, with the widths of the fixed
      symbol table. */
  lemma {:induction false} Pass2(s: State, ts: seq<Token>)
    requires !s.firstPass && Run(s, ts).Ok?
    ensures var v := Run(s, ts).value;
      v.tables == ApplyAll(s.tables, Events2(ts)) && !v.firstPass
      && v.tables.symbols == s.tables.symbols
      && v.lc == s.lc + Lc2(ts, s.tables.symbols.Keys)
      && |v.dat| == |s.dat| + Lc2(ts, s.tables.symbols.Keys) && |s.dat| <= |v.dat| && v.dat[..|s.dat|] == s.dat
  {
    if |ts| > 0 {
      var front, t := ts[..|ts| - 1], ts[|ts| - 1];
      Pass2(s, front);
      var u := Run(s, front).value;
      assert Run(s, ts) == Step(u, t);
      StepCounters(u, t);
      StepArms(u, t);
      Events2Global(front);
      GlobalsOnly(s.tables, Events2(front));
      var e2 := if t.Directive? && t.name == ".global" then [Global(t.subject)] else [];
      assert Events2(ts) == Events2(front) + e2;
      if |e2| == 1 {
        assert (Events2(front) + e2)[..|Events2(front)|] == Events2(front);
        assert ApplyAll(s.tables, Events2(ts)) == Apply(u.tables, e2[0]);
      } else {
        assert Events2(ts) == Events2(front);
      }
      var v := Run(s, ts).value;
      assert v.dat[..|u.dat|] == u.dat;
      assert v.dat[..|s.dat|] == u.dat[..|s.dat|];
    }
  }

  /** After both passes the code buffer is exactly as long as `lc`, the
      externals are the `.global` names, the locals are the labels never
      declared global (so the two sets are disjoint even when `.global`
      comes before its label), the string table's keys are the label names
      in order of first definition, and `stidx` is 1 plus the bytes of all
      label names counted with their terminators. */
  lemma PassesFacts(ts: seq<Token>)
    requires Passes(Initial, ts).Ok?
    ensures var v := Passes(Initial, ts).value;
      |v.dat| == v.lc
      && v.tables.loc * v.tables.ext == {}
      && v.tables.ext == GlobalSet(ts)
      && (forall x :: x in v.tables.loc <==> x in LabelSet(ts) && x !in GlobalSet(ts))
      && v.tables.keys == FirstOccurrences(Labels(ts))
      && v.tables.stidx == 1 + NameBytes(Labels(ts))
      && v.tables.symbols.Keys == LabelSet(ts)
      && (forall x :: x in v.tables.strings <==> x in LabelSet(ts))
  {
    var p := Run(Initial, ts).value;
    Pass1(ts);
    Pass2(p.(firstPass := false, lc := 0), ts);
    EventsDefined(ts);
    EventsGlobals(ts);
    LabelSetNames(ts);
    Events2Global(ts);
    KeysAfter(Events1(ts));
    GlobalsOnly(p.tables, Events2(ts));
    PassesDisjoint(Events1(ts), Events2(ts));
  }

  /** The pass-1 entries of a label come from its last definition: the
      address is pass 1's location there, and the string offset is 1 plus
      the bytes of the label names before it. */
  lemma {:induction false} LabelEntries(ts: seq<Token>, j: nat)
    requires Run(Initial, ts).Ok?
    requires j < |ts| && ts[j].Label?
    requires forall k :: j < k < |ts| ==> ts[k] != ts[j]
    ensures var v := Run(Initial, ts).value;
      ts[j].name in v.tables.symbols && ts[j].name in v.tables.strings
      && v.tables.symbols[ts[j].name] == Lc1(ts[..j])
      && v.tables.strings[ts[j].name] == 1 + NameBytes(Labels(ts[..j]))
  {
    if j == |ts| - 1 {
      LastLabelEntry(ts);
      assert ts[..|ts| - 1] == ts[..j];
    } else {
      var front, t := ts[..|ts| - 1], ts[|ts| - 1];
      var u := Run(Initial, front).value;
      assert Run(Initial, ts) == Step(u, t);
      StepArms(u, t);
      StepCounters(u, t);
      LabelEntries(front, j);
      assert front[..j] == ts[..j];
    }
  }

  /** The entry the last token of a first pass makes when it is a label. */
  lemma LastLabelEntry(ts: seq<Token>)
    requires Run(Initial, ts).Ok? && |ts| > 0 && ts[|ts| - 1].Label?
    ensures var v, n, front := Run(Initial, ts).value, ts[|ts| - 1].name, ts[..|ts| - 1];
      n in v.tables.symbols && n in v.tables.strings
      && v.tables.symbols[n] == Lc1(front)
      && v.tables.strings[n] == 1 + NameBytes(Labels(front))
  {
    var front, t := ts[..|ts| - 1], ts[|ts| - 1];
    var u := Run(Initial, front).value;
    assert Run(Initial, ts) == Step(u, t);
    Pass1(front);
    StepArms(u, t);
    EventsDefined(front);
    KeysAfter(Events1(front));
  }

  /** The second pass around token `i`: the state `u` before it has
      advanced by the pass-2 widths of the tokens before it, token `i` takes
      it to `w`, and the rest of the pass keeps what that step wrote. */
  lemma SecondPassAt(s: State, ts: seq<Token>, i: nat) returns (u: State, w: State)
    requires !s.firstPass && Run(s, ts).Ok? && i < |ts|
    ensures Step(u, ts[i]) == Ok(w) && !u.firstPass
    ensures u.tables.symbols == s.tables.symbols
    ensures u.lc == s.lc + Lc2(ts[..i], s.tables.symbols.Keys)
    ensures |u.dat| == |s.dat| + Lc2(ts[..i], s.tables.symbols.Keys)
    ensures |w.dat| <= |Run(s, ts).value.dat| && Run(s, ts).value.dat[..|w.dat|] == w.dat
  {
    RunSplit(s, ts, i);
    RunSplit(s, ts, i + 1);
    Pass2(s, ts[..i]);
    assert ts[..i + 1][..i] == ts[..i];
    u := Run(s, ts[..i]).value;
    assert Run(s, ts[..i + 1]) == Step(u, ts[i]);
    w := Run(s, ts[..i + 1]).value;
    StepCounters(u, ts[i]);
    Pass2(w, ts[i + 1..]);
  }

  /** In a second pass that starts from an empty buffer at location 0, the
      word of a resolved `adr` lands at the `adr`'s location; `syms` is the
      symbol table and `known` its key set. */
  lemma AdrWordAt(s: State, ts: seq<Token>, i: nat, v: State, known: set<string>)
    requires !s.firstPass && s.dat == [] && s.lc == 0 && Run(s, ts) == Ok(v)
    requires v.tables.symbols == s.tables.symbols
    requires forall x :: x in known <==> x in s.tables.symbols
    requires i < |ts| && ts[i].Adr? && ts[i].s2 in known
    ensures var p := Lc2(ts[..i], known);
      ts[i].s2 in v.tables.symbols && 0 <= p && p + 4 <= |v.dat|
      && Decode(Resolved(ts[i], v.tables.symbols[ts[i].s2], p)).Ok?
      && v.dat[p..p + 4] == Decode(Resolved(ts[i], v.tables.symbols[ts[i].s2], p)).value
  {
    var u, w := SecondPassAt(s, ts, i);
    Lc2Same(ts[..i], s.tables.symbols.Keys, known);
    StepCounters(u, ts[i]);
    StepAppends(u, ts[i]);
    var word := Decode(Resolved(ts[i], u.tables.symbols[ts[i].s2], u.lc)).value;
    SliceOfPrefix(Run(s, ts).value.dat, u.dat, word);
  }

  lemma SliceOfPrefix(v: seq<Byte>, a: seq<Byte>, b: seq<Byte>)
    requires |a + b| <= |v| && v[..|a + b|] == a + b
    ensures v[|a|..|a| + |b|] == b
  {
    assert v[|a|..|a| + |b|] == (a + b)[|a|..];
  }

  /** The state the second pass of `dump` starts from: pass 1's tables, an
      empty buffer and `lc` back at 0. */
  lemma SecondStart(ts: seq<Token>) returns (s2: State)
    requires Passes(Initial, ts).Ok?
    ensures Passes(Initial, ts) == Run(s2, ts)
    ensures !s2.firstPass && s2.dat == [] && s2.lc == 0
    ensures forall x :: x in s2.tables.symbols <==> x in LabelSet(ts)
  {
    Pass1(ts);
    s2 := Run(Initial, ts).value.(firstPass := false, lc := 0);
  }

  /** The second pass leaves the symbol table as pass 1 left it. */
  lemma SymbolsKept(s: State, ts: seq<Token>)
    requires !s.firstPass && Run(s, ts).Ok?
    ensures Run(s, ts).value.tables.symbols == s.tables.symbols
  {
    Pass2(s, ts);
  }

  /** The word `dump` emits for a resolved `adr` sits at the `adr`'s pass-2
      offset `p` and encodes `imm = symbol_table[target] - p + 4`, where the
      address is the target's pass-1 location. */
  lemma AdrWord(ts: seq<Token>, i: nat)
    requires Passes(Initial, ts).Ok?
    requires i < |ts| && ts[i].Adr? && ts[i].s2 in LabelSet(ts)
    ensures var v, p := Passes(Initial, ts).value, Lc2(ts[..i], LabelSet(ts));
      ts[i].s2 in v.tables.symbols && 0 <= p && p + 4 <= |v.dat|
      && Decode(Resolved(ts[i], v.tables.symbols[ts[i].s2], p)).Ok?
      && v.dat[p..p + 4] == Decode(Resolved(ts[i], v.tables.symbols[ts[i].s2], p)).value
  {
    var s2 := SecondStart(ts);
    SymbolsKept(s2, ts);
    AdrWordAt(s2, ts, i, Passes(Initial, ts).value, LabelSet(ts));
  }

  lemma {:induction false} Lc2Same(ts: seq<Token>, a: set<string>, b: set<string>)
    requires forall x :: x in a <==> x in b
    ensures Lc2(ts, a) == Lc2(ts, b)
  {
    if |ts| > 0 {
      Lc2Same(ts[..|ts| - 1], a, b);
      WidthSame(ts[|ts| - 1], a, b);
    }
  }

  /** The displacement that ends up in an `adr`: for a target whose last
      definition is at `j`, with `d` the pass-2 distance from the `adr` to
      the label and `k` the forward references before the label, the
      emitted immediate is `d + 4 - 4k`. It equals the distance exactly
      when one forward reference precedes the label. */
  lemma AdrDisplacement(ts: seq<Token>, i: nat, j: nat)
    requires Passes(Initial, ts).Ok?
    requires i < |ts| && ts[i].Adr? && j < |ts| && ts[j] == Label(ts[i].s2)
    requires forall k :: j < k < |ts| ==> ts[k] != ts[j]
    ensures var v, p := Passes(Initial, ts).value, Lc2(ts[..i], LabelSet(ts));
      var d, k := Lc2(ts[..j], LabelSet(ts)) - p, Forward(ts[..j], LabelSet(ts));
      ts[i].s2 in v.tables.symbols && v.tables.symbols[ts[i].s2] - p + 4 == d + 4 - 4 * k
  {
    var p1 := Run(Initial, ts).value;
    Pass1(ts);
    LabelEntries(ts, j);
    Pass2(p1.(firstPass := false, lc := 0), ts);
    LabelSetPrefix(ts, j);
    Skew(ts[..j], LabelSet(ts));
  }

  lemma WidthSame(t: Token, a: set<string>, b: set<string>)
    requires forall x :: x in a <==> x in b
    ensures Width(t, a) == Width(t, b)
  {
  }

  lemma {:induction false} LabelSetPrefix(ts: seq<Token>, j: nat)
    requires j <= |ts|
    ensures LabelSet(ts[..j]) <= LabelSet(ts)
  {
    if j < |ts| {
      LabelSetPrefix(ts[..|ts| - 1], j);
      assert ts[..|ts| - 1][..j] == ts[..j];
    } else {
      assert ts[..j] == ts;
    }
  }

  // --------------------------------------------------------------- the class

  class Assembler {
    const tokens: seq<Token>
    var dat: seq<Byte>
    var symbolTable: map<string, int>
    var locSymbols: set<string>
    var extSymbols: set<string>
    var stringTable: map<string, int>
    /** The keys of `string_table` in insertion order. */
    var stringKeys: seq<string>
    var lc: int
    var stidx: int
    var align: int
    var firstPass: bool

    function Snapshot(): State
      reads this
    {
      State(dat, Tables(symbolTable, stringTable, stringKeys, locSymbols, extSymbols, stidx), lc, align, firstPass)
    }

    constructor (tokens: seq<Token>)
      ensures this.tokens == tokens && Snapshot() == Initial
    {
      this.tokens := tokens;
      dat := [];
      symbolTable := map[];
      locSymbols := {};
      extSymbols := {};
      stringTable := map[];
      stringKeys := [];
      lc := 0;
      stidx := 1;
      align := 4;
      firstPass := true;
    }

    /** `_process_directive`. */
    method ProcessDirective(t: Token) returns (o: Outcome)
      requires t.Directive?
      modifies this
      ensures o.Pass? <==> Step(old(Snapshot()), t).Ok?
      ensures o.Pass? ==> Snapshot() == Step(old(Snapshot()), t).value
      ensures o.Fail? ==> o.error == Step(old(Snapshot()), t).error
    {
      if t.name == ".global" {
        locSymbols := locSymbols - {t.subject};
        extSymbols := extSymbols + {t.subject};
      } else if t.name == ".align" {
        var n := ParseInt(t.subject);
        if n.Err? {
          return Fail(n.error);
        }
        align := n.value;
      } else if t.name == ".ascii" {
        var s := Utf8(t.subject);
        lc := lc + |s|;
        if firstPass {
          return Pass;
        }
        dat := dat + s;
      }
      return Pass;
    }

    /** `_process_label`. */
    method ProcessLabel(t: Token) returns (o: Outcome)
      requires t.Label?
      modifies this
      ensures o.Pass? && Snapshot() == Step(old(Snapshot()), t).value
    {
      if !firstPass {
        return Pass;
      }
      symbolTable := symbolTable[t.name := lc];
      stringTable := stringTable[t.name := stidx];
      stringKeys := Insert(stringKeys, t.name);
      stidx := stidx + |Utf8(t.name)| + 1;
      locSymbols := locSymbols + {t.name};
      return Pass;
    }

    /** The tail of `_process_instruction`: `lc += 4` and, outside the
        first pass, `dat += out`. */
    method EmitWord(out: seq<Byte>)
      requires |out| == 4
      modifies this
      ensures Snapshot() == Advance(old(Snapshot()), out)
    {
      lc := lc + 4;
      if !firstPass {
        dat := dat + out;
      }
    }

    /** `_process_instruction`: the `adr` immediate is computed from the
        target's recorded address and the current `lc`. */
    method ProcessInstruction(t: Token) returns (o: Outcome)
      requires t.IsInstruction()
      modifies this
      ensures o.Pass? <==> Step(old(Snapshot()), t).Ok?
      ensures o.Pass? ==> Snapshot() == Step(old(Snapshot()), t).value
      ensures o.Fail? ==> o.error == Step(old(Snapshot()), t).error
    {
      match t {
        case Mov(_, _, _) =>
          var d := Decode(t);
          if d.Err? {
            return Fail(d.error);
          }
          EmitWord(d.value);
        case Adr(name, s1, s2, _) =>
          if s2 !in symbolTable {
            return Pass;
          }
          var addr := symbolTable[s2];
          var imm := addr - lc + 4;
          assert Resolved(t, addr, lc) == Adr(name, s1, s2, imm);
          var d := Decode(Adr(name, s1, s2, imm));
          if d.Err? {
            return Fail(d.error);
          }
          ghost var s0 := Snapshot();
          assert Step(s0, t) == Ok(Advance(s0, d.value));
          EmitWord(d.value);
        case Svc(_, _) =>
          var d := Decode(t);
          if d.Err? {
            return Fail(d.error);
          }
          EmitWord(d.value);
      }
      return Pass;
    }

    /** `process`. */
    method Process(t: Token) returns (o: Outcome)
      modifies this
      ensures o.Pass? <==> Step(old(Snapshot()), t).Ok?
      ensures o.Pass? ==> Snapshot() == Step(old(Snapshot()), t).value
      ensures o.Fail? ==> o.error == Step(old(Snapshot()), t).error
    {
      match t
      case Directive(_, _) => o := ProcessDirective(t);
      case Label(_) => o := ProcessLabel(t);
      case _ => o := ProcessInstruction(t);
    }

    /** `_get_symbols`. */
    method GetSymbols(nType: int) returns (r: Result<seq<MachO.Obj>>, ghost order: seq<string>)
      ensures |order| == |locSymbols| + |extSymbols|
      ensures Enumerates(order[..|locSymbols|], locSymbols) && Enumerates(order[|locSymbols|..], extSymbols)
      ensures r == Entries(Snapshot().tables, order, nType)
    {
      r, order := SymbolTables.GetSymbols(Snapshot().tables, nType);
    }

    /** `_get_string_table`: the keys in insertion order. */
    method GetStringTable() returns (names: seq<string>)
      ensures names == Snapshot().tables.keys
    {
      names := stringKeys;
    }

    /** One loop of `dump` over the tokens; in the second pass `dat` keeps
        pace with `lc` after every token. */
    method RunTokens() returns (o: Outcome)
      modifies this
      ensures o.Pass? <==> Run(old(Snapshot()), tokens).Ok?
      ensures o.Pass? ==> Snapshot() == Run(old(Snapshot()), tokens).value
      ensures o.Fail? ==> o.error == Run(old(Snapshot()), tokens).error
    {
      ghost var s0 := Snapshot();
      var i := 0;
      while i < |tokens|
        invariant 0 <= i <= |tokens|
        invariant Run(s0, tokens[..i]) == Ok(Snapshot())
        invariant firstPass == s0.firstPass
        invariant !s0.firstPass && |s0.dat| == s0.lc ==> |dat| == lc
      {
        assert tokens[..i + 1][..i] == tokens[..i];
        ghost var before := Snapshot();
        o := Process(tokens[i]);
        if o.Pass? {
          StepCounters(before, tokens[i]);
        }
        RunSplit(s0, tokens, i + 1);
        if o.Fail? {
          return;
        }
        i := i + 1;
      }
      assert tokens[..i] == tokens;
      o := Pass;
    }

    /** The passes and builder calls of `dump`; `nType` stands for `N_TYPE`,
        which the object module does not define. */
    method Dump(nType: int) returns (r: Result<BuilderCalls>, ghost order: seq<string>)
      modifies this
      ensures Passes(old(Snapshot()), tokens).Err? ==> r == Err(Passes(old(Snapshot()), tokens).error)
      ensures Passes(old(Snapshot()), tokens).Ok? ==> var v := Passes(old(Snapshot()), tokens).value;
        |order| == |v.tables.loc| + |v.tables.ext|
        && Enumerates(order[..|v.tables.loc|], v.tables.loc) && Enumerates(order[|v.tables.loc|..], v.tables.ext)
        && r == Calls(v.tables, v.align, v.dat, order, nType)
    {
      var o := RunTokens();
      if o.Fail? {
        return Err(o.error), [];
      }
      firstPass := false;
      lc := 0;
      o := RunTokens();
      if o.Fail? {
        return Err(o.error), [];
      }
      var syms;
      syms, order := GetSymbols(nType);
      var names := GetStringTable();
      if syms.Err? {
        return Err(syms.error), order;
      }
      r := Ok(BuilderCalls("__TEXT", "__text", "__TEXT", align, 1, 0xe0000, DysymtabFor(Snapshot().tables),
                           dat, syms.value, names));
    }
  }
}
