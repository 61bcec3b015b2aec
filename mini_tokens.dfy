/** The tokens of the compiler's assembler (minicompiler/assembler/tokens.py):
    labels, directives and the instruction classes MOV, ADR, ADD, SVC and
    RET, with the register table X0-X30. */
module MiniTokens {
  import opened Outcomes
  import opened PyStr
  import opened Decoders

  /** `ADR.imm` defaults to 0. Dataclass fields are not type-checked, so a
      four-field `adr` line stores its last field, a string, in `imm`. */
  datatype Imm = IntImm(n: int) | TextImm(text: string)

  datatype Token =
    | Label(name: string)
    | Directive(name: string, subject: string)
    | Mov(name: string, s1: string, s2: string)
    | Adr(name: string, s1: string, s2: string, imm: Imm)
    | Add(name: string, s1: string, s2: string, dst: string)
    | Svc(name: string, s1: string)
    | Ret(name: string)
  {
    predicate IsInstruction() { !Label? && !Directive? }
  }

  /** The `registers` table. */
  const Registers: map<string, int> := map[
    "X0" := 0,
    "X1" := 1,
    "X2" := 2,
    "X3" := 3,
    "X4" := 4,
    "X5" := 5,
    "X6" := 6,
    "X7" := 7,
    "X8" := 8,
    "X9" := 9,
    "X10" := 10,
    "X11" := 11,
    "X12" := 12,
    "X13" := 13,
    "X14" := 14,
    "X15" := 15,
    "X16" := 16,
    "X17" := 17,
    "X18" := 18,
    "X19" := 19,
    "X20" := 20,
    "X21" := 21,
    "X22" := 22,
    "X23" := 23,
    "X24" := 24,
    "X25" := 25,
    "X26" := 26,
    "X27" := 27,
    "X28" := 28,
    "X29" := 29,
    "X30" := 30
  ]

  /** The table maps `Xi` to `i` for i in 0..30 and has no other key. */
  lemma RegistersExact()
    ensures RegTable(Registers)
    ensures forall i :: 0 <= i < 31 ==> RegName(i) in Registers && Registers[RegName(i)] == i
    ensures forall s :: s in Registers ==> exists i :: 0 <= i < 31 && s == RegName(i)
    ensures forall i :: i >= 31 ==> RegName(i) !in Registers
  {
    RegistersIndexed();
    RegistersNamed();
    forall i: nat | i >= 31
      ensures RegName(i) !in Registers
    {
      if RegName(i) in Registers {
        var j: nat :| j < 31 && RegName(i) == RegName(j);
        RegNameInjective(i, j);
      }
    }
  }

  lemma RegNamesShown()
    ensures RegName(0) == "X0" && RegName(1) == "X1" && RegName(2) == "X2" && RegName(3) == "X3" && RegName(4) == "X4" && RegName(5) == "X5" && RegName(6) == "X6" && RegName(7) == "X7" && RegName(8) == "X8" && RegName(9) == "X9" && RegName(10) == "X10" && RegName(11) == "X11" && RegName(12) == "X12" && RegName(13) == "X13" && RegName(14) == "X14" && RegName(15) == "X15" && RegName(16) == "X16" && RegName(17) == "X17" && RegName(18) == "X18" && RegName(19) == "X19" && RegName(20) == "X20" && RegName(21) == "X21" && RegName(22) == "X22" && RegName(23) == "X23" && RegName(24) == "X24" && RegName(25) == "X25" && RegName(26) == "X26" && RegName(27) == "X27" && RegName(28) == "X28" && RegName(29) == "X29" && RegName(30) == "X30"
  {
    RegNamesShown0();
    RegNamesShown1();
    RegNamesShown2();
    RegNamesShown3();
  }

  lemma RegNamesShown0()
    ensures RegName(0) == "X0" && RegName(1) == "X1" && RegName(2) == "X2" && RegName(3) == "X3" && RegName(4) == "X4" && RegName(5) == "X5" && RegName(6) == "X6" && RegName(7) == "X7"
  {
  }

  lemma RegNamesShown1()
    ensures RegName(8) == "X8" && RegName(9) == "X9" && RegName(10) == "X10" && RegName(11) == "X11" && RegName(12) == "X12" && RegName(13) == "X13" && RegName(14) == "X14" && RegName(15) == "X15"
  {
  }

  lemma RegNamesShown2()
    ensures RegName(16) == "X16" && RegName(17) == "X17" && RegName(18) == "X18" && RegName(19) == "X19" && RegName(20) == "X20" && RegName(21) == "X21" && RegName(22) == "X22" && RegName(23) == "X23"
  {
  }

  lemma RegNamesShown3()
    ensures RegName(24) == "X24" && RegName(25) == "X25" && RegName(26) == "X26" && RegName(27) == "X27" && RegName(28) == "X28" && RegName(29) == "X29" && RegName(30) == "X30"
  {
  }

  lemma RegistersIndexed()
    ensures forall i :: 0 <= i < 31 ==> RegName(i) in Registers && Registers[RegName(i)] == i
  {
    RegistersIndexed0();
    RegistersIndexed1();
    RegistersIndexed2();
    RegistersIndexed3();
    RegistersIndexed4();
    RegistersIndexed5();
    RegistersIndexed6();
    RegistersIndexed7();
  }

  lemma RegistersIndexed0()
    ensures forall i :: 0 <= i < 4 ==> RegName(i) in Registers && Registers[RegName(i)] == i
  {
    assert RegName(0) == "X0" && RegName(1) == "X1" && RegName(2) == "X2" && RegName(3) == "X3";
    forall i | 0 <= i < 4
      ensures RegName(i) in Registers && Registers[RegName(i)] == i
    {
      assert i in {0, 1, 2, 3};
    }
  }

  lemma RegistersIndexed1()
    ensures forall i :: 4 <= i < 8 ==> RegName(i) in Registers && Registers[RegName(i)] == i
  {
    assert RegName(4) == "X4" && RegName(5) == "X5" && RegName(6) == "X6" && RegName(7) == "X7";
    forall i | 4 <= i < 8
      ensures RegName(i) in Registers && Registers[RegName(i)] == i
    {
      assert i in {4, 5, 6, 7};
    }
  }

  lemma RegistersIndexed2()
    ensures forall i :: 8 <= i < 12 ==> RegName(i) in Registers && Registers[RegName(i)] == i
  {
    assert RegName(8) == "X8" && RegName(9) == "X9" && RegName(10) == "X10" && RegName(11) == "X11";
    forall i | 8 <= i < 12
      ensures RegName(i) in Registers && Registers[RegName(i)] == i
    {
      assert i in {8, 9, 10, 11};
    }
  }

  lemma RegistersIndexed3()
    ensures forall i :: 12 <= i < 16 ==> RegName(i) in Registers && Registers[RegName(i)] == i
  {
    assert RegName(12) == "X12" && RegName(13) == "X13" && RegName(14) == "X14" && RegName(15) == "X15";
    forall i | 12 <= i < 16
      ensures RegName(i) in Registers && Registers[RegName(i)] == i
    {
      assert i in {12, 13, 14, 15};
    }
  }

  lemma RegistersIndexed4()
    ensures forall i :: 16 <= i < 20 ==> RegName(i) in Registers && Registers[RegName(i)] == i
  {
    assert RegName(16) == "X16" && RegName(17) == "X17" && RegName(18) == "X18" && RegName(19) == "X19";
    forall i | 16 <= i < 20
      ensures RegName(i) in Registers && Registers[RegName(i)] == i
    {
      assert i in {16, 17, 18, 19};
    }
  }

  lemma RegistersIndexed5()
    ensures forall i :: 20 <= i < 24 ==> RegName(i) in Registers && Registers[RegName(i)] == i
  {
    assert RegName(20) == "X20" && RegName(21) == "X21" && RegName(22) == "X22" && RegName(23) == "X23";
    forall i | 20 <= i < 24
      ensures RegName(i) in Registers && Registers[RegName(i)] == i
    {
      assert i in {20, 21, 22, 23};
    }
  }

  lemma RegistersIndexed6()
    ensures forall i :: 24 <= i < 28 ==> RegName(i) in Registers && Registers[RegName(i)] == i
  {
    assert RegName(24) == "X24" && RegName(25) == "X25" && RegName(26) == "X26" && RegName(27) == "X27";
    forall i | 24 <= i < 28
      ensures RegName(i) in Registers && Registers[RegName(i)] == i
    {
      assert i in {24, 25, 26, 27};
    }
  }

  lemma RegistersIndexed7()
    ensures forall i :: 28 <= i < 31 ==> RegName(i) in Registers && Registers[RegName(i)] == i
  {
    assert RegName(28) == "X28" && RegName(29) == "X29" && RegName(30) == "X30";
    forall i | 28 <= i < 31
      ensures RegName(i) in Registers && Registers[RegName(i)] == i
    {
      assert i in {28, 29, 30};
    }
  }

  lemma RegistersTable()
    ensures RegTable(Registers)
  {
    RegistersNamed();
  }

  lemma RegistersNamed()
    ensures RegTable(Registers)
    ensures forall s :: s in Registers ==> exists i :: 0 <= i < 31 && s == RegName(i)
  {
    RegNamesShown();
  }

  /** `decode()` of a token. RET encodes to no bytes, every other instruction
      to one 32-bit word; `imm & 0x3` on a text `imm` raises TypeError. */
  function Decode(t: Token): (r: Result<seq<Byte>>)
    ensures r.Ok? ==> t.IsInstruction() && |r.value| == if t.Ret? then 0 else 4
    ensures t.Ret? ==> r == Ok([])
    ensures t.Adr? && t.imm.TextImm? ==> r == Err(TypeError)
    ensures !t.IsInstruction() ==> r == Err(AttributeError)
  {
    RegistersTable();
    match t
    case Mov(_, s1, s2) => MovDecode(Registers, s1, s2)
    case Adr(_, s1, _, imm) =>
      (match imm
       case IntImm(n) => AdrDecode(Registers, s1, n)
       case TextImm(_) => Err(TypeError))
    case Add(_, s1, s2, dst) => AddDecode(Registers, s1, s2, dst)
    case Svc(_, s1) => SvcDecode(s1)
    case Ret(_) => Ok([])
    case _ => Err(AttributeError)
  }
}
