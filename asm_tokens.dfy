/** The tokens of the first assembler (assembler/tokens.py): labels,
    directives and the three instruction classes MOV, ADR and SVC, with the
    register table X0-X16. */
module AsmTokens {
  import opened Outcomes
  import opened PyStr
  import opened Decoders

  /** `ADR.imm` is a dataclass field with default 0 that the assembler
      overwrites before decoding. */
  datatype Token =
    | Label(name: string)
    | Directive(name: string, subject: string)
    | Mov(name: string, s1: string, s2: string)
    | Adr(name: string, s1: string, s2: string, imm: int)
    | Svc(name: string, s1: string)
  {
    predicate IsInstruction() { Mov? || Adr? || Svc? }
  }

  /** The `registers` table. */
  const Registers: map<string, int> := map[
    "X0" := 0,
    "X1" := 1,
    "X2" := 2,
    "X3" := 3,
    "X4" := 4,
    "X5" := 5,
    "X6" := 6,
    "X7" := 7,
    "X8" := 8,
    "X9" := 9,
    "X10" := 10,
    "X11" := 11,
    "X12" := 12,
    "X13" := 13,
    "X14" := 14,
    "X15" := 15,
    "X16" := 16
  ]

  /** The table maps `Xi` to `i` for i in 0..16 and has no other key; in
      particular `X17` and above are unknown. */
  lemma RegistersExact()
    ensures RegTable(Registers)
    ensures forall i :: 0 <= i < 17 ==> RegName(i) in Registers && Registers[RegName(i)] == i
    ensures forall s :: s in Registers ==> exists i :: 0 <= i < 17 && s == RegName(i)
    ensures forall i :: i >= 17 ==> RegName(i) !in Registers
  {
    RegistersIndexed();
    RegistersNamed();
    forall i: nat | i >= 17
      ensures RegName(i) !in Registers
    {
      if RegName(i) in Registers {
        var j: nat :| j < 17 && RegName(i) == RegName(j);
        RegNameInjective(i, j);
      }
    }
  }

  lemma RegNamesShown()
    ensures RegName(0) == "X0" && RegName(1) == "X1" && RegName(2) == "X2" && RegName(3) == "X3" && RegName(4) == "X4" && RegName(5) == "X5" && RegName(6) == "X6" && RegName(7) == "X7" && RegName(8) == "X8" && RegName(9) == "X9" && RegName(10) == "X10" && RegName(11) == "X11" && RegName(12) == "X12" && RegName(13) == "X13" && RegName(14) == "X14" && RegName(15) == "X15" && RegName(16) == "X16"
  {
    RegNamesShown0();
    RegNamesShown1();
    RegNamesShown2();
  }

  lemma RegNamesShown0()
    ensures RegName(0) == "X0" && RegName(1) == "X1" && RegName(2) == "X2" && RegName(3) == "X3" && RegName(4) == "X4" && RegName(5) == "X5" && RegName(6) == "X6" && RegName(7) == "X7"
  {
  }

  lemma RegNamesShown1()
    ensures RegName(8) == "X8" && RegName(9) == "X9" && RegName(10) == "X10" && RegName(11) == "X11" && RegName(12) == "X12" && RegName(13) == "X13" && RegName(14) == "X14" && RegName(15) == "X15"
  {
  }

  lemma RegNamesShown2()
    ensures RegName(16) == "X16"
  {
  }

  lemma RegistersIndexed()
    ensures forall i :: 0 <= i < 17 ==> RegName(i) in Registers && Registers[RegName(i)] == i
  {
    RegistersIndexed0();
    RegistersIndexed1();
    RegistersIndexed2();
    RegistersIndexed3();
    RegistersIndexed4();
  }

  lemma RegistersIndexed0()
    ensures forall i :: 0 <= i < 4 ==> RegName(i) in Registers && Registers[RegName(i)] == i
  {
    assert RegName(0) == "X0" && RegName(1) == "X1" && RegName(2) == "X2" && RegName(3) == "X3";
    forall i | 0 <= i < 4
      ensures RegName(i) in Registers && Registers[RegName(i)] == i
    {
      assert i in {0, 1, 2, 3};
    }
  }

  lemma RegistersIndexed1()
    ensures forall i :: 4 <= i < 8 ==> RegName(i) in Registers && Registers[RegName(i)] == i
  {
    assert RegName(4) == "X4" && RegName(5) == "X5" && RegName(6) == "X6" && RegName(7) == "X7";
    forall i | 4 <= i < 8
      ensures RegName(i) in Registers && Registers[RegName(i)] == i
    {
      assert i in {4, 5, 6, 7};
    }
  }

  lemma RegistersIndexed2()
    ensures forall i :: 8 <= i < 12 ==> RegName(i) in Registers && Registers[RegName(i)] == i
  {
    assert RegName(8) == "X8" && RegName(9) == "X9" && RegName(10) == "X10" && RegName(11) == "X11";
    forall i | 8 <= i < 12
      ensures RegName(i) in Registers && Registers[RegName(i)] == i
    {
      assert i in {8, 9, 10, 11};
    }
  }

  lemma RegistersIndexed3()
    ensures forall i :: 12 <= i < 16 ==> RegName(i) in Registers && Registers[RegName(i)] == i
  {
    assert RegName(12) == "X12" && RegName(13) == "X13" && RegName(14) == "X14" && RegName(15) == "X15";
    forall i | 12 <= i < 16
      ensures RegName(i) in Registers && Registers[RegName(i)] == i
    {
      assert i in {12, 13, 14, 15};
    }
  }

  lemma RegistersIndexed4()
    ensures forall i :: 16 <= i < 17 ==> RegName(i) in Registers && Registers[RegName(i)] == i
  {
    assert RegName(16) == "X16";
    forall i | 16 <= i < 17
      ensures RegName(i) in Registers && Registers[RegName(i)] == i
    {
      assert i in {16};
    }
  }

  lemma RegistersTable()
    ensures RegTable(Registers)
  {
    RegistersNamed();
  }

  lemma RegistersNamed()
    ensures RegTable(Registers)
    ensures forall s :: s in Registers ==> exists i :: 0 <= i < 17 && s == RegName(i)
  {
    RegNamesShown();
  }

  /** `decode()` of a token; labels and directives have no such method. Every
      instruction that decodes gives one 32-bit word. */
  function Decode(t: Token): (r: Result<seq<Byte>>)
    ensures r.Ok? ==> t.IsInstruction() && |r.value| == 4
    ensures !t.IsInstruction() ==> r == Err(AttributeError)
  {
    RegistersTable();
    match t
    case Mov(_, s1, s2) => MovDecode(Registers, s1, s2)
    case Adr(_, s1, _, imm) => AdrDecode(Registers, s1, imm)
    case Svc(_, s1) => SvcDecode(s1)
    case _ => Err(AttributeError)
  }
}
