/** The 32-bit A64 instruction words both token modules build, written as
    the same sequence of `out |= field << shift` steps on Python integers.

    Field positions follow the MOVZ, ADR, ADD (extended register) and SVC
    entries of the alphabetical list of A64 base instructions (chapter C6.2)
    of the Arm Architecture Reference Manual for A-profile:
    - MOVZ: sf(31)=1, opc(30-29)=10, 100101(28-23), hw(22-21), imm16(20-5), Rd(4-0)
    - ADR: op(31)=0, immlo(30-29), 10000(28-24), immhi(23-5), Rd(4-0)
    - ADD (extended register): 10001011001(31-21), Rm(20-16), option:imm3(15-10), Rn(9-5), Rd(4-0)
    - SVC: 11010100000(31-21), imm16(20-5), 00001(4-0) */
module A64 {
  import opened PyInt

  /** `opcodes` table of the encoder modules. */
  const MovzOpcode: int := 0x25       // 0b100101
  const AdrOpcode: int := 0x10        // 0b10000
  const AddOpcode: int := 0x459       // 0b10001011001
  const SvcOpcode: int := 0x6A0       // 0b11010100000

  /** One `out |= value << shift` step of an encoder. */
  datatype Field = Field(value: int, shift: nat)

  /** `out = 0` followed by the steps of `fields`, in order. */
  function OrChain(fields: seq<Field>): int {
    if |fields| == 0 then 0
    else
      var f := fields[|fields| - 1];
      Or(OrChain(fields[..|fields| - 1]), Shl(f.value, f.shift))
  }

  /** MOV.decode before packing: the immediate `n` is shifted in unmasked.
      The steps are sf (64-bit variant), opc (MOVZ), the opcode, imm16, Rd. */
  function MovzWord(n: int, rd: int): int {
    OrChain([Field(1, 31), Field(2, 29), Field(MovzOpcode, 23), Field(n, 5), Field(rd, 0)])
  }

  /** ADR.decode before packing: immlo, the opcode, immhi, Rd. */
  function AdrWord(imm: int, rd: int): int {
    OrChain([Field(And(imm, 0x3), 29), Field(AdrOpcode, 24), Field(And(Shr(imm, 2), 0x7FFFF), 5), Field(rd, 0)])
  }

  /** ADD.decode before packing: `rm` is the second source, `rn` the first. */
  function AddWord(rm: int, rn: int, rd: int): int {
    OrChain([Field(AddOpcode, 21), Field(rm, 16), Field(rn, 5), Field(rd, 0)])
  }

  /** SVC.decode before packing: only the low 15 bits of the immediate are kept. */
  function SvcWord(imm: int): int {
    OrChain([Field(SvcOpcode, 21), Field(And(imm, 0x7FFF), 5), Field(1, 0)])
  }

  /** The chain one step at a time. */
  lemma OrChainStep(fields: seq<Field>, f: Field)
    ensures OrChain(fields + [f]) == Or(OrChain(fields), Shl(f.value, f.shift))
  {
    assert (fields + [f])[..|fields|] == fields;
  }

  lemma Shl0(x: int)
    ensures Shl(x, 0) == x
  {
  }

  /** The encoders as the nested `|=` expressions they stand for. */
  lemma MovzSteps(n: int, rd: int)
    ensures MovzWord(n, rd) == Or(Or(Or(Or(Or(0, Shl(1, 31)), Shl(2, 29)), Shl(MovzOpcode, 23)), Shl(n, 5)), rd)
  {
    var a, b, c, d, e := Field(1, 31), Field(2, 29), Field(MovzOpcode, 23), Field(n, 5), Field(rd, 0);
    OrChainStep([], a);
    OrChainStep([a], b);
    OrChainStep([a, b], c);
    OrChainStep([a, b, c], d);
    OrChainStep([a, b, c, d], e);
    assert [] + [a] == [a] && [a] + [b] == [a, b] && [a, b] + [c] == [a, b, c];
    assert [a, b, c] + [d] == [a, b, c, d] && [a, b, c, d] + [e] == [a, b, c, d, e];
    Shl0(rd);
  }

  lemma AdrSteps(imm: int, rd: int)
    ensures AdrWord(imm, rd) == Or(Or(Or(Or(0, Shl(And(imm, 0x3), 29)), Shl(AdrOpcode, 24)), Shl(And(Shr(imm, 2), 0x7FFFF), 5)), rd)
  {
    var f := [Field(And(imm, 0x3), 29), Field(AdrOpcode, 24), Field(And(Shr(imm, 2), 0x7FFFF), 5), Field(rd, 0)];
    OrChainStep([], f[0]);
    OrChainStep(f[..1], f[1]);
    OrChainStep(f[..2], f[2]);
    OrChainStep(f[..3], f[3]);
    assert [] + [f[0]] == f[..1] && f[..1] + [f[1]] == f[..2] && f[..2] + [f[2]] == f[..3];
    assert f[..3] + [f[3]] == f;
    Shl0(rd);
  }

  lemma AddSteps(rm: int, rn: int, rd: int)
    ensures AddWord(rm, rn, rd) == Or(Or(Or(Or(0, Shl(AddOpcode, 21)), Shl(rm, 16)), Shl(rn, 5)), rd)
  {
    var f := [Field(AddOpcode, 21), Field(rm, 16), Field(rn, 5), Field(rd, 0)];
    OrChainStep([], f[0]);
    OrChainStep(f[..1], f[1]);
    OrChainStep(f[..2], f[2]);
    OrChainStep(f[..3], f[3]);
    assert [] + [f[0]] == f[..1] && f[..1] + [f[1]] == f[..2] && f[..2] + [f[2]] == f[..3];
    assert f[..3] + [f[3]] == f;
    Shl0(rd);
  }

  lemma SvcSteps(imm: int)
    ensures SvcWord(imm) == Or(Or(Or(0, Shl(SvcOpcode, 21)), Shl(And(imm, 0x7FFF), 5)), 1)
  {
    var f := [Field(SvcOpcode, 21), Field(And(imm, 0x7FFF), 5), Field(1, 0)];
    OrChainStep([], f[0]);
    OrChainStep(f[..1], f[1]);
    OrChainStep(f[..2], f[2]);
    assert [] + [f[0]] == f[..1] && f[..1] + [f[1]] == f[..2] && f[..2] + [f[2]] == f;
    Shl0(1);
  }

  /** Register fields are the 5-bit indices of X0-X30. */
  predicate IsRegField(r: int) { 0 <= r < 32 }

  const MovzBase: int := 0xD2800000

  /** The three constant steps of MOV.decode produce 0xD2800000, and the rest
      is an OR of the shifted immediate followed by an addition of Rd. */
  lemma MovzShape(n: int, rd: int)
    requires IsRegField(rd)
    ensures MovzWord(n, rd) == Or(MovzBase / 32, n) * 32 + rd
  {
    MovzSteps(n, rd);
    Pow2Table();
    OrLowBits(1, Shl(2, 29), 31);
    OrLowBits(6, Shl(MovzOpcode, 23), 29);
    assert Or(Or(Shl(1, 31), Shl(2, 29)), Shl(MovzOpcode, 23)) == MovzBase;
    OrShifted(MovzBase / 32, n, 5);
    OrLowBits(Or(MovzBase / 32, n), rd, 5);
  }

  /** `struct.pack('<I', …)` accepts the MOV word exactly when the immediate is
      in 0 .. 2^27 - 1; a negative immediate makes the word negative and a
      larger one pushes it past 32 bits. */
  lemma MovzFits(n: int, rd: int)
    requires IsRegField(rd)
    ensures 0 <= MovzWord(n, rd) < 0x1_0000_0000 <==> 0 <= n < 0x800_0000
  {
    Pow2Table();
    MovzShape(n, rd);
    var x := Or(MovzBase / 32, n);
    OrSign(MovzBase / 32, n);
    if n >= 0 {
      OrBounds(MovzBase / 32, n, 27);
    }
  }

  /** For an immediate below 2^18 the fields do not overlap: the word is the
      sum of the constant part, the shifted immediate and Rd. Below 2^16 the
      imm16 field holds the immediate and hw stays 0; from 2^16 on the
      immediate's bits 16 and 17 land in hw, because nothing masks it. */
  lemma MovzFields(n: int, rd: int)
    requires IsRegField(rd) && 0 <= n < 0x40000
    ensures MovzWord(n, rd) == MovzBase + n * 32 + rd
    ensures MovzWord(n, rd) % 32 == rd
    ensures (MovzWord(n, rd) / 32) % 0x10000 == n % 0x10000
    ensures (MovzWord(n, rd) / 0x200000) % 4 == n / 0x10000
    ensures MovzWord(n, rd) / 0x800000 == 0x1A5
  {
    Pow2Table();
    MovzShape(n, rd);
    OrLowBits(0x1A5, n, 18);
    MovzSplit(MovzWord(n, rd), n, rd);
  }

  lemma MovzSplit(w: int, n: int, rd: int)
    requires IsRegField(rd) && 0 <= n < 0x40000
    requires w == (0x1A5 * 0x40000 + n) * 32 + rd
    ensures w == MovzBase + n * 32 + rd
    ensures w % 32 == rd
    ensures (w / 32) % 0x10000 == n % 0x10000
    ensures (w / 0x200000) % 4 == n / 0x10000
    ensures w / 0x800000 == 0x1A5
  {
    var x := 0x1A5 * 0x40000 + n;
    ModUnique(w, 32, x, rd);
    ModUnique(x, 0x10000, 0x1A5 * 4 + n / 0x10000, n % 0x10000);
    DivDiv(w, 32, 0x10000);
    ModUnique(0x1A5 * 4 + n / 0x10000, 4, 0x1A5, n / 0x10000);
    DivDiv(w, 32, 0x40000);
    ModUnique(x, 0x40000, 0x1A5, n);
  }

  /** `x & 3` and `(x >> 2) & 0x7FFFF` are residues, also for negative `x`. */
  lemma AdrPieces(imm: int)
    ensures And(imm, 0x3) == imm % 4
    ensures And(Shr(imm, 2), 0x7FFFF) == (imm / 4) % 0x80000
  {
    Pow2Table();
    AndLowMask(imm, 2);
    AndLowMask(imm / 4, 19);
  }

  /** ADR's four fields are bit-disjoint, so the word is their sum and lies
      below 2^31 (bit 31, `op`, is clear). */
  lemma AdrShape(imm: int, rd: int)
    requires IsRegField(rd)
    ensures AdrWord(imm, rd) == ((imm % 4 * 32 + 16) * 0x80000 + (imm / 4) % 0x80000) * 32 + rd
    ensures 0 <= AdrWord(imm, rd) < 0x80000000
  {
    AdrSteps(imm, rd);
    AdrPieces(imm);
    AdrFieldsAdd(imm % 4, (imm / 4) % 0x80000, rd);
  }

  /** Each `|=` of the ADR chain lands on clear bits. */
  lemma AdrFieldsAdd(lo: int, hi: int, rd: int)
    requires 0 <= lo < 4 && 0 <= hi < 0x80000 && IsRegField(rd)
    ensures Or(Or(Or(Or(0, Shl(lo, 29)), Shl(AdrOpcode, 24)), Shl(hi, 5)), rd) == ((lo * 32 + 16) * 0x80000 + hi) * 32 + rd
  {
    AdrHighFields(lo);
    AdrLowFields(lo * 32 + 16, hi, rd);
  }

  /** immlo and the opcode: bits 30-29 and 28-24. */
  lemma AdrHighFields(lo: int)
    requires 0 <= lo < 4
    ensures Or(Or(0, Shl(lo, 29)), Shl(AdrOpcode, 24)) == (lo * 32 + 16) * 0x1000000
  {
    Pow2Table();
    OrLowBits(lo, Shl(AdrOpcode, 24), 29);
  }

  /** immhi and Rd: bits 23-5 and 4-0 below the high part `y`. */
  lemma AdrLowFields(y: int, hi: int, rd: int)
    requires 0 <= hi < 0x80000 && IsRegField(rd)
    ensures Or(Or(y * 0x1000000, Shl(hi, 5)), rd) == (y * 0x80000 + hi) * 32 + rd
  {
    Pow2Table();
    OrLowBits(y, Shl(hi, 5), 24);
    OrLowBits(y * 0x80000 + hi, rd, 5);
  }

  /** Reading bits 23-5 (immhi) and 30-29 (immlo) of an ADR word as one 21-bit
      two's-complement number. */
  function AdrImmediate(w: int): int {
    var v := ((w / 32) % 0x80000) * 4 + (w / 0x20000000) % 4;
    if v >= 0x100000 then v - 0x200000 else v
  }

  /** Field extraction of ADR: Rd comes back from bits 4-0, the opcode from
      bits 28-24, bit 31 is clear, and the displacement comes back from
      immhi:immlo whenever it fits in 21 signed bits. */
  lemma AdrRoundTrip(imm: int, rd: int)
    requires IsRegField(rd)
    ensures AdrWord(imm, rd) % 32 == rd
    ensures (AdrWord(imm, rd) / 0x1000000) % 32 == AdrOpcode
    ensures AdrWord(imm, rd) / 0x80000000 == 0
    ensures -0x100000 <= imm < 0x100000 ==> AdrImmediate(AdrWord(imm, rd)) == imm
  {
    AdrShape(imm, rd);
    AdrSplit(AdrWord(imm, rd), imm, rd);
  }

  lemma AdrSplit(w: int, imm: int, rd: int)
    requires IsRegField(rd)
    requires w == ((imm % 4 * 32 + 16) * 0x80000 + (imm / 4) % 0x80000) * 32 + rd
    ensures w % 32 == rd
    ensures (w / 0x1000000) % 32 == AdrOpcode
    ensures w / 0x80000000 == 0
    ensures -0x100000 <= imm < 0x100000 ==> AdrImmediate(w) == imm
  {
    var lo, hi := imm % 4, (imm / 4) % 0x80000;
    var x := (lo * 32 + 16) * 0x80000 + hi;
    ModUnique(w, 32, x, rd);
    ModUnique(x, 0x80000, lo * 32 + 16, hi);
    DivDiv(w, 32, 0x80000);
    ModUnique(lo * 32 + 16, 32, lo, 16);
    DivDiv(w, 0x1000000, 32);
    ModUnique(w, 0x80000000, 0, w);
    ModUnique(imm / 4, 0x80000, (imm / 4) / 0x80000, hi);
    ModUnique(imm, 4, imm / 4, lo);
    ModUnique(imm, 0x200000, (imm / 4) / 0x80000, hi * 4 + lo);
    assert hi * 4 + lo == imm % 0x200000;
    if -0x100000 <= imm < 0x100000 {
      if imm >= 0 {
        ModUnique(imm, 0x200000, 0, imm);
      } else {
        ModUnique(imm, 0x200000, -1, imm + 0x200000);
      }
    }
  }

  /** ADD's fields are disjoint; bits 15-10 (option and imm3) stay zero. */
  lemma AddFields(rm: int, rn: int, rd: int)
    requires IsRegField(rm) && IsRegField(rn) && IsRegField(rd)
    ensures AddWord(rm, rn, rd) == 0x8B200000 + rm * 0x10000 + rn * 32 + rd
    ensures 0 <= AddWord(rm, rn, rd) < 0x1_0000_0000
    ensures AddWord(rm, rn, rd) % 32 == rd
    ensures (AddWord(rm, rn, rd) / 32) % 32 == rn
    ensures (AddWord(rm, rn, rd) / 0x400) % 0x40 == 0
    ensures (AddWord(rm, rn, rd) / 0x10000) % 32 == rm
    ensures AddWord(rm, rn, rd) / 0x200000 == AddOpcode
  {
    AddSteps(rm, rn, rd);
    Pow2Table();
    OrLowBits(AddOpcode, Shl(rm, 16), 21);
    OrLowBits(AddOpcode * 32 + rm, Shl(rn, 5), 16);
    OrLowBits((AddOpcode * 32 + rm) * 0x800 + rn, rd, 5);
    AddSplit(AddWord(rm, rn, rd), rm, rn, rd);
  }

  lemma AddSplit(w: int, rm: int, rn: int, rd: int)
    requires IsRegField(rm) && IsRegField(rn) && IsRegField(rd)
    requires w == ((AddOpcode * 32 + rm) * 0x800 + rn) * 32 + rd
    ensures w == 0x8B200000 + rm * 0x10000 + rn * 32 + rd
    ensures w % 32 == rd
    ensures (w / 32) % 32 == rn
    ensures (w / 0x400) % 0x40 == 0
    ensures (w / 0x10000) % 32 == rm
    ensures w / 0x200000 == AddOpcode
  {
    var x := (AddOpcode * 32 + rm) * 0x800 + rn;
    ModUnique(w, 32, x, rd);
    ModUnique(x, 32, (AddOpcode * 32 + rm) * 0x40, rn);
    DivDiv(w, 32, 32);
    ModUnique((AddOpcode * 32 + rm) * 0x40, 0x40, AddOpcode * 32 + rm, 0);
    DivDiv(w, 0x400, 0x40);
    ModUnique(AddOpcode * 32 + rm, 32, AddOpcode, rm);
    DivDiv(w, 0x10000, 32);
  }

  /** SVC keeps only 15 bits of its immediate, so the word always fits 32 bits
      and imm16's top bit (bit 20) is always clear. */
  lemma SvcFields(imm: int)
    ensures SvcWord(imm) == 0xD4000001 + (imm % 0x8000) * 32
    ensures 0 <= SvcWord(imm) < 0x1_0000_0000
    ensures SvcWord(imm) % 32 == 1
    ensures (SvcWord(imm) / 32) % 0x10000 == imm % 0x8000
    ensures SvcWord(imm) / 0x200000 == SvcOpcode
  {
    var m := imm % 0x8000;
    var x := SvcOpcode * 0x10000 + m;
    var hi := SvcOpcode * 0x200000;
    assert And(imm, 0x7FFF) == m by { AndLowMask(imm, 15); Pow2Table(); }
    assert Or(0, Shl(SvcOpcode, 21)) == hi by { Pow2Table(); }
    assert Or(hi, Shl(m, 5)) == x * 32 by {
      Pow2Table();
      OrLowBits(SvcOpcode, Shl(m, 5), 21);
    }
    assert Or(x * 32, 1) == x * 32 + 1 by {
      Pow2Table();
      OrLowBits(x, 1, 5);
    }
    SvcSteps(imm);
    SvcSplit(SvcWord(imm), m);
  }

  lemma SvcSplit(w: int, m: int)
    requires 0 <= m < 0x8000
    requires w == (SvcOpcode * 0x10000 + m) * 32 + 1
    ensures w == 0xD4000001 + m * 32
    ensures w % 32 == 1
    ensures (w / 32) % 0x10000 == m
    ensures w / 0x200000 == SvcOpcode
  {
    var x := SvcOpcode * 0x10000 + m;
    ModUnique(w, 32, x, 1);
    ModUnique(x, 0x10000, SvcOpcode, m);
    DivDiv(w, 32, 0x10000);
  }
}
