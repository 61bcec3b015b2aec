/** The `decode` methods shared, line for line, by the two token modules:
    each builds its A64 word and packs it with `struct.pack('<I', out)`.
    They differ only in the register table, which is a parameter here. */
module Decoders {
  import opened Outcomes
  import opened PyInt
  import opened PyStr
  import opened StructPack
  import opened A64

  /** Every value of a register table is a 5-bit register number. */
  predicate RegTable(regs: map<string, int>) {
    forall k | k in regs :: IsRegField(regs[k])
  }

  /** `registers[s]`, KeyError when `s` is not a key. */
  function Reg(regs: map<string, int>, s: string): (r: Result<int>)
    ensures r.Ok? <==> s in regs
    ensures r.Ok? ==> r.value == regs[s]
    ensures r.Err? ==> r.error == KeyError
  {
    if s in regs then Ok(regs[s]) else Err(KeyError)
  }

  /** MOV.decode: `int(s2[1:])` is evaluated first (ValueError), then the
      register lookup (KeyError), then the packing (struct.error unless the
      unmasked immediate is below 2^27). */
  function MovDecode(regs: map<string, int>, s1: string, s2: string): (r: Result<seq<Byte>>)
    requires RegTable(regs)
    ensures var n := ParseInt(DropFirst(s2));
      r.Ok? <==> n.Ok? && s1 in regs && 0 <= n.value < 0x800_0000
    ensures var n := ParseInt(DropFirst(s2));
      r.Err? ==> r.error == if n.Err? then ValueError else if s1 !in regs then KeyError else StructError
    ensures r.Ok? ==> |r.value| == 4
  {
    var n :- ParseInt(DropFirst(s2));
    var rd :- Reg(regs, s1);
    MovzFits(n, rd);
    Pow2Word();
    PackUnsigned(MovzWord(n, rd), 4)
  }

  /** The packed MOV word is the MOVZ encoding of the immediate; for an
      immediate below 2^18 that is a plain sum of its fields. */
  lemma MovDecodeWord(regs: map<string, int>, s1: string, s2: string)
    requires RegTable(regs) && MovDecode(regs, s1, s2).Ok?
    ensures var n := ParseInt(DropFirst(s2)).value;
      FromLE(MovDecode(regs, s1, s2).value) == MovzWord(n, regs[s1])
    ensures var n := ParseInt(DropFirst(s2)).value;
      n < 0x40000 ==> FromLE(MovDecode(regs, s1, s2).value) == MovzBase + n * 32 + regs[s1]
  {
    var n := ParseInt(DropFirst(s2)).value;
    PackUnsignedRoundTrip(MovzWord(n, regs[s1]), 4);
    MovzSmall(n, regs[s1]);
  }

  /** ADR.decode: only the register lookup can fail; the displacement is
      masked, so any `imm` packs. */
  function AdrDecode(regs: map<string, int>, s1: string, imm: int): (r: Result<seq<Byte>>)
    requires RegTable(regs)
    ensures r.Ok? <==> s1 in regs
    ensures r.Err? ==> r.error == KeyError
    ensures r.Ok? ==> |r.value| == 4
  {
    var rd :- Reg(regs, s1);
    AdrFits(imm, rd);
    Pow2Word();
    PackUnsigned(AdrWord(imm, rd), 4)
  }

  /** The packed ADR word carries the register and the ADR opcode, and the
      displacement reads back from it whenever it fits in 21 signed bits. */
  lemma AdrDecodeWord(regs: map<string, int>, s1: string, imm: int)
    requires RegTable(regs) && AdrDecode(regs, s1, imm).Ok?
    ensures var w := FromLE(AdrDecode(regs, s1, imm).value);
      w % 32 == regs[s1] && (w / 0x1000000) % 32 == AdrOpcode && w / 0x80000000 == 0
    ensures -0x100000 <= imm < 0x100000 ==> AdrImmediate(FromLE(AdrDecode(regs, s1, imm).value)) == imm
  {
    PackUnsignedRoundTrip(AdrWord(imm, regs[s1]), 4);
    AdrRoundTrip(imm, regs[s1]);
  }

  /** ADD.decode: `s2` goes to Rm (bits 20-16), `s1` to Rn (bits 9-5) and
      `dst` to Rd (bits 4-0). */
  function AddDecode(regs: map<string, int>, s1: string, s2: string, dst: string): (r: Result<seq<Byte>>)
    requires RegTable(regs)
    ensures r.Ok? <==> s1 in regs && s2 in regs && dst in regs
    ensures r.Err? ==> r.error == KeyError
    ensures r.Ok? ==> |r.value| == 4
  {
    var rm :- Reg(regs, s2);
    var rn :- Reg(regs, s1);
    var rd :- Reg(regs, dst);
    AddFits(rm, rn, rd);
    Pow2Word();
    PackUnsigned(AddWord(rm, rn, rd), 4)
  }

  /** The packed ADD word holds the three register fields and nothing else
      besides the opcode. */
  lemma AddDecodeWord(regs: map<string, int>, s1: string, s2: string, dst: string)
    requires RegTable(regs) && AddDecode(regs, s1, s2, dst).Ok?
    ensures FromLE(AddDecode(regs, s1, s2, dst).value) == 0x8B200000 + regs[s2] * 0x10000 + regs[s1] * 32 + regs[dst]
    ensures var w := FromLE(AddDecode(regs, s1, s2, dst).value);
      w % 32 == regs[dst] && (w / 32) % 32 == regs[s1] && (w / 0x10000) % 32 == regs[s2] && (w / 0x400) % 0x40 == 0
  {
    PackUnsignedRoundTrip(AddWord(regs[s2], regs[s1], regs[dst]), 4);
    AddFields(regs[s2], regs[s1], regs[dst]);
  }

  /** SVC.decode: `int(s1[1:], 16)` may raise ValueError; the immediate is
      masked to 15 bits, so the packing never fails. */
  function SvcDecode(s1: string): (r: Result<seq<Byte>>)
    ensures r.Ok? <==> ParseHex(DropFirst(s1)).Ok?
    ensures r.Err? ==> r.error == ValueError
    ensures r.Ok? ==> |r.value| == 4
  {
    var imm :- ParseHex(DropFirst(s1));
    SvcFits(imm);
    Pow2Word();
    PackUnsigned(SvcWord(imm), 4)
  }

  /** The packed SVC word keeps the low 15 bits of the immediate. */
  lemma SvcDecodeWord(s1: string)
    requires SvcDecode(s1).Ok?
    ensures FromLE(SvcDecode(s1).value) == 0xD4000001 + (ParseHex(DropFirst(s1)).value % 0x8000) * 32
  {
    PackUnsignedRoundTrip(SvcWord(ParseHex(DropFirst(s1)).value), 4);
    SvcFields(ParseHex(DropFirst(s1)).value);
  }

  lemma AdrFits(imm: int, rd: int)
    requires IsRegField(rd)
    ensures 0 <= AdrWord(imm, rd) < 0x1_0000_0000
  {
    AdrShape(imm, rd);
  }

  lemma AddFits(rm: int, rn: int, rd: int)
    requires IsRegField(rm) && IsRegField(rn) && IsRegField(rd)
    ensures 0 <= AddWord(rm, rn, rd) < 0x1_0000_0000
  {
    AddFields(rm, rn, rd);
  }

  lemma SvcFits(imm: int)
    ensures 0 <= SvcWord(imm) < 0x1_0000_0000
  {
    SvcFields(imm);
  }

  lemma MovzSmall(n: int, rd: int)
    requires IsRegField(rd)
    ensures 0 <= n < 0x40000 ==> MovzWord(n, rd) == MovzBase + n * 32 + rd
  {
    if 0 <= n < 0x40000 {
      MovzFields(n, rd);
    }
  }

  /** The first character of MOV's second operand is dropped unread, so a
      register-looking operand `X5` encodes the immediate 5, exactly like `#5`. */
  lemma MovIgnoresPrefix(regs: map<string, int>, s1: string, c: char, d: char, digits: string)
    requires RegTable(regs)
    ensures MovDecode(regs, s1, [c] + digits) == MovDecode(regs, s1, [d] + digits)
  {
    assert DropFirst([c] + digits) == digits == DropFirst([d] + digits);
  }

  /** Byte `k` of a packed instruction word is `(word >> 8k) & 0xFF`. */
  lemma PackedWordBytes(w: int, k: nat)
    requires 0 <= w < 0x1_0000_0000 && k < 4
    ensures PackUnsigned(w, 4).Ok?
    ensures PackUnsigned(w, 4).value[k] == (w / Pow2(8 * k)) % 256
  {
    Pow2Table();
    assert Pow2(8 * 4) == 0x1_0000_0000;
    LEByte(w, 4, k);
  }
}
