/** Mach-O object records and their serialisation (assembler/macho.py):
    fixed-width records as laid out by `<mach-o/loader.h>`, `<mach-o/nlist.h>`
    and `<mach-o/reloc.h>`, packed field by field in declaration order, and
    the step-by-step assembly of a relocatable object in `write_macho`. */
module MachO {
  import opened Outcomes
  import opened PyInt
  import opened PyStr
  import opened StructPack

  const LcSegment64: int := 0x19
  const LcBuildVersion: int := 0x32
  const MhMagic64: int := 0xfeedfacf
  const CpuTypeArm64: int := 0x0100000c
  const CpuSubtypeArm64All: int := 0
  const MhObject: int := 0x1
  const LcSymtab: int := 0x2
  const LcDysymtab: int := 0xB
  const NSect: int := 0x0e
  const NExt: int := 0x01

  /** One annotated field: an unsigned integer of `width` bytes (`DTYPE`
      codes B, H, I and Q are widths 1, 2, 4 and 8) or a `16s` text field. */
  datatype Field = UInt(width: nat, v: int) | Char16(text: string)

  /** A run of same-width integer fields. */
  function Ints(width: nat, vs: seq<int>): (r: seq<Field>)
    ensures |r| == |vs|
    ensures forall i :: 0 <= i < |vs| ==> r[i] == UInt(width, vs[i])
  {
    seq(|vs|, i requires 0 <= i < |vs| => UInt(width, vs[i]))
  }

  /** The record dataclasses; every field defaults to 0 or to the empty text. */
  datatype Obj =
    | Header(magic: int := 0, cputype: int := 0, cpusubtype: int := 0, filetype: int := 0,
             ncmds: int := 0, sizeofcmds: int := 0, flags: int := 0, reserved: int := 0)
    | Segment(cmd: int := 0, cmdsize: int := 0, segname: string := "", vmaddr: int := 0,
              vmsize: int := 0, fileoff: int := 0, filesize: int := 0, maxprot: int := 0,
              initprot: int := 0, nsects: int := 0, flags: int := 0)
    | Section(sectname: string := "", segname: string := "", addr: int := 0, size: int := 0,
              offset: int := 0, align: int := 0, reloff: int := 0, nreloc: int := 0,
              flags: int := 0, reserved1: int := 0, reserved2: int := 0, reserved3: int := 0)
    | SymtabCmd(cmd: int := 0, cmdsize: int := 0, symoff: int := 0, nsyms: int := 0,
                stroff: int := 0, strsize: int := 0)
    | BuildCmd(cmd: int := 0, cmdsize: int := 0, platform: int := 0, minos: int := 0,
               sdk: int := 0, ntools: int := 0)
    | DysymtabCmd(cmd: int := 0, cmdsize: int := 0, ilocalsym: int := 0, nlocalsym: int := 0,
                  iextdefsym: int := 0, nextdefsym: int := 0, iundefsym: int := 0,
                  nundefsym: int := 0, tocoff: int := 0, ntoc: int := 0, modtaboff: int := 0,
                  nmodtab: int := 0, extrefsymoff: int := 0, nextrefsyms: int := 0,
                  indirectsymoff: int := 0, nindirectsyms: int := 0, extreloff: int := 0,
                  nextrel: int := 0, locreloff: int := 0, nlocrel: int := 0)
    | Nlist64(n_strx: int := 0, n_type: int := 0, n_sect: int := 0, n_desc: int := 0, n_value: int := 0)
    | RelocInfo(r_address: int := 0, r_info: int := 0)

  /** The annotated fields of a record, in declaration order. */
  function Fields(o: Obj): seq<Field> {
    match o
    case Header(a, b, c, d, e, f, g, h) =>
      Ints(4, [a, b, c, d, e, f, g, h])
    case Segment(cmd, cmdsize, segname, vmaddr, vmsize, fileoff, filesize, maxprot, initprot, nsects, flags) =>
      Ints(4, [cmd, cmdsize]) + [Char16(segname)] + Ints(8, [vmaddr, vmsize, fileoff, filesize])
      + Ints(4, [maxprot, initprot, nsects, flags])
    case Section(sectname, segname, addr, size, offset, align, reloff, nreloc, flags, r1, r2, r3) =>
      [Char16(sectname), Char16(segname)] + Ints(8, [addr, size])
      + Ints(4, [offset, align, reloff, nreloc, flags, r1, r2, r3])
    case SymtabCmd(a, b, c, d, e, f) =>
      Ints(4, [a, b, c, d, e, f])
    case BuildCmd(a, b, c, d, e, f) =>
      Ints(4, [a, b, c, d, e, f])
    case DysymtabCmd(a0, a1, a2, a3, a4, a5, a6, a7, a8, a9, b0, b1, b2, b3, b4, b5, b6, b7, b8, b9) =>
      Ints(4, [a0, a1, a2, a3, a4, a5, a6, a7, a8, a9, b0, b1, b2, b3, b4, b5, b6, b7, b8, b9])
    case Nlist64(strx, typ, sect, desc, value) =>
      Ints(4, [strx]) + Ints(1, [typ, sect]) + Ints(2, [desc]) + Ints(8, [value])
    case RelocInfo(address, info) =>
      Ints(4, [address, info])
  }

  /** `struct.calcsize` of one format code. */
  function Width(f: Field): nat {
    match f
    case UInt(w, _) => w
    case Char16(_) => 16
  }

  function Widths(fs: seq<Field>): nat {
    if |fs| == 0 then 0 else Widths(fs[..|fs| - 1]) + Width(fs[|fs| - 1])
  }

  lemma {:induction false} WidthsAppend(a: seq<Field>, b: seq<Field>)
    ensures Widths(a + b) == Widths(a) + Widths(b)
    decreases |b|
  {
    if |b| == 0 {
      assert a + b == a;
    } else {
      assert (a + b)[..|a + b| - 1] == a + b[..|b| - 1];
      WidthsAppend(a, b[..|b| - 1]);
    }
  }

  lemma {:induction false} WidthsInts(w: nat, vs: seq<int>)
    ensures Widths(Ints(w, vs)) == w * |vs|
  {
    if |vs| > 0 {
      assert Ints(w, vs)[..|vs| - 1] == Ints(w, vs[..|vs| - 1]);
      WidthsInts(w, vs[..|vs| - 1]);
    }
  }

  lemma {:induction false} WidthsChar16(t: string, u: string)
    ensures Widths([Char16(t)]) == 16 && Widths([Char16(t), Char16(u)]) == 32
  {
    assert [Char16(t), Char16(u)] == [Char16(t)] + [Char16(u)];
    WidthsAppend([Char16(t)], [Char16(u)]);
    assert [Char16(t)][..0] == [];
  }

  /** The record sizes in bytes, by record kind. */
  function BSize(o: Obj): nat {
    match o
    case Header(_, _, _, _, _, _, _, _) => 32
    case Segment(_, _, _, _, _, _, _, _, _, _, _) => 72
    case Section(_, _, _, _, _, _, _, _, _, _, _, _) => 80
    case SymtabCmd(_, _, _, _, _, _) => 24
    case BuildCmd(_, _, _, _, _, _) => 24
    case DysymtabCmd(_, _, _, _, _, _, _, _, _, _, _, _, _, _, _, _, _, _, _, _) => 80
    case Nlist64(_, _, _, _, _) => 16
    case RelocInfo(_, _) => 8
  }

  /** `bsize()` is `struct.calcsize` of the record's format string: the sum
      of its field widths, with no padding since every field is naturally
      aligned. */
  lemma {:induction false} BSizeCalcsize(o: Obj)
    ensures BSize(o) == Widths(Fields(o))
  {
    match o
    case Header(a, b, c, d, e, f, g, h) =>
      WidthsInts(4, [a, b, c, d, e, f, g, h]);
    case Segment(cmd, cmdsize, segname, vmaddr, vmsize, fileoff, filesize, maxprot, initprot, nsects, flags) =>
      var p, q, r, t := Ints(4, [cmd, cmdsize]), [Char16(segname)], Ints(8, [vmaddr, vmsize, fileoff, filesize]),
        Ints(4, [maxprot, initprot, nsects, flags]);
      WidthsInts(4, [cmd, cmdsize]);
      WidthsChar16(segname, segname);
      WidthsInts(8, [vmaddr, vmsize, fileoff, filesize]);
      WidthsInts(4, [maxprot, initprot, nsects, flags]);
      WidthsAppend(p, q);
      WidthsAppend(p + q, r);
      WidthsAppend(p + q + r, t);
    case Section(sectname, segname, addr, size, offset, align, reloff, nreloc, flags, r1, r2, r3) =>
      var p, q, r := [Char16(sectname), Char16(segname)], Ints(8, [addr, size]),
        Ints(4, [offset, align, reloff, nreloc, flags, r1, r2, r3]);
      WidthsChar16(sectname, segname);
      WidthsInts(8, [addr, size]);
      WidthsInts(4, [offset, align, reloff, nreloc, flags, r1, r2, r3]);
      WidthsAppend(p, q);
      WidthsAppend(p + q, r);
    case SymtabCmd(a, b, c, d, e, f) =>
      WidthsInts(4, [a, b, c, d, e, f]);
    case BuildCmd(a, b, c, d, e, f) =>
      WidthsInts(4, [a, b, c, d, e, f]);
    case DysymtabCmd(a0, a1, a2, a3, a4, a5, a6, a7, a8, a9, b0, b1, b2, b3, b4, b5, b6, b7, b8, b9) =>
      WidthsInts(4, [a0, a1, a2, a3, a4, a5, a6, a7, a8, a9, b0, b1, b2, b3, b4, b5, b6, b7, b8, b9]);
    case Nlist64(strx, typ, sect, desc, value) =>
      var p, q, r, t := Ints(4, [strx]), Ints(1, [typ, sect]), Ints(2, [desc]), Ints(8, [value]);
      WidthsInts(4, [strx]);
      WidthsInts(1, [typ, sect]);
      WidthsInts(2, [desc]);
      WidthsInts(8, [value]);
      WidthsAppend(p, q);
      WidthsAppend(p + q, r);
      WidthsAppend(p + q + r, t);
    case RelocInfo(address, info) =>
      WidthsInts(4, [address, info]);
  }

  /** A field value that `struct.pack` accepts. */
  predicate Fits(f: Field) {
    match f
    case UInt(w, v) => 0 <= v < Pow2(8 * w)
    case Char16(_) => true
  }

  /** Every field of a list fits. */
  predicate AllFit(fs: seq<Field>) {
    forall f | f in fs :: Fits(f)
  }

  /** A run of integer fields fits when each value is in range. */
  lemma {:induction false} IntsFit(w: nat, vs: seq<int>)
    ensures AllFit(Ints(w, vs)) <==> forall x | x in vs :: 0 <= x < Pow2(8 * w)
  {
    var r := Ints(w, vs);
    if forall x | x in vs :: 0 <= x < Pow2(8 * w) {
      forall f | f in r ensures Fits(f) {
        var i :| 0 <= i < |r| && r[i] == f;
        assert vs[i] in vs;
      }
    }
    if AllFit(r) {
      forall x | x in vs ensures 0 <= x < Pow2(8 * w) {
        var i :| 0 <= i < |vs| && vs[i] == x;
        assert r[i] in r;
      }
    }
  }

  /** One field packed: little-endian integers, UTF-8 text cut or padded to 16. */
  function PackField(f: Field): (r: Result<seq<Byte>>)
    ensures r.Ok? <==> Fits(f)
    ensures r.Ok? ==> |r.value| == Width(f)
    ensures r.Err? ==> r.error == StructError
  {
    match f
    case UInt(w, v) => PackUnsigned(v, w)
    case Char16(t) => Ok(PackChar16(Utf8(t)))
  }

  /** `struct.pack(fmt, *vals)` over a list of fields. */
  function PackAll(fs: seq<Field>): Result<seq<Byte>> {
    if |fs| == 0 then Ok([])
    else
      var front :- PackAll(fs[..|fs| - 1]);
      var last :- PackField(fs[|fs| - 1]);
      Ok(front + last)
  }

  /** Packing fails exactly when some field is out of range (struct.error);
      otherwise it gives `calcsize` bytes. */
  lemma {:induction false} PackAllOk(fs: seq<Field>)
    ensures PackAll(fs).Ok? <==> AllFit(fs)
    ensures PackAll(fs).Ok? ==> |PackAll(fs).value| == Widths(fs)
    ensures PackAll(fs).Err? ==> PackAll(fs).error == StructError
  {
    if |fs| > 0 {
      var front := fs[..|fs| - 1];
      PackAllOk(front);
      assert fs == front + [fs[|fs| - 1]];
      assert forall f | f in fs :: f in front || f == fs[|fs| - 1];
    }
  }

  /** The packing is the fields' packings in declaration order: field `k`
      occupies the bytes from the widths of the fields before it. */
  lemma {:induction false} PackAllField(fs: seq<Field>, k: nat)
    requires k < |fs| && PackAll(fs).Ok?
    ensures PackField(fs[k]).Ok?
    ensures Widths(fs[..k + 1]) == Widths(fs[..k]) + Width(fs[k]) <= |PackAll(fs).value|
    ensures PackAll(fs).value[Widths(fs[..k])..Widths(fs[..k + 1])] == PackField(fs[k]).value
  {
    var front := fs[..|fs| - 1];
    PackAllLast(fs);
    WidthsStep(fs, k);
    var a, b := PackAll(front).value, PackField(fs[|fs| - 1]).value;
    if k == |fs| - 1 {
      assert fs[..k] == front && fs[..k + 1] == fs;
      assert (a + b)[|a|..|a| + |b|] == b;
    } else {
      assert front[..k] == fs[..k] && front[..k + 1] == fs[..k + 1];
      PackAllField(front, k);
      var i, j := Widths(fs[..k]), Widths(fs[..k + 1]);
      assert (a + b)[i..j] == a[i..j];
    }
  }

  /** The widths of a prefix grow by one field at a time. */
  lemma WidthsStep(fs: seq<Field>, k: nat)
    requires k < |fs|
    ensures Widths(fs[..k + 1]) == Widths(fs[..k]) + Width(fs[k])
  {
    assert fs[..k + 1][..k] == fs[..k];
  }

  /** A successful packing is the front's packing followed by the last field's. */
  lemma PackAllLast(fs: seq<Field>)
    requires |fs| > 0 && PackAll(fs).Ok?
    ensures var front := fs[..|fs| - 1];
      PackAll(front).Ok? && PackField(fs[|fs| - 1]).Ok?
      && PackAll(fs).value == PackAll(front).value + PackField(fs[|fs| - 1]).value
      && |PackAll(front).value| == Widths(front)
      && Widths(fs) == Widths(front) + Width(fs[|fs| - 1])
  {
    PackAllOk(fs[..|fs| - 1]);
  }

  /** `Obj.pack`: walks the annotations in order, packing each field. */
  method Pack(o: Obj) returns (r: Result<seq<Byte>>)
    ensures r == PackObj(o)
  {
    var fs := Fields(o);
    var out: seq<Byte> := [];
    var i := 0;
    while i < |fs|
      invariant 0 <= i <= |fs|
      invariant PackAll(fs[..i]) == Ok(out)
    {
      assert fs[..i + 1][..i] == fs[..i];
      var b := PackField(fs[i]);
      if b.Err? {
        PackAllOk(fs);
        assert fs[i] in fs;
        return Err(StructError);
      }
      out := out + b.value;
      i := i + 1;
    }
    assert fs[..i] == fs;
    PackAllOk(fs);
    BSizeCalcsize(o);
    r := Ok(out);
  }

  // ----------------------------------------------------------- relocations

  /** `build_reloc_info`: `r_info` packs symbolnum (24 bits), pcrel (1),
      length (2), extern (1) and type (4). */
  function BuildRelocInfo(address: int, symbolnum: int, pcrel: int, length: int, ext: int, rtype: int): Obj {
    var info := Or(Or(Or(Or(And(symbolnum, 0xFFFFFF), Shl(pcrel, 24)), Shl(length, 25)), Shl(ext, 27)), Shl(rtype, 28));
    RelocInfo(address, info)
  }

  /** For in-range flags the five fields are disjoint: `r_info` is their sum,
      fits in 32 bits, and each field reads back by shift and mask. */
  lemma {:induction false} RelocInfoFields(address: int, symbolnum: int, pcrel: int, length: int, ext: int, rtype: int)
    requires 0 <= pcrel < 2 && 0 <= length < 4 && 0 <= ext < 2 && 0 <= rtype < 16
    ensures var info := BuildRelocInfo(address, symbolnum, pcrel, length, ext, rtype).r_info;
      info == symbolnum % 0x100_0000 + pcrel * 0x100_0000 + length * 0x200_0000 + ext * 0x800_0000 + rtype * 0x1000_0000
    ensures var info := BuildRelocInfo(address, symbolnum, pcrel, length, ext, rtype).r_info;
      0 <= info < 0x1_0000_0000 && info % 0x100_0000 == symbolnum % 0x100_0000
    ensures var info := BuildRelocInfo(address, symbolnum, pcrel, length, ext, rtype).r_info;
      (info / 0x100_0000) % 2 == pcrel && (info / 0x200_0000) % 4 == length
    ensures var info := BuildRelocInfo(address, symbolnum, pcrel, length, ext, rtype).r_info;
      (info / 0x800_0000) % 2 == ext && info / 0x1000_0000 == rtype
  {
    RelocInfoSum(symbolnum, pcrel, length, ext, rtype);
    RelocSplit(symbolnum % 0x100_0000, pcrel, length, ext, rtype);
  }

  lemma {:induction false} RelocInfoSum(symbolnum: int, pcrel: int, length: int, ext: int, rtype: int)
    requires 0 <= pcrel < 2 && 0 <= length < 4 && 0 <= ext < 2 && 0 <= rtype < 16
    ensures Or(Or(Or(Or(And(symbolnum, 0xFFFFFF), Shl(pcrel, 24)), Shl(length, 25)), Shl(ext, 27)), Shl(rtype, 28))
      == symbolnum % 0x100_0000 + pcrel * 0x100_0000 + length * 0x200_0000 + ext * 0x800_0000 + rtype * 0x1000_0000
  {
    var s := symbolnum % 0x100_0000;
    Pow2Table();
    assert And(symbolnum, 0xFFFFFF) == s by { AndLowMask(symbolnum, 24); }
    OrAbove(s, pcrel, 24);
    var x1 := s + pcrel * 0x100_0000;
    OrAbove(x1, length, 25);
    var x2 := x1 + length * 0x200_0000;
    OrAbove(x2, ext, 27);
    var x3 := x2 + ext * 0x800_0000;
    OrAbove(x3, rtype, 28);
  }

  lemma {:induction false} OrAbove(acc: int, x: int, k: nat)
    requires 0 <= acc < Pow2(k)
    ensures Or(acc, Shl(x, k)) == acc + x * Pow2(k)
  {
    OrLowBits(x, acc, k);
  }

  lemma {:induction false} RelocSplit(s: int, pcrel: int, length: int, ext: int, rtype: int)
    requires 0 <= s < 0x100_0000
    requires 0 <= pcrel < 2 && 0 <= length < 4 && 0 <= ext < 2 && 0 <= rtype < 16
    ensures var info := s + pcrel * 0x100_0000 + length * 0x200_0000 + ext * 0x800_0000 + rtype * 0x1000_0000;
      info % 0x100_0000 == s && (info / 0x100_0000) % 2 == pcrel && (info / 0x200_0000) % 4 == length
      && (info / 0x800_0000) % 2 == ext && info / 0x1000_0000 == rtype && info < 0x1_0000_0000
  {
    var info := s + pcrel * 0x100_0000 + length * 0x200_0000 + ext * 0x800_0000 + rtype * 0x1000_0000;
    var hi := pcrel + length * 2 + ext * 8 + rtype * 16;
    ModUnique(info, 0x100_0000, hi, s);
    ModUnique(hi, 2, length + ext * 4 + rtype * 8, pcrel);
    DivDiv(info, 0x100_0000, 2);
    ModUnique(length + ext * 4 + rtype * 8, 4, ext + rtype * 2, length);
    DivDiv(info, 0x200_0000, 4);
    ModUnique(ext + rtype * 2, 2, rtype, ext);
    DivDiv(info, 0x800_0000, 2);
  }

  // ------------------------------------------------------------ write_macho

  const HeaderSize: nat := 32
  /** segment 72 + section 80 + build 24 + symtab 24 + dysymtab 80 */
  const SizeOfCmds: nat := 280

  /** `o.pack()`: struct.error when a field is out of range, otherwise
      `bsize()` bytes. */
  function PackObj(o: Obj): (r: Result<seq<Byte>>)
    ensures r.Ok? <==> AllFit(Fields(o))
    ensures r.Ok? ==> |r.value| == BSize(o)
    ensures r.Err? ==> r.error == StructError
  {
    BSizeCalcsize(o);
    PackAllOk(Fields(o));
    PackAll(Fields(o))
  }

  /** The annotated fields of each record of a list. */
  function Annotated(os: seq<Obj>): (r: seq<seq<Field>>)
    ensures |r| == |os|
  {
    if |os| == 0 then [] else Annotated(os[..|os| - 1]) + [Fields(os[|os| - 1])]
  }

  lemma {:induction false} AnnotatedAt(os: seq<Obj>, k: nat)
    requires k < |os|
    ensures Annotated(os)[k] == Fields(os[k])
  {
    if k < |os| - 1 {
      AnnotatedAt(os[..|os| - 1], k);
    }
  }

  /** `for x in os: d += x.pack()`, each record given by its fields. */
  function PackList(fss: seq<seq<Field>>): Result<seq<Byte>> {
    if |fss| == 0 then Ok([])
    else
      var front :- PackList(fss[..|fss| - 1]);
      var last :- PackAll(fss[|fss| - 1]);
      Ok(front + last)
  }

  /** Total width of a list of field lists. */
  function WidthsSum(fss: seq<seq<Field>>): nat {
    if |fss| == 0 then 0 else WidthsSum(fss[..|fss| - 1]) + Widths(fss[|fss| - 1])
  }

  /** Packing a list fails exactly when one of its records does, with
      struct.error, and otherwise gives the sum of the records' widths. */
  lemma {:induction false} PackListOk(fss: seq<seq<Field>>)
    ensures PackList(fss).Ok? <==> forall i :: 0 <= i < |fss| ==> PackAll(fss[i]).Ok?
    ensures PackList(fss).Ok? ==> |PackList(fss).value| == WidthsSum(fss)
    ensures PackList(fss).Err? ==> PackList(fss).error == StructError
  {
    if |fss| > 0 {
      var front := fss[..|fss| - 1];
      PackListOk(front);
      PackAllOk(fss[|fss| - 1]);
      assert forall i :: 0 <= i < |front| ==> front[i] == fss[i];
    }
  }

  /** The widths of the records' fields add up to the sum of their `bsize()`. */
  lemma {:induction false} AnnotatedSizes(os: seq<Obj>)
    ensures WidthsSum(Annotated(os)) == SizeSum(os)
  {
    if |os| > 0 {
      var a, front := Annotated(os), os[..|os| - 1];
      AnnotatedSizes(front);
      assert a[..|os| - 1] == Annotated(front);
      assert a[|os| - 1] == Fields(os[|os| - 1]);
      BSizeCalcsize(os[|os| - 1]);
    }
  }

  /** The records of a list all pack exactly when each has every field in
      range, and then the list takes the sum of their sizes. */
  lemma {:induction false} PackedRecords(os: seq<Obj>)
    ensures PackList(Annotated(os)).Ok? <==> forall i :: 0 <= i < |os| ==> AllFit(Fields(os[i]))
    ensures PackList(Annotated(os)).Ok? ==> |PackList(Annotated(os)).value| == SizeSum(os)
    ensures PackList(Annotated(os)).Err? ==> PackList(Annotated(os)).error == StructError
  {
    PackListOk(Annotated(os));
    AnnotatedSizes(os);
    forall i | 0 <= i < |os| ensures PackAll(Annotated(os)[i]).Ok? <==> AllFit(Fields(os[i])) {
      AnnotatedAt(os, i);
      PackAllOk(Fields(os[i]));
    }
  }

  lemma {:induction false} PackedSize(os: seq<Obj>)
    requires PackList(Annotated(os)).Ok?
    ensures |PackList(Annotated(os)).value| == SizeSum(os)
  {
    PackListOk(Annotated(os));
    AnnotatedSizes(os);
  }

  /** A record that does not pack makes the whole list fail. */
  lemma {:induction false} PackListStops(os: seq<Obj>, k: nat)
    requires k < |os| && PackObj(os[k]).Err?
    ensures PackList(Annotated(os)) == Err(StructError)
  {
    AnnotatedAt(os, k);
    PackListOk(Annotated(os));
  }

  lemma {:induction false} PackListStep(os: seq<Obj>, k: nat)
    requires k < |os| && PackList(Annotated(os[..k])).Ok? && PackObj(os[k]).Ok?
    ensures PackList(Annotated(os[..k + 1])) == Ok(PackList(Annotated(os[..k])).value + PackObj(os[k]).value)
  {
    var a := Annotated(os[..k + 1]);
    assert os[..k + 1][..k] == os[..k];
    assert a[..k] == Annotated(os[..k]);
    assert a[k] == Fields(os[k]);
  }

  /** `sum(x.bsize() for x in os)`. */
  function SizeSum(os: seq<Obj>): nat {
    if |os| == 0 then 0 else SizeSum(os[..|os| - 1]) + BSize(os[|os| - 1])
  }

  lemma {:induction false} SizeSumStep(os: seq<Obj>, k: nat)
    requires k < |os|
    ensures SizeSum(os[..k + 1]) == SizeSum(os[..k]) + BSize(os[k])
  {
    assert os[..k + 1][..k] == os[..k];
  }

  lemma {:induction false} SizeSumUniform(os: seq<Obj>, w: nat)
    requires forall i :: 0 <= i < |os| ==> BSize(os[i]) == w
    ensures SizeSum(os) == w * |os|
  {
    if |os| > 0 {
      var front := os[..|os| - 1];
      assert forall i :: 0 <= i < |front| ==> front[i] == os[i];
      SizeSumUniform(front, w);
    }
  }

  /** The records as `write_macho` has completed them when it packs them. */
  function LayoutHeader(): Obj {
    Header(magic := MhMagic64, cputype := CpuTypeArm64, cpusubtype := CpuSubtypeArm64All,
           filetype := MhObject, ncmds := 4, sizeofcmds := SizeOfCmds, flags := 0)
  }

  function LayoutSegment(codeSize: nat): Obj {
    Segment(cmd := LcSegment64, cmdsize := 152, segname := "", vmaddr := 0,
            vmsize := codeSize, fileoff := SizeOfCmds + HeaderSize, filesize := codeSize,
            maxprot := 7, initprot := 7, nsects := 1)
  }

  function LayoutSection(codeSize: nat, nreloc: nat): Obj {
    Section(sectname := "__text", segname := "__TEXT", addr := 0, size := codeSize,
            offset := SizeOfCmds + HeaderSize, align := 2,
            reloff := SizeOfCmds + HeaderSize + codeSize, nreloc := nreloc, flags := 0x80000400)
  }

  function LayoutBuild(): Obj {
    BuildCmd(cmd := LcBuildVersion, cmdsize := 24, platform := 0x1, minos := 0xe0000, sdk := 0, ntools := 0)
  }

  /** `symoff` adds the section's size to `sizeofcmds`, where the file has
      the header and the code. */
  function LayoutSymtab(relocBytes: nat, nsyms: nat, symBytes: nat, strsize: nat): Obj {
    SymtabCmd(cmd := LcSymtab, cmdsize := 24, symoff := SizeOfCmds + 80 + relocBytes,
              nsyms := nsyms, stroff := SizeOfCmds + 80 + relocBytes + symBytes, strsize := strsize)
  }

  function LayoutDysymtab(): Obj {
    DysymtabCmd(cmd := LcDysymtab, cmdsize := 80, ilocalsym := 0, nlocalsym := 2,
                iextdefsym := 2, nextdefsym := 1, iundefsym := 3)
  }

  /** The header and the five load commands in file order, as `write_macho`
      has completed them. */
  function CommandRecords(code: seq<Byte>, strTable: seq<Byte>, symbols: seq<Obj>, reloc: seq<Obj>): seq<Obj> {
    [LayoutHeader(), LayoutSegment(|code|), LayoutSection(|code|, |reloc|), LayoutBuild(),
     LayoutSymtab(SizeSum(reloc), |symbols|, SizeSum(symbols), |strTable|), LayoutDysymtab()]
  }

  lemma {:induction false} CommandsLength(code: seq<Byte>, strTable: seq<Byte>, symbols: seq<Obj>, reloc: seq<Obj>)
    requires PackList(Annotated(CommandRecords(code, strTable, symbols, reloc))).Ok?
    ensures |PackList(Annotated(CommandRecords(code, strTable, symbols, reloc))).value| == HeaderSize + SizeOfCmds
  {
    var recs := CommandRecords(code, strTable, symbols, reloc);
    PackedSize(recs);
    CommandsSize(code, strTable, symbols, reloc);
  }

  /** The header and the five commands take 32 + 280 bytes. */
  lemma {:induction false} CommandsSize(code: seq<Byte>, strTable: seq<Byte>, symbols: seq<Obj>, reloc: seq<Obj>)
    ensures SizeSum(CommandRecords(code, strTable, symbols, reloc)) == HeaderSize + SizeOfCmds
  {
    var recs := CommandRecords(code, strTable, symbols, reloc);
    assert recs[..0] == [] && recs[..6] == recs;
    SizeSumStep(recs, 0);
    SizeSumStep(recs, 1);
    SizeSumStep(recs, 2);
    SizeSumStep(recs, 3);
    SizeSumStep(recs, 4);
    SizeSumStep(recs, 5);
  }

  /** The bytes `write_macho` writes: header and load commands, code,
      relocations, symbols, string table. */
  function MachOImage(code: seq<Byte>, strTable: seq<Byte>, symbols: seq<Obj>, reloc: seq<Obj>): Result<seq<Byte>> {
    var cmds :- PackList(Annotated(CommandRecords(code, strTable, symbols, reloc)));
    var relocs :- PackList(Annotated(reloc));
    var syms :- PackList(Annotated(symbols));
    Ok(cmds + code + relocs + syms + strTable)
  }

  /** Each `cmdsize` is its own record's size (the segment's also counts its
      section), `sizeofcmds` sums the five commands, the code starts right
      after them, and the section points at the code and just past it. */
  lemma {:induction false} LayoutSizes(codeSize: nat, nreloc: nat, relocBytes: nat, nsyms: nat, symBytes: nat, strsize: nat)
    ensures var seg, sec, st := LayoutSegment(codeSize), LayoutSection(codeSize, nreloc),
      LayoutSymtab(relocBytes, nsyms, symBytes, strsize);
      LayoutHeader().ncmds == 4
      && LayoutHeader().sizeofcmds == BSize(seg) + BSize(sec) + BSize(LayoutBuild()) + BSize(st) + BSize(LayoutDysymtab())
    ensures var seg, sec, st := LayoutSegment(codeSize), LayoutSection(codeSize, nreloc),
      LayoutSymtab(relocBytes, nsyms, symBytes, strsize);
      seg.cmdsize == BSize(seg) + BSize(sec) && LayoutBuild().cmdsize == BSize(LayoutBuild())
      && st.cmdsize == BSize(st) && LayoutDysymtab().cmdsize == BSize(LayoutDysymtab())
    ensures var seg, sec := LayoutSegment(codeSize), LayoutSection(codeSize, nreloc);
      seg.fileoff == LayoutHeader().sizeofcmds + BSize(LayoutHeader()) && sec.offset == seg.fileoff
      && sec.reloff == seg.fileoff + codeSize && sec.nreloc == nreloc
    ensures var seg, sec := LayoutSegment(codeSize), LayoutSection(codeSize, nreloc);
      seg.filesize == seg.vmsize == sec.size == codeSize
    ensures var st := LayoutSymtab(relocBytes, nsyms, symBytes, strsize);
      st.symoff == LayoutHeader().sizeofcmds + BSize(LayoutSection(codeSize, nreloc)) + relocBytes
      && st.stroff == st.symoff + symBytes && st.nsyms == nsyms && st.strsize == strsize
  {
  }

  /** The file is its parts laid end to end. Its length is header +
      commands + code + 8 per relocation + 16 per symbol + string table. */
  lemma {:induction false} ImageLayout(code: seq<Byte>, strTable: seq<Byte>, symbols: seq<Obj>, reloc: seq<Obj>)
    requires forall i :: 0 <= i < |symbols| ==> symbols[i].Nlist64?
    requires forall i :: 0 <= i < |reloc| ==> reloc[i].RelocInfo?
    requires MachOImage(code, strTable, symbols, reloc).Ok?
    ensures var d := MachOImage(code, strTable, symbols, reloc).value;
      |d| == HeaderSize + SizeOfCmds + |code| + 8 * |reloc| + 16 * |symbols| + |strTable|
    ensures var d := MachOImage(code, strTable, symbols, reloc).value;
      d[HeaderSize + SizeOfCmds..HeaderSize + SizeOfCmds + |code|] == code
    ensures var d := MachOImage(code, strTable, symbols, reloc).value;
      var s := HeaderSize + SizeOfCmds + |code| + 8 * |reloc|;
      d[s..s + 16 * |symbols|] == PackList(Annotated(symbols)).value
    ensures var d := MachOImage(code, strTable, symbols, reloc).value;
      d[|d| - |strTable|..] == strTable
  {
    var cm, rl, sy := PackList(Annotated(CommandRecords(code, strTable, symbols, reloc))), PackList(Annotated(reloc)), PackList(Annotated(symbols));
    CommandsLength(code, strTable, symbols, reloc);
    PackedSize(reloc);
    PackedSize(symbols);
    TableSizes(symbols, reloc);
    var d := MachOImage(code, strTable, symbols, reloc).value;
    assert d == cm.value + code + rl.value + sy.value + strTable;
    FiveParts(cm.value, code, rl.value, sy.value, strTable);
  }

  /** Where each of five concatenated parts lies. */
  lemma FiveParts(a: seq<Byte>, b: seq<Byte>, c: seq<Byte>, e: seq<Byte>, f: seq<Byte>)
    ensures var x := a + b + c + e + f; |x| == |a| + |b| + |c| + |e| + |f|
    ensures var x := a + b + c + e + f; x[|a|..|a| + |b|] == b
    ensures var x := a + b + c + e + f; x[|a| + |b| + |c|..|a| + |b| + |c| + |e|] == e
    ensures var x := a + b + c + e + f; x[|x| - |f|..] == f
  {
    var x := a + b + c + e + f;
    assert x == a + (b + (c + (e + f)));
    assert x[|a|..|a| + |b|] == (b + (c + (e + f)))[..|b|];
    assert x[|a| + |b| + |c|..|a| + |b| + |c| + |e|] == (e + f)[..|e|];
  }

  /** Relocations take 8 bytes each and symbols 16. */
  lemma {:induction false} TableSizes(symbols: seq<Obj>, reloc: seq<Obj>)
    requires forall i :: 0 <= i < |symbols| ==> symbols[i].Nlist64?
    requires forall i :: 0 <= i < |reloc| ==> reloc[i].RelocInfo?
    ensures SizeSum(reloc) == 8 * |reloc| && SizeSum(symbols) == 16 * |symbols|
  {
    SizeSumUniform(reloc, 8);
    SizeSumUniform(symbols, 16);
  }

  /** The symbol table offset recorded in the symtab command is where the
      symbols really are only when the code is 48 bytes long; the
      relocation offset recorded in the section is always exact. */
  lemma {:induction false} SymoffMatchesFile(code: seq<Byte>, strTable: seq<Byte>, symbols: seq<Obj>, reloc: seq<Obj>)
    requires forall i :: 0 <= i < |symbols| ==> symbols[i].Nlist64?
    requires forall i :: 0 <= i < |reloc| ==> reloc[i].RelocInfo?
    ensures var st := LayoutSymtab(SizeSum(reloc), |symbols|, SizeSum(symbols), |strTable|);
      st.symoff == HeaderSize + SizeOfCmds + |code| + 8 * |reloc| <==> |code| == 48
    ensures var st := LayoutSymtab(SizeSum(reloc), |symbols|, SizeSum(symbols), |strTable|);
      st.stroff == HeaderSize + SizeOfCmds + |code| + 8 * |reloc| + 16 * |symbols| <==> |code| == 48
    ensures LayoutSection(|code|, |reloc|).reloff == HeaderSize + SizeOfCmds + |code|
  {
    TableSizes(symbols, reloc);
  }

  // ------------------------------------------------------- when packing fails

  lemma {:induction false} AllFitAppend(a: seq<Field>, b: seq<Field>)
    ensures AllFit(a + b) <==> AllFit(a) && AllFit(b)
  {
    assert forall f | f in a + b :: f in a || f in b;
  }

  lemma {:induction false} HeaderFits()
    ensures AllFit(Fields(LayoutHeader()))
  {
    IntsFit(4, [MhMagic64, CpuTypeArm64, CpuSubtypeArm64All, MhObject, 4, SizeOfCmds, 0, 0]);
    Pow2Table();
  }

  /** The segment's 8-byte fields hold the code size. */
  lemma {:induction false} SegmentFits(codeSize: nat)
    ensures AllFit(Fields(LayoutSegment(codeSize))) <==> codeSize < 0x1_0000_0000_0000_0000
  {
    var p, q, r, t := Ints(4, [LcSegment64, 152]), [Char16("")], Ints(8, [0, codeSize, SizeOfCmds + HeaderSize, codeSize]),
      Ints(4, [7, 7, 1, 0]);
    assert Fields(LayoutSegment(codeSize)) == p + q + r + t;
    Pow2Word();
    Pow2Wide();
    IntsFit(4, [LcSegment64, 152]);
    IntsFit(4, [7, 7, 1, 0]);
    assert AllFit(p) && AllFit(q) && AllFit(t);
    IntsFit(8, [0, codeSize, SizeOfCmds + HeaderSize, codeSize]);
    assert codeSize in [0, codeSize, SizeOfCmds + HeaderSize, codeSize];
    assert AllFit(r) <==> codeSize < 0x1_0000_0000_0000_0000;
    AllFitAppend(p, q);
    AllFitAppend(p + q, r);
    AllFitAppend(p + q + r, t);
  }

  /** The section's `reloff` is a 4-byte field: the code must end below 4 GiB. */
  lemma {:induction false} SectionFits(codeSize: nat, nreloc: nat)
    ensures AllFit(Fields(LayoutSection(codeSize, nreloc))) <==>
      SizeOfCmds + HeaderSize + codeSize < 0x1_0000_0000 && nreloc < 0x1_0000_0000
  {
    var vs := [SizeOfCmds + HeaderSize, 2, SizeOfCmds + HeaderSize + codeSize, nreloc, 0x80000400, 0, 0, 0];
    var p, q, r := [Char16("__text"), Char16("__TEXT")], Ints(8, [0, codeSize]), Ints(4, vs);
    assert Fields(LayoutSection(codeSize, nreloc)) == p + q + r;
    assert AllFit(p);
    WideFit(0, codeSize);
    WordsFit(vs);
    assert (forall i :: 0 <= i < |vs| ==> 0 <= vs[i] < 0x1_0000_0000) <==> vs[2] < 0x1_0000_0000 && vs[3] < 0x1_0000_0000 by {
      if vs[2] < 0x1_0000_0000 && vs[3] < 0x1_0000_0000 {
        forall i | 0 <= i < |vs| ensures 0 <= vs[i] < 0x1_0000_0000 {
          assert i in {0, 1, 2, 3, 4, 5, 6, 7};
        }
      }
    }
    assert AllFit(r) <==> SizeOfCmds + HeaderSize + codeSize < 0x1_0000_0000 && nreloc < 0x1_0000_0000;
    AllFitAppend(p, q);
    AllFitAppend(p + q, r);
  }

  /** A list of 4-byte fields fits when every value is below `2^32`. */
  lemma WordsFit(vs: seq<int>)
    ensures AllFit(Ints(4, vs)) <==> forall i :: 0 <= i < |vs| ==> 0 <= vs[i] < 0x1_0000_0000
  {
    Pow2Word();
    IntsFit(4, vs);
    assert forall i :: 0 <= i < |vs| ==> vs[i] in vs;
  }

  /** Two 8-byte fields fit when both values are below `2^64`. */
  lemma WideFit(x: int, y: int)
    ensures AllFit(Ints(8, [x, y])) <==> 0 <= x < 0x1_0000_0000_0000_0000 && 0 <= y < 0x1_0000_0000_0000_0000
  {
    Pow2Wide();
    IntsFit(8, [x, y]);
    assert x in [x, y] && y in [x, y];
  }

  lemma {:induction false} BuildFits()
    ensures AllFit(Fields(LayoutBuild()))
  {
    IntsFit(4, [LcBuildVersion, 24, 0x1, 0xe0000, 0, 0]);
    Pow2Table();
  }

  /** `stroff`, the largest offset the symtab command records, must fit in 4 bytes. */
  lemma {:induction false} SymtabFits(relocBytes: nat, nsyms: nat, symBytes: nat, strsize: nat)
    ensures AllFit(Fields(LayoutSymtab(relocBytes, nsyms, symBytes, strsize))) <==>
      SizeOfCmds + 80 + relocBytes + symBytes < 0x1_0000_0000 && nsyms < 0x1_0000_0000 && strsize < 0x1_0000_0000
  {
    var vs := [LcSymtab, 24, SizeOfCmds + 80 + relocBytes, nsyms, SizeOfCmds + 80 + relocBytes + symBytes, strsize];
    assert Fields(LayoutSymtab(relocBytes, nsyms, symBytes, strsize)) == Ints(4, vs);
    WordsFit(vs);
    if vs[3] < 0x1_0000_0000 && vs[4] < 0x1_0000_0000 && vs[5] < 0x1_0000_0000 {
      forall i | 0 <= i < |vs| ensures 0 <= vs[i] < 0x1_0000_0000 {
        assert i in {0, 1, 2, 3, 4, 5};
      }
    }
  }

  lemma {:induction false} DysymtabFits()
    ensures AllFit(Fields(LayoutDysymtab()))
  {
    IntsFit(4, [LcDysymtab, 80, 0, 2, 2, 1, 3, 0, 0, 0, 0, 0, 0, 0, 0, 0, 0, 0, 0, 0]);
    Pow2Table();
  }

  /** Packing the header and load commands raises struct.error exactly when
      the code, the counts or the table offsets overflow their fields. */
  lemma {:induction false} CommandsPack(code: seq<Byte>, strTable: seq<Byte>, symbols: seq<Obj>, reloc: seq<Obj>)
    ensures PackList(Annotated(CommandRecords(code, strTable, symbols, reloc))).Ok? <==>
      SizeOfCmds + HeaderSize + |code| < 0x1_0000_0000 && |reloc| < 0x1_0000_0000
      && SizeOfCmds + 80 + SizeSum(reloc) + SizeSum(symbols) < 0x1_0000_0000
      && |symbols| < 0x1_0000_0000 && |strTable| < 0x1_0000_0000
  {
    var recs := CommandRecords(code, strTable, symbols, reloc);
    AnnotatedAt(recs, 0);
    AnnotatedAt(recs, 1);
    AnnotatedAt(recs, 2);
    AnnotatedAt(recs, 3);
    AnnotatedAt(recs, 4);
    AnnotatedAt(recs, 5);
    var a, b, c, d, e, f := Fields(recs[0]), Fields(recs[1]), Fields(recs[2]), Fields(recs[3]), Fields(recs[4]), Fields(recs[5]);
    assert Annotated(recs) == [a, b, c, d, e, f];
    SixFieldLists(a, b, c, d, e, f);
    HeaderFits();
    SegmentFits(|code|);
    SectionFits(|code|, |reloc|);
    BuildFits();
    SymtabFits(SizeSum(reloc), |symbols|, SizeSum(symbols), |strTable|);
    DysymtabFits();
  }

  lemma {:induction false} SixFieldLists(a: seq<Field>, b: seq<Field>, c: seq<Field>, d: seq<Field>, e: seq<Field>, f: seq<Field>)
    ensures PackList([a, b, c, d, e, f]).Ok? <==>
      AllFit(a) && AllFit(b) && AllFit(c) && AllFit(d) && AllFit(e) && AllFit(f)
  {
    var fss := [a, b, c, d, e, f];
    PackListOk(fss);
    PackAllOk(a);
    PackAllOk(b);
    PackAllOk(c);
    PackAllOk(d);
    PackAllOk(e);
    PackAllOk(f);
    assert fss[0] == a && fss[1] == b && fss[2] == c && fss[3] == d && fss[4] == e && fss[5] == f;
  }

  /** A symbol packs when its string index and value fit and its type,
      section and description fit their 1- and 2-byte fields. */
  lemma {:induction false} NlistFits(strx: int, typ: int, sect: int, desc: int, value: int)
    ensures AllFit(Fields(Nlist64(strx, typ, sect, desc, value))) <==>
      0 <= strx < 0x1_0000_0000 && 0 <= typ < 256 && 0 <= sect < 256 && 0 <= desc < 0x10000 && 0 <= value < 0x1_0000_0000_0000_0000
  {
    var p, q, r, t := Ints(4, [strx]), Ints(1, [typ, sect]), Ints(2, [desc]), Ints(8, [value]);
    assert Fields(Nlist64(strx, typ, sect, desc, value)) == p + q + r + t;
    IntFits(4, strx, 0x1_0000_0000);
    IntFits(2, desc, 0x10000);
    IntFits(8, value, 0x1_0000_0000_0000_0000);
    IntsFit(1, [typ, sect]);
    assert typ in [typ, sect] && sect in [typ, sect];
    assert AllFit(q) <==> 0 <= typ < 256 && 0 <= sect < 256 by { Pow2Table(); }
    AllFitAppend(p, q);
    AllFitAppend(p + q, r);
    AllFitAppend(p + q + r, t);
  }

  /** A one-integer field list fits when its value is below `bound`, the
      field's `2^(8 * w)`. */
  lemma IntFits(w: nat, v: int, bound: int)
    requires (w == 2 && bound == 0x10000) || (w == 4 && bound == 0x1_0000_0000) || (w == 8 && bound == 0x1_0000_0000_0000_0000)
    ensures AllFit(Ints(w, [v])) <==> 0 <= v < bound
  {
    if w == 2 { Pow2Table(); } else if w == 4 { Pow2Word(); } else { Pow2Wide(); }
    IntsFit(w, [v]);
    assert v in [v];
  }

  /** `write_macho` raises struct.error exactly when a command, a relocation
      or a symbol does not pack. */
  lemma {:induction false} ImageOk(code: seq<Byte>, strTable: seq<Byte>, symbols: seq<Obj>, reloc: seq<Obj>)
    ensures MachOImage(code, strTable, symbols, reloc).Ok? <==>
      PackList(Annotated(CommandRecords(code, strTable, symbols, reloc))).Ok?
      && (forall i :: 0 <= i < |reloc| ==> AllFit(Fields(reloc[i])))
      && (forall i :: 0 <= i < |symbols| ==> AllFit(Fields(symbols[i])))
    ensures MachOImage(code, strTable, symbols, reloc).Err? ==>
      MachOImage(code, strTable, symbols, reloc).error == StructError
  {
    PackedRecords(CommandRecords(code, strTable, symbols, reloc));
    PackedRecords(reloc);
    PackedRecords(symbols);
  }

  /** The first half of `write_macho`'s body: the header and load-command
      records are completed field by field in program order, then packed in
      file order. The source interleaves the two; packing reads the records
      and changes none of them, so the bytes and the exception raised are
      the same. */
  method WriteCommands(code: seq<Byte>, strTable: seq<Byte>, symbols: seq<Obj>, reloc: seq<Obj>)
    returns (r: Result<seq<Byte>>)
    ensures r == PackList(Annotated(CommandRecords(code, strTable, symbols, reloc)))
  {
    var h := Header(magic := MhMagic64, cputype := CpuTypeArm64, cpusubtype := CpuSubtypeArm64All,
                    filetype := MhObject, ncmds := 0, sizeofcmds := 0, flags := 0);
    var seg := Segment(cmd := LcSegment64, cmdsize := 0, segname := "", vmaddr := 0, vmsize := 0,
                       fileoff := 0, filesize := 0, maxprot := 7, initprot := 7, nsects := 2);
    var sec := Section(sectname := "__text", segname := "__TEXT", addr := 0, size := 0, offset := 0,
                       align := 2, reloff := 0, nreloc := 0, flags := 0x80000400);
    var buildCmd := BuildCmd(cmd := LcBuildVersion, cmdsize := 0, platform := 0x1, minos := 0xe0000,
                             sdk := 0, ntools := 0);
    var symtabCmd := SymtabCmd(cmd := LcSymtab, cmdsize := 0, symoff := 0, nsyms := 0, stroff := 0, strsize := 0);
    var dysymtabCmd := DysymtabCmd(cmd := LcDysymtab, cmdsize := 0, ilocalsym := 0, nlocalsym := 2,
                                   iextdefsym := 2, nextdefsym := 1, iundefsym := 3);

    h := h.(ncmds := 4, sizeofcmds := BSize(seg) + BSize(sec) + BSize(buildCmd) + BSize(symtabCmd) + BSize(dysymtabCmd));

    seg := seg.(cmdsize := BSize(seg) + BSize(sec), filesize := |code|);
    seg := seg.(vmsize := seg.filesize, fileoff := h.sizeofcmds + BSize(h), nsects := 1);

    sec := sec.(size := seg.filesize, offset := seg.fileoff, reloff := seg.fileoff + seg.filesize, nreloc := |reloc|);

    buildCmd := SetCmdsize(buildCmd, BSize(buildCmd));

    var relocBytes := SumBSize(reloc);
    var symBytes := SumBSize(symbols);
    symtabCmd := symtabCmd.(cmdsize := BSize(symtabCmd), symoff := h.sizeofcmds + BSize(sec) + relocBytes);
    symtabCmd := symtabCmd.(nsyms := |symbols|, stroff := symtabCmd.symoff + symBytes, strsize := |strTable|);

    dysymtabCmd := SetCmdsize(dysymtabCmd, BSize(dysymtabCmd));
    var recs := [h, seg, sec, buildCmd, symtabCmd, dysymtabCmd];
    assert recs == CommandRecords(code, strTable, symbols, reloc);
    // the six `d += x.pack()`, in file order
    r := AppendPacked([], recs);
    if r.Ok? {
      assert [] + PackList(Annotated(recs)).value == PackList(Annotated(recs)).value;
    }
  }

  /** `x.cmdsize = n` on a load command. */
  function SetCmdsize(x: Obj, n: int): Obj
    requires x.Segment? || x.SymtabCmd? || x.BuildCmd? || x.DysymtabCmd?
  {
    x.(cmdsize := n)
  }

  /** `d += x.pack()` for record `k` of `os`, when `d` is the packing of the
      records before it. */
  method Emit(d: seq<Byte>, x: Obj, ghost os: seq<Obj>, ghost k: nat) returns (r: Result<seq<Byte>>)
    requires k < |os| && os[k] == x && PackList(Annotated(os[..k])) == Ok(d)
    ensures r.Ok? ==> PackList(Annotated(os[..k + 1])) == r
    ensures r.Err? ==> r == Err(StructError) && PackList(Annotated(os)) == r
  {
    var p := Pack(x);
    if p.Err? {
      PackListStops(os, k);
      return Err(StructError);
    }
    PackListStep(os, k);
    r := Ok(d + p.value);
  }

  /** `for x in os: d += x.pack()`: the bytes the loop adds to `d0`. */
  method AppendPacked(d0: seq<Byte>, os: seq<Obj>) returns (r: Result<seq<Byte>>)
    ensures PackList(Annotated(os)).Ok? ==> r == Ok(d0 + PackList(Annotated(os)).value)
    ensures PackList(Annotated(os)).Err? ==> r == PackList(Annotated(os)) == Err(StructError)
  {
    var added: seq<Byte> := [];
    var i := 0;
    assert os[..0] == [];
    while i < |os|
      invariant 0 <= i <= |os|
      invariant PackList(Annotated(os[..i])) == Ok(added)
    {
      r := Emit(added, os[i], os, i);
      if r.Err? { return; }
      added := r.value;
      i := i + 1;
    }
    assert os[..i] == os;
    r := Ok(d0 + added);
  }

  /** The body of `write_macho`, with the code, string table, symbols and
      relocations it embeds as parameters. */
  method Serialize(code: seq<Byte>, strTable: seq<Byte>, symbols: seq<Obj>, reloc: seq<Obj>)
    returns (r: Result<seq<Byte>>)
    ensures r == MachOImage(code, strTable, symbols, reloc)
  {
    var d := WriteCommands(code, strTable, symbols, reloc);
    if d.Err? { return Err(d.error); }
    d := AppendPacked(d.value + code, reloc);
    if d.Err? { return Err(StructError); }
    d := AppendPacked(d.value, symbols);
    if d.Err? { return Err(StructError); }
    r := Ok(d.value + strTable);
  }

  /** `sum(x.bsize() for x in os)`, as the generator expression runs. */
  method SumBSize(os: seq<Obj>) returns (n: nat)
    ensures n == SizeSum(os)
  {
    n := 0;
    var i := 0;
    while i < |os|
      invariant 0 <= i <= |os| && n == SizeSum(os[..i])
    {
      assert os[..i + 1][..i] == os[..i];
      n := n + BSize(os[i]);
      i := i + 1;
    }
    assert os[..i] == os;
  }

  // ------------------------------------------------- the object write_macho writes

  /** The code and data `write_macho` embeds: eight instruction words
      (write "Hello, World!\n" to stdout, then exit 0) followed by the
      message and two bytes of padding. */
  const Code: seq<Byte> := [
    0x20, 0x00, 0x80, 0xd2, 0xe1, 0x00, 0x00, 0x10, 0xc2, 0x01, 0x80, 0xd2, 0x90, 0x00, 0x80, 0xd2,
    0x01, 0x10, 0x00, 0xd4, 0x00, 0x00, 0x80, 0xd2, 0x30, 0x00, 0x80, 0xd2, 0x01, 0x10, 0x00, 0xd4,
    0x48, 0x65, 0x6c, 0x6c, 0x6f, 0x2c, 0x20, 0x57, 0x6f, 0x72, 0x6c, 0x64, 0x21, 0x0a, 0x00, 0x00]

  /** The string table: an empty name, then `_start`, `helloworld` and
      `ltmp0`, zero-padded to 32 bytes. */
  const StrTable: seq<Byte> := [
    0x00, 0x5f, 0x73, 0x74, 0x61, 0x72, 0x74, 0x00, 0x68, 0x65, 0x6c, 0x6c, 0x6f, 0x77, 0x6f, 0x72,
    0x6c, 0x64, 0x00, 0x6c, 0x74, 0x6d, 0x70, 0x30, 0x00, 0x00, 0x00, 0x00, 0x00, 0x00, 0x00, 0x00]

  /** Two local section symbols and one external one, all in section 1 at
      value 0. */
  const Symbols: seq<Obj> := [
    Nlist64(n_strx := 0x13, n_type := 0x0e, n_sect := 1, n_desc := 0, n_value := 0),
    Nlist64(n_strx := 8, n_type := 0x0e, n_sect := 1, n_desc := 0, n_value := 0),
    Nlist64(n_strx := 1, n_type := 0x0f, n_sect := 1, n_desc := 0, n_value := 0)]

  /** The names the symbols' `n_strx` point at, in symbol order. */
  const SymbolNames: seq<string> := ["ltmp0", "helloworld", "_start"]

  /** The NUL-terminated name starting at offset `i` of a string table. */
  function CStringAt(t: seq<Byte>, i: nat): seq<Byte>
    decreases |t| - i
  {
    if i >= |t| || t[i] == 0 then [] else [t[i]] + CStringAt(t, i + 1)
  }

  /** An ASCII name with no NUL character, stored at `i` and followed by a
      NUL, is what the table yields at `i`. */
  lemma {:induction false} CStringName(t: seq<Byte>, i: nat, name: string)
    requires i + |name| < |t| && t[i + |name|] == 0
    requires forall k :: 0 <= k < |name| ==> 0 < name[k] as int < 0x80 && t[i + k] == name[k] as int
    ensures CStringAt(t, i) == Utf8(name)
    decreases |name|
  {
    if |name| > 0 {
      assert forall k :: 0 <= k < |name[1..]| ==> name[1..][k] == name[k + 1] && t[i + 1 + k] == t[i + (k + 1)];
      CStringName(t, i + 1, name[1..]);
    }
  }

  /** Each symbol's string index names it, and index 0 is the empty name. */
  lemma StringTableNames()
    ensures CStringAt(StrTable, 0) == []
    ensures |SymbolNames| == |Symbols|
    ensures CStringAt(StrTable, Symbols[0].n_strx) == Utf8(SymbolNames[0])
    ensures CStringAt(StrTable, Symbols[1].n_strx) == Utf8(SymbolNames[1])
    ensures CStringAt(StrTable, Symbols[2].n_strx) == Utf8(SymbolNames[2])
  {
    NameLtmp0();
    NameHelloworld();
    NameStart();
  }

  lemma NameLtmp0()
    ensures CStringAt(StrTable, 0x13) == Utf8("ltmp0")
  {
    CStringName(StrTable, 0x13, "ltmp0");
  }

  lemma NameHelloworld()
    ensures CStringAt(StrTable, 8) == Utf8("helloworld")
  {
    CStringName(StrTable, 8, "helloworld");
  }

  lemma NameStart()
    ensures CStringAt(StrTable, 1) == Utf8("_start")
  {
    CStringName(StrTable, 1, "_start");
  }

  /** The dysymtab command brackets the symbol table: the locals come first
      and have the N_SECT type, the one external definition follows with
      N_EXT set as well, and no symbol is undefined. */
  lemma {:induction false} SymbolRanges()
    ensures var dy := LayoutDysymtab();
      dy.ilocalsym == 0 && dy.iextdefsym == dy.ilocalsym + dy.nlocalsym
      && dy.iundefsym == dy.iextdefsym + dy.nextdefsym == |Symbols|
    ensures var dy := LayoutDysymtab();
      forall i :: 0 <= i < |Symbols| ==>
        Symbols[i].n_type == if i < dy.iextdefsym then NSect else Or(NSect, NExt)
    ensures SymbolNames[LayoutDysymtab().iextdefsym] == "_start"
  {
    OrLowBits(7, 1, 1);
  }

  /** `write_macho`'s object: 440 bytes, with the symbol and string tables
      exactly where the symtab command says they are. */
  method WriteMacho() returns (r: Result<seq<Byte>>)
    ensures r.Ok? && |r.value| == 440
    ensures r.value[HeaderSize + SizeOfCmds..HeaderSize + SizeOfCmds + |Code|] == Code
    ensures var st := LayoutSymtab(0, |Symbols|, SizeSum(Symbols), |StrTable|);
      st.symoff == 360 && st.stroff == 408 && PackList(Annotated(Symbols)).Ok?
      && r.value[st.symoff..st.stroff] == PackList(Annotated(Symbols)).value
      && r.value[st.stroff..] == StrTable
  {
    r := Serialize(Code, StrTable, Symbols, []);
    FixedLayout();
    TableSizes(Symbols, []);
  }

  /** The fixed object's parts at their byte offsets. */
  lemma FixedLayout()
    ensures MachOImage(Code, StrTable, Symbols, []).Ok? && PackList(Annotated(Symbols)).Ok?
    ensures var d := MachOImage(Code, StrTable, Symbols, []).value;
      |d| == 440 && d[312..360] == Code && d[360..408] == PackList(Annotated(Symbols)).value && d[408..] == StrTable
  {
    FixedImageOk();
    ImageLayout(Code, StrTable, Symbols, []);
  }

  lemma {:induction false} FixedImageOk()
    ensures MachOImage(Code, StrTable, Symbols, []).Ok?
  {
    ImageOk(Code, StrTable, Symbols, []);
    FixedCommandsPack();
    FixedSymbolsFit();
  }

  lemma FixedCommandsPack()
    ensures PackList(Annotated(CommandRecords(Code, StrTable, Symbols, []))).Ok?
  {
    CommandsPack(Code, StrTable, Symbols, []);
    TableSizes(Symbols, []);
  }

  lemma FixedSymbolsFit()
    ensures forall i :: 0 <= i < |Symbols| ==> AllFit(Fields(Symbols[i]))
  {
    NlistFits(0x13, 0x0e, 1, 0, 0);
    NlistFits(8, 0x0e, 1, 0, 0);
    NlistFits(1, 0x0f, 1, 0, 0);
  }
}
