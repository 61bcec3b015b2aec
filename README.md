# minicompiler, modelled in Dafny

minicompiler turns a tiny C-like language into ARM64 assembly text, and
turns that assembly into a Mach-O object file. This project models the
middle of that pipeline and proves properties of the model:

- **The code generator** (`minicompiler/compiler/tree.py`, module
  `CodeGen`). Each AST node's `gen_asm` emits its assembly lines and takes
  registers from a `RegisterAllocator`. The allocator hands out each of
  X0..X30 at most once.
- **The assembly tokenizers** (`assembler/tokenizer.py` and
  `minicompiler/assembler/tokenizer.py`, modules `AsmLex`, `AsmTokenizer`
  and `MiniTokenizer`).
  - `lex` strips `//` comments, drops blank lines and splits each line
    into fields.
  - A `Parser` object pops lines off a queue. It turns each line into a
    `Directive`, `Label` or instruction token.
- **The instruction encoders** (the two `tokens.py` files, modules `A64`,
  `Decoders`, `AsmTokens` and `MiniTokens`). They hold the register tables
  and the `decode` methods of MOV (MOVZ), ADR, ADD (extended register),
  SVC and RET.
  - Each `decode` ORs operand fields into a 32-bit word and packs it
    little-endian.
  - The fields follow the MOVZ, ADR, ADD (extended register) and SVC
    entries of section C6.2 of the Arm Architecture Reference Manual for
    A-profile.
- **The two-pass assemblers** (`assembler/main.py`, module `AsmMain`, and
  the earlier `assembler/assembler.py`, module `AsmEarly`). An `Assembler`
  object owns a location counter, a symbol table, a string table,
  local/external symbol sets, an alignment, a phase flag and a code
  buffer. `dump` runs `process` over the tokens twice. The shared table
  logic is in module `SymbolTables`.
- **The Mach-O writer** (`assembler/macho.py`, module `MachO`). It covers
  `Obj.pack`/`bsize` over the record classes of `<mach-o/loader.h>` and
  `<mach-o/nlist.h>`, `build_reloc_info`, and the layout and serialization
  of `write_macho`.

Helper modules model the Python operations the core relies on:

- `Outcomes`: exceptions become an `Error` value inside `Result`.
- `PyInt`: unbounded `|`, `&`, `<<` and `>>` on Python `int`.
- `PyStr`: `int()`, `int(x, 16)`, `str()`, UTF-8 and `str.isspace`.
- `StructPack`: `struct.pack` for `B`, `H`, `I`, `Q` and `16s`.

Modelling decisions:

- **Python exceptions.** A raised exception is an `Err` carrying
  `KeyError`, `ValueError`, `TypeError`, `IndexError`, `StructError` or
  `AttributeError`.
- **A parse loop that never ends.** The `parse` loop of
  `assembler/tokenizer.py` makes no progress on some lines; that shows up
  as `Err(Diverges)`.
- **Set order.** Python's set order and `set.pop` are arbitrary choices.
  The methods pick with `:|`, and the specification functions take the
  order that occurred as an explicit sequence.
- **Fixed-width text fields.** A `16s` field longer than 16 bytes is cut
  silently, as `struct.pack` does, not rejected.
- **Mutable objects.** The `Assembler`, `Parser` and `RegisterAllocator`
  objects are Dafny classes whose fields the methods update. Each method
  is proved against a specification function of the old state.
  - `Assembler.Snapshot()` reads the assembler's fields as a `State`.
  - `Step` and `Run` are what `process` and a pass do to a `State`.
  - `Passes` is the pair of passes in `dump`.

## Model

| member | source | states |
|---|---|---|
| PyInt.AndLowMask | assembler/tokens.py:84-86 | `x & (2^k - 1)` is `x mod 2^k` for every Python int, negative ones included, which is how the masks `& 0x3`, `& 0x7FFFF` and `& 0x7FFF` act |
| PyInt.OrLowBits | minicompiler/assembler/tokens.py:80-85 | OR-ing a value below `2^k` into a multiple of `2^k` is addition, the step that turns each chain of `out` OR-assignments into a sum of fields |
| PyInt.OrShifted | minicompiler/assembler/tokens.py:115-118 | OR commutes with a common left shift |
| PyInt.OrBounds | minicompiler/assembler/tokens.py:80-86 | the OR of two non-negative values is at least each of them, and below `2^k` when both are |
| PyInt.OrSign | minicompiler/assembler/tokens.py:84 | an OR is negative exactly when an operand is, so a negative MOV immediate yields a negative word |
| PyInt.OrCommutes | minicompiler/assembler/tokens.py:80-85 | OR is commutative |
| PyStr.ParseDigits | minicompiler/assembler/tokens.py:84 | a digit string parses exactly when it is non-empty and every character is a digit of the base |
| PyStr.ParseShowInt | minicompiler/compiler/tree.py:90 | `int(str(n)) == n`: the decimal text an f-string prints reads back as the same integer |
| PyStr.ShowNat | minicompiler/compiler/tree.py:90 | `str(n)` is non-empty and made of digits |
| PyStr.ShowNatInjective | minicompiler/compiler/tree.py:6 | different numbers print differently |
| PyStr.RegNameInjective | minicompiler/assembler/tokens.py:37-69 | `f'X{i}'` names are pairwise distinct |
| PyStr.Utf8Append | assembler/main.py:44-49 | `(a + b).encode() == a.encode() + b.encode()` |
| PyStr.Utf8 | assembler/main.py:44-45 | a string's UTF-8 bytes are at least as many as its characters |
| StructPack.PackUnsigned | minicompiler/assembler/tokens.py:86 | `struct.pack` of an n-byte unsigned field succeeds exactly when `0 <= v < 2^(8n)`, yields n bytes, and raises `struct.error` otherwise |
| StructPack.PackUnsignedRoundTrip | minicompiler/assembler/tokens.py:86 | reading the packed bytes back little-endian gives the value |
| StructPack.LEByte | minicompiler/assembler/tokens.py:86 | byte k of the little-endian form is `(v >> 8k) & 0xFF` |
| StructPack.PackChar16 | assembler/macho.py:49 | a `16s` field is the text's bytes cut or zero-padded to 16 |
| A64.MovzFits | minicompiler/assembler/tokens.py:78-86 | the MOV word fits in 32 bits exactly when `0 <= n < 2^27`; `n` is never masked |
| A64.MovzFields | minicompiler/assembler/tokens.py:78-86 | for `n < 2^18` the word is `0xD2800000 + n*32 + rd`; `rd` is bits 0-4, `imm16` is bits 5-20, `hw` gets `n`'s bits 16-17 |
| A64.AdrShape | minicompiler/assembler/tokens.py:96-103 | the ADR word is immlo in bits 29-30, opcode `0b10000` in 24-28, immhi in 5-23 and the register in 0-4, for any Python int `imm`; bit 31 is clear |
| A64.AdrRoundTrip | minicompiler/assembler/tokens.py:96-103 | the register and opcode fields read back, and for `-2^20 <= imm < 2^20` immhi:immlo read as a 21-bit two's-complement value is `imm` |
| A64.AddFields | minicompiler/assembler/tokens.py:113-119 | the ADD word is `0x8B200000 + rm<<16 + rn<<5 + rd`; every field reads back and bits 10-15 are zero |
| A64.SvcFields | minicompiler/assembler/tokens.py:129-137 | the SVC word is `0xD4000001 + (imm mod 2^15) << 5`, below `2^32`; bits 0-4 hold 1, `imm16` holds the low 15 bits of `imm`, and bits 21-31 hold the opcode |
| Decoders.Reg | minicompiler/assembler/tokens.py:85 | `registers[s]` succeeds exactly for keys and raises KeyError otherwise |
| Decoders.MovDecode | minicompiler/assembler/tokens.py:78-86 | MOV decodes exactly when `s2[1:]` is an int, `s1` is a register and the word fits; it yields 4 bytes; otherwise ValueError, then KeyError, then struct.error, in the source's order |
| Decoders.MovDecodeWord | minicompiler/assembler/tokens.py:78-86 | the decoded bytes are the little-endian MOVZ word of `int(s2[1:])` and the register |
| Decoders.MovIgnoresPrefix | minicompiler/assembler/tokens.py:84 | the first character of `s2` is dropped whatever it is (`#`, `X` or anything else) |
| Decoders.AdrDecode | minicompiler/assembler/tokens.py:96-103 | ADR decodes exactly when `s1` is a register, to 4 bytes; else KeyError |
| Decoders.AdrDecodeWord | assembler/tokens.py:81-88 | the decoded word carries the register and opcode, and its 21-bit immediate reads back as `imm` in range |
| Decoders.AddDecode | minicompiler/assembler/tokens.py:113-119 | ADD decodes exactly when all three operands are registers, to 4 bytes; else KeyError |
| Decoders.AddDecodeWord | minicompiler/assembler/tokens.py:113-119 | the decoded word is `0x8B200000 + s2*2^16 + s1*2^5 + dst`; `dst` reads back from bits 0-4, `s1` from 5-9, `s2` from 16-20, and bits 10-15 are zero |
| Decoders.SvcDecode | minicompiler/assembler/tokens.py:129-137 | SVC decodes exactly when `s1[1:]` is hexadecimal, to 4 bytes; else ValueError |
| Decoders.SvcDecodeWord | assembler/tokens.py:98-106 | the decoded word is `0xD4000001 + (imm mod 2^15) * 2^5`, `imm` being `int(s1[1:], 16)` |
| Decoders.PackedWordBytes | minicompiler/assembler/tokens.py:78-86 | a packed word's byte k is `(w >> 8k) & 0xFF` |
| AsmTokens.RegistersExact | assembler/tokens.py:36-54 | the old table maps `Xi` to i for i <= 16, has no other key, and X17 and above are missing |
| AsmTokens.Decode | assembler/tokens.py:57-106 | only MOV, ADR and SVC decode, each to exactly 4 bytes; a directive or label has no `decode` |
| MiniTokens.RegistersExact | minicompiler/assembler/tokens.py:37-69 | the table maps `Xi` to i for i <= 30 and has no other key |
| MiniTokens.Decode | minicompiler/assembler/tokens.py:72-143 | RET decodes to no bytes and every other instruction to 4; an ADR whose `imm` is text raises TypeError |
| AsmLex.StripCommentsFree | assembler/tokenizer.py:10 | after `re.sub(r'//.*', '')` no `//` is left |
| AsmLex.StripIdempotent | assembler/tokenizer.py:10 | stripping comments twice is stripping once |
| AsmLex.StripThenSplit | assembler/tokenizer.py:10 | stripping the text and splitting at `\n` is splitting and then cutting each line at its first `//` |
| AsmLex.LexByLine | assembler/tokenizer.py:6-11 | `lex` works line by line: each line is cut at `//`, blank lines are dropped, the rest are split into fields |
| AsmLex.LexLinesContent | assembler/tokenizer.py:11 | one field list per non-blank input line, in input order: the i-th lexed line is the fields of the i-th non-blank line, so no more lines come out than go in |
| AsmLex.Fields | assembler/tokenizer.py:7-9 | every field `re.findall` returns matches `"[^"]*"` (quotes at both ends, none inside) or `[^,\s]+` (a non-empty run of characters that are neither commas nor whitespace) |
| AsmLex.FieldsJoin | assembler/tokenizer.py:7-9 | plain fields joined by a non-empty separator made of commas and whitespace split back into the same fields |
| AsmLex.SplitLines | assembler/tokenizer.py:10 | `split('\n')` always yields at least one line |
| AsmTokenizer.LineStep | assembler/tokenizer.py:27-53 | a directive line comes first and needs exactly two fields (else ValueError). A `:`-ended field makes a label of `f0[:-1]`. A statement with 1 or 4+ fields is not consumed; an empty field list raises IndexError |
| AsmTokenizer.StatementStep | assembler/tokenizer.py:35-46 | a 3- or 2-field statement builds `ops[f0]`, only `mov`, `adr` and `svc` being known (else KeyError); other lengths are stuck |
| AsmTokenizer.ParseSpecOk | assembler/tokenizer.py:55-57 | parsing succeeds exactly when every line yields a token, with one token per line in line order |
| AsmTokenizer.ParseSpecErr | assembler/tokenizer.py:55-57 | a failed parse fails at the first bad line, with that line's error or non-termination |
| AsmTokenizer.ParseSpecAppend | assembler/tokenizer.py:55-57 | parsing `a + b` is parsing `a`, then `b` |
| AsmTokenizer.Parser.constructor | assembler/tokenizer.py:14-18 | the queue holds all the lines and `out` is empty |
| AsmTokenizer.Parser.ParseDirective | assembler/tokenizer.py:27-29 | `_directive` pops the line and appends `Directive(name, sub)`, or raises ValueError unless the line has two fields |
| AsmTokenizer.Parser.ParseLabel | assembler/tokenizer.py:31-33 | `_label` pops the line and appends `Label(f0[:-1])` |
| AsmTokenizer.Parser.ParseLine | assembler/tokenizer.py:48-53 | `_line` does what `LineStep` says to the queue and the output |
| AsmTokenizer.Parser.ParseStatement | assembler/tokenizer.py:35-46 | `_statement` pops the line only when it has 2 or 3 fields |
| AsmTokenizer.Parser.Parse | assembler/tokenizer.py:55-57 | the `while` loop appends the tokens of the remaining lines to `out`, or stops with the first error |
| AsmTokenizer.Tokenize | assembler/tokenizer.py:60-64 | `tokenize` is `parse(lex(asm))` |
| MiniTokenizer.StatementStep | minicompiler/assembler/tokenizer.py:35-46 | a statement must start with one of the seven mnemonics (else KeyError); the fields are constructor arguments, so `ADD a, b, c` gives `s1=a`, `s2=b`, `dst=c`, and an ADR has 3 or 4 fields, and its `imm` is 0 or the fourth field as text |
| MiniTokenizer.LineStep | minicompiler/assembler/tokenizer.py:27-53 | an empty field list raises IndexError; directive lines are checked before labels and need exactly two fields (else ValueError); a label keeps `f0[:-1]` |
| MiniTokenizer.ParseSpecOk | minicompiler/assembler/tokenizer.py:55-57 | one token per line in order, exactly when every line parses |
| MiniTokenizer.ParseSpecErr | minicompiler/assembler/tokenizer.py:55-57 | a failure is the first failing line's error |
| MiniTokenizer.Parser.constructor | minicompiler/assembler/tokenizer.py:14-18 | the queue holds all the lines and `out` is empty |
| MiniTokenizer.Parser.ParseDirective | minicompiler/assembler/tokenizer.py:27-29 | `_directive` pops the line and appends `Directive(name, sub)` or raises ValueError |
| MiniTokenizer.Parser.ParseLabel | minicompiler/assembler/tokenizer.py:31-33 | `_label` pops the line and appends `Label(f0[:-1])` |
| MiniTokenizer.Parser.ParseStatement | minicompiler/assembler/tokenizer.py:35-46 | `_statement` always pops the line and appends the constructed token, or fails as `StatementStep` says |
| MiniTokenizer.Parser.ParseLine | minicompiler/assembler/tokenizer.py:48-53 | every `_line` call on a non-empty line pops exactly that line |
| MiniTokenizer.Parser.Parse | minicompiler/assembler/tokenizer.py:55-57 | the loop appends the remaining lines' tokens, or stops at the first error |
| MiniTokenizer.Tokenize | minicompiler/assembler/tokenizer.py:60-64 | `tokenize` is `parse(lex(asm))` and yields one token per non-blank line |
| MachO.BSizeCalcsize | assembler/macho.py:52-54 | each record's `bsize` (Header 32, Segment 72, Section 80, SymtabCmd 24, BuildCmd 24, DysymtabCmd 80, Nlist64 16, RelocInfo 8) is the sum of its field widths |
| MachO.PackField | assembler/macho.py:45-50 | a field packs when its value fits its width, to exactly that many bytes; else struct.error |
| MachO.PackAllOk | assembler/macho.py:45-50 | a record packs exactly when each field fits, to `bsize` bytes |
| MachO.PackAllField | assembler/macho.py:45-50 | the packed record is its fields in declaration order: field k occupies the bytes after the widths of fields 0..k-1 |
| MachO.PackObj | assembler/macho.py:43-50 | `pack` succeeds exactly when every field fits, yielding `bsize` bytes |
| MachO.Pack | assembler/macho.py:43-50 | the format-building loop over the annotations computes `PackObj` |
| MachO.RelocInfoFields | assembler/macho.py:170-172 | with pcrel, extern in {0,1}, length < 4 and type < 16, `r_info` is the sum of the shifted fields and each field is recovered by shift-and-mask |
| MachO.SumBSize | assembler/macho.py:320-322 | the `sum(x.bsize() for x in ...)` loop is `SizeSum` |
| MachO.LayoutSizes | assembler/macho.py:295-323 | `ncmds = 4`; `sizeofcmds` sums the segment, section, build, symtab and dysymtab records; each `cmdsize` is its record's size, the segment's including its section; `fileoff = sizeofcmds + 32`; filesize = vmsize = section size = code length; the section points at the code and just past it; `symoff = sizeofcmds + 80 + relocations' size` and `stroff = symoff + symbols' size` |
| MachO.CommandsSize | assembler/macho.py:295-328 | the header and the four load commands (the section inside the segment) take 32 + 280 bytes |
| MachO.SymoffMatchesFile | assembler/macho.py:320-322 | `symoff` and `stroff` name the real file offsets of the symbols and strings exactly when the code is 48 bytes long |
| MachO.ImageLayout | assembler/macho.py:292-342 | the file is header, commands, code, relocations, symbols and strings in that order, and its length is `32 + sizeofcmds + len(code) + 8*nreloc + 16*nsyms + strsize` |
| MachO.ImageOk | assembler/macho.py:292-342 | writing succeeds exactly when the header and load commands pack and every relocation and symbol record fits its fields; otherwise struct.error |
| MachO.SegmentFits | assembler/macho.py:300-305 | the segment packs exactly when the code length fits 64 bits |
| MachO.NlistFits | assembler/macho.py:156-162 | an `nlist_64` packs exactly when each field fits its width |
| MachO.CommandsPack | assembler/macho.py:295-328 | the header and load commands pack exactly when the end of the code, the relocation count, `stroff`, the symbol count and the string-table size all fit 4 bytes |
| MachO.SectionFits | assembler/macho.py:308-312 | the section packs exactly when `reloff` (end of the code) and `nreloc` fit 4 bytes |
| MachO.SymtabFits | assembler/macho.py:319-324 | the symtab command packs exactly when `stroff`, `nsyms` and `strsize` fit 4 bytes |
| MachO.TableSizes | assembler/macho.py:320-322 | relocations take 8 bytes each and symbols 16 |
| MachO.PackedRecords | assembler/macho.py:331-342 | a list of records packs exactly when each record does, to the sum of their sizes |
| MachO.AppendPacked | assembler/macho.py:333-339 | the `for x in ...: d += x.pack()` loops append the packed records, or stop with struct.error |
| MachO.Serialize | assembler/macho.py:292-342 | the byte buffer `d` grown step by step is `MachOImage` |
| MachO.WriteCommands | assembler/macho.py:295-328 | the fields assigned step by step, then packed, give the packed header and load commands |
| MachO.StringTableNames | assembler/macho.py:247-273 | the fixed string table starts with byte 0, and each symbol's `n_strx` (0x13, 8, 1) indexes the zero-terminated name `ltmp0`, `helloworld`, `_start` |
| MachO.SymbolRanges | assembler/macho.py:251-283 | the dysymtab values 0/2/2/1/3 bracket the two `0x0e` locals and the one `0x0f` external |
| MachO.WriteMacho | assembler/macho.py:175-342 | `write_macho` produces 440 bytes, with the code at offset 312, symbols at 360 and strings at 408 |
| MachO.FixedImageOk | assembler/macho.py:232-288 | the fixed records, code and tables all pack |
| SymbolTables.KeysAfter | assembler/main.py:51-57 | after a sequence of label definitions, `string_table`'s key order is the first-definition order, `stidx` is 1 plus, for every definition (repeats included), the name's UTF-8 length plus its NUL, and the symbol and string tables have exactly the defined names |
| SymbolTables.VisibilityAfter | assembler/main.py:37-39 | `ext` is the set of `.global` names, and a defined name is local unless made global |
| SymbolTables.FirstOccurrencesOrder | assembler/main.py:119-120 | `list(string_table.keys())` has no duplicates, holds every label, and lists them in first-definition order |
| SymbolTables.GlobalsOnly | assembler/main.py:37-39 | `.global`s alone move names from local to external and change nothing else |
| SymbolTables.PassesDisjoint | assembler/main.py:124-130 | re-running the `.global`s after pass 1 leaves local and external sets disjoint, external = the globals, local = labels not made global, even when `.global` precedes its label |
| SymbolTables.Entry | assembler/main.py:105-113 | an entry exists exactly when the name has a string offset and an address (else KeyError); it is `Nlist64(n_strx, N_TYPE, 1, 0, address)` with `N_EXT` OR-ed in for non-locals |
| SymbolTables.EntriesOk | assembler/main.py:97-117 | the list has one entry per name in order, and fails with KeyError exactly when some name lacks an entry |
| SymbolTables.GetSymbols | assembler/main.py:97-117 | `_get_symbols` lists all locals, then all externals, each group in some order |
| SymbolTables.SymbolsGrouped | assembler/main.py:97-117 | with disjoint sets it fails exactly when a local or external name was never defined; otherwise locals come first with type `N_TYPE` and externals after with `N_TYPE` plus `N_EXT` |
| SymbolTables.DysymtabBrackets | assembler/main.py:142-148 | with L locals and E externals, `nlocalsym = L`, `iextdefsym = L`, `nextdefsym = E`, `iundefsym = L + E` and `ilocalsym` (0, or E when there are no locals) bracket exactly the locals and exactly the externals of the symbol list; `iundefsym` is its length |
| SymbolTables.Calls | assembler/main.py:133-152 | the builder receives the alignment, the code, the symbol list, the string-table names and the dysymtab arguments |
| AsmMain.StepCounters | assembler/main.py:35-95 | one `process`: `lc` grows by 4 for MOV, SVC and a resolved ADR, by the UTF-8 length for `.ascii`, and by nothing else. Pass 1 never touches `dat`; in pass 2 `dat` grows by the same amount |
| AsmMain.StepBytes | assembler/main.py:35-95 | in pass 2 `dat` keeps its old bytes and gains, read as a little-endian word: for MOV the MOVZ word of `int(s2[1:])` (`0xD2800000 + n*32 + reg` below 2^18); for a resolved ADR a word carrying the register, the ADR opcode and bit 31 clear whose 21-bit displacement reads back as `symbol_table[target] - lc + 4`; for SVC `0xD4000001 + (imm mod 2^15)*32`; `.ascii` appends its UTF-8; labels, other directives and unresolved ADRs append nothing |
| AsmMain.StepTables | assembler/main.py:35-95 | `process` raises exactly for a bad `.align` (ValueError) or an instruction that does not decode, never for an ADR to an unknown label; the tables change only for a first-pass label (records `lc` and `stidx`, becomes local) or a `.global` (moves one name to the externals); only `.align` changes the alignment; labels and non-`.ascii` directives leave `lc` and `dat` alone |
| AsmMain.Skew | assembler/main.py:67-78 | pass 2's location at any point is pass 1's plus 4 per forward-referencing `adr` before it |
| AsmMain.Pass1 | assembler/main.py:124-126 | pass 1 applies the label and `.global` events to the tables, ends at `lc = Lc1` and leaves `dat` empty |
| AsmMain.Pass2 | assembler/main.py:127-130 | pass 2 applies only the `.global`s to the tables and leaves the symbol table alone; `lc` moves by `Lc2` and `dat` grows by the same amount, keeping its old bytes as a prefix |
| AsmMain.PassesFacts | assembler/main.py:122-130 | after both passes, `len(dat) == lc`; the local and external sets are disjoint; external = globals, local = labels not made global; the string-table key order is first-definition order; `stidx` counts the label names' bytes |
| AsmMain.LabelEntries | assembler/main.py:51-57 | a label's entries come from its last definition: address = pass-1 location there, string offset = 1 + bytes of the label names before it |
| AsmMain.AdrWord | assembler/main.py:67-86 | in the finished `dat`, the 4 bytes at a resolved `adr`'s pass-2 offset are its encoding with `imm = symbol_table[s2] - lc + 4`, using the pass-2 `lc` |
| AsmMain.AdrDisplacement | assembler/main.py:67-78 | the immediate written for an `adr` is the pass-2 distance to its label, plus 4, minus 4 for each forward-referencing `adr` before the label |
| AsmMain.RunSplit | assembler/main.py:124-130 | a pass over `ts` is a pass over a prefix and then over the rest; an error stops it |
| AsmMain.Assembler.constructor | assembler/main.py:10-33 | a fresh assembler starts with empty tables, `lc = 0`, `stidx = 1`, `align = 4` and the first pass |
| AsmMain.Assembler.ProcessDirective | assembler/main.py:35-49 | `_process_directive` performs `Step`, or fails with its error |
| AsmMain.Assembler.ProcessLabel | assembler/main.py:51-57 | `_process_label` performs `Step` |
| AsmMain.Assembler.EmitWord | assembler/main.py:83-86 | adding 4 to `lc` and appending the word in pass 2 |
| AsmMain.Assembler.ProcessInstruction | assembler/main.py:60-86 | `_process_instruction` performs `Step`: an unresolved `adr` returns early, other decode failures raise |
| AsmMain.Assembler.Process | assembler/main.py:88-95 | `process` dispatches to the three handlers and performs `Step` |
| AsmMain.Assembler.GetSymbols | assembler/main.py:97-117 | `_get_symbols` on the object's fields, locals first |
| AsmMain.Assembler.GetStringTable | assembler/main.py:119-120 | `list(string_table.keys())` in insertion order |
| AsmMain.Assembler.RunTokens | assembler/main.py:124-130 | the `for` loop over the tokens performs `Run`, stopping at the first error |
| AsmMain.Assembler.Dump | assembler/main.py:122-152 | the two passes, with `lc` reset between them, then the builder calls with the computed tables |
| AsmEarly.StepRaises | assembler/assembler.py:34-79 | `process` raises (ValueError) exactly for an `.align` whose subject is not an int |
| AsmEarly.StepCounters | assembler/assembler.py:34-68 | `mov`, `adr` and `svc` add 4 whether or not the target is known, `.ascii` adds its UTF-8 length, and `dat` never changes |
| AsmEarly.StepTables | assembler/assembler.py:34-52 | a first-pass label records its `lc` and string offset, joins the locals and advances `stidx` by its UTF-8 length plus one; `.global` moves one name from the locals to the externals and changes nothing else; no other token, and no second-pass label, changes the tables |
| AsmEarly.Pass1 | assembler/assembler.py:123-125 | pass 1 applies the label and `.global` events, each label at the prefix sum of the sizes before it |
| AsmEarly.Pass2 | assembler/assembler.py:127-128 | pass 2 applies only the `.global`s and advances `lc` by the same total again |
| AsmEarly.RunFails | assembler/assembler.py:123-128 | a pass fails exactly when some token is a bad `.align` |
| AsmEarly.PassesFacts | assembler/assembler.py:123-128 | `lc` is not reset, so it ends at twice the code size; the symbol and string tables are those of pass 1; local and external sets are disjoint; external = globals, local = labels not made global |
| AsmEarly.LabelAddress | assembler/assembler.py:46-52 | a label's address is the prefix sum of the sizes before its last definition; its string offset is 1 + the bytes of the names before it |
| AsmEarly.DatIgnored | assembler/assembler.py:108-128 | the passes do not depend on `dat` |
| AsmEarly.Assembler.constructor | assembler/assembler.py:9-32 | a fresh assembler is in the initial state |
| AsmEarly.Assembler.ProcessDirective | assembler/assembler.py:34-44 | `_process_directive` performs `Step`, or fails leaving the state unchanged |
| AsmEarly.Assembler.ProcessLabel | assembler/assembler.py:46-52 | `_process_label` performs `Step` |
| AsmEarly.Assembler.ProcessBinaryOp | assembler/assembler.py:54-63 | `_process_binary_op` performs `Step` |
| AsmEarly.Assembler.ProcessUnaryOp | assembler/assembler.py:65-68 | `_process_unary_op` performs `Step` |
| AsmEarly.Assembler.Process | assembler/assembler.py:70-79 | `process` dispatches and performs `Step` |
| AsmEarly.Assembler.GetSymbols | assembler/assembler.py:81-101 | `_get_symbols` on the object's fields: the entries of all locals, then of all externals |
| AsmEarly.Assembler.GetStringTable | assembler/assembler.py:103-104 | the string table's keys in insertion order |
| AsmEarly.Assembler.RunTokens | assembler/assembler.py:123-128 | a `for` loop over the tokens performs `Run` and leaves `dat` alone |
| AsmEarly.Assembler.Dump | assembler/assembler.py:106-151 | `dat` is the fixed 48-byte code whatever the tokens; the passes run without resetting `lc`; the builder receives the tables' arguments |
| CodeGen.AllRegsCount | minicompiler/compiler/tree.py:6 | a fresh allocator's pool holds 31 distinct registers |
| CodeGen.PoolEmpty | minicompiler/compiler/tree.py:9-10 | at most 31 registers are handed out, and the pool is empty exactly when 31 have been |
| CodeGen.RegisterAllocator.constructor | minicompiler/compiler/tree.py:5-7 | the pool is X0..X30 and no variable is bound |
| CodeGen.RegisterAllocator.GetFree | minicompiler/compiler/tree.py:9-10 | `pop` returns a register never handed out before and removes it from the pool; the 32nd call raises KeyError |
| CodeGen.RegisterAllocator.AllocVar | minicompiler/compiler/tree.py:12-15 | binds the variable to a fresh register, or raises KeyError with nothing changed |
| CodeGen.RegisterAllocator.GetReg | minicompiler/compiler/tree.py:17-18 | the bound register, or `'NA'` |
| CodeGen.ReadReg | minicompiler/compiler/tree.py:128 | reading `out_reg` fails with AttributeError exactly on nodes that have no such attribute |
| CodeGen.Pick | minicompiler/compiler/tree.py:10 | the k-th `get_free` yields the k-th register of the order that occurred, or KeyError past the end |
| CodeGen.AsmCounts | minicompiler/compiler/tree.py:52-215 | a node that generates takes `Allocs(n)` registers (one per `NumExpr`, `AddOp` and `VarDecl` reached) and emits `LineCount(n)` lines |
| CodeGen.TooFewRegisters | minicompiler/compiler/tree.py:9-10 | a node that needs more registers than remain fails |
| CodeGen.AsmExtend | minicompiler/compiler/tree.py:52-215 | code already generated depends only on the registers handed out so far |
| CodeGen.AsmSeqAppend | minicompiler/compiler/tree.py:143-147 | the children's lines come out in order: the loop over `xs + ys` is the loop over `xs` followed by the loop over `ys` |
| CodeGen.AddFresh | minicompiler/compiler/tree.py:122-136 | `AddOp`'s `out_reg` is its last register taken, and none of its operands' registers |
| CodeGen.VarFresh | minicompiler/compiler/tree.py:156-170 | `VarDecl`'s register is taken before its value's registers and differs from all of them; the value's lines come first and the last line is exactly `MOV reg, valreg` with `valreg` the value's `out_reg` |
| CodeGen.JoinSplit | minicompiler/compiler/tree.py:224 | `'\n'.join(lines)` splits back into the lines when no line holds a line break |
| CodeGen.GenAsm | minicompiler/compiler/tree.py:52-215 | each `gen_asm` override, run on the allocator, produces `Asm`'s lines and `out_reg`, or its error, and hands out registers in order |
| CodeGen.GenAdd | minicompiler/compiler/tree.py:122-136 | computes on the allocator what `Asm` specifies (result or error, registers taken, variable map): op1's lines, op2's lines, then `ADD out, r1, r2` with `out` taken after both operands |
| CodeGen.GenVar | minicompiler/compiler/tree.py:156-170 | computes on the allocator what `Asm` specifies (result or error, registers taken, variable map): the variable's register first, then the value's lines, then `MOV reg, val` |
| CodeGen.GenSeq | minicompiler/compiler/tree.py:60-64 | computes on the allocator what `Asm` specifies (result or error, registers taken, variable map): the `a +=` loop concatenates the children's lines in order |
| CodeGen.GenDeclStmt | minicompiler/compiler/tree.py:177-178 | computes on the allocator what `Asm` specifies (result or error, registers taken, variable map): the declaration's lines |
| CodeGen.GenReturn | minicompiler/compiler/tree.py:188-198 | computes on the allocator what `Asm` specifies (result or error, registers taken, variable map): the value's lines, then `MOV out_reg, in_reg` and `RET` |
| CodeGen.GenFunction | minicompiler/compiler/tree.py:208-215 | computes on the allocator what `Asm` specifies (result or error, registers taken, variable map): `.global ident`, `ident:`, then the body's lines |
| CodeGen.GenProgram | minicompiler/compiler/tree.py:221-224 | one fresh allocator, so the registers used are distinct members of X0..X30; the lines joined with `'\n'`; a tree needing more than 31 registers fails |

## Left out

- File writes, `__main__` argument handling, debug prints, `dbg` and
  `Obj.__repr__`: they are I/O.
- `MachoObjectBuilder` and `N_TYPE` are imported by both assemblers but
  not defined in `assembler/macho.py`. The builder calls are returned as a
  `BuilderCalls` value, and `N_TYPE` is the parameter `nType`.
- `assembler/assembler.py` imports `BinaryOp` and `UnaryOp` from a
  tokenizer that does not define them. `AsmEarly.Token` stands in with the
  fields that file reads.
- AsmMain.Assembler.ProcessInstruction: the write of `imm` back into the
  ADR token (assembler/main.py:75) is not modelled. Tokens are values here,
  and the written `imm` is only read by the `decode` that follows it.
- CodeGen.GenAsm: each node's `out_reg` is returned instead of stored on
  the node. A tree that shares one node in two places (aliasing) is
  therefore not modelled; the tree is a value.
- VarDecl's `type`, FunctionDecl's `rtype` and `args`, and the `is_leaf`
  flag are dropped. `gen_asm` never reads them.
- `ASTNode.print` is dropped: it only prints.
- The `is_immediate`, `is_register` and `is_label` lambdas and the `b`
  flag in `pack` are dropped: they are never used.
- `int()` accepts an optional sign and ASCII digits; `int(x, 16)` also
  accepts an optional `0x`. Underscores, surrounding whitespace and
  non-ASCII digits are left out.
- Host byte order: native `struct` formats are modelled as little-endian
  with no padding, which is what the layouts shown need.
- The compiler's `parser.py`, `lexer.py`, `tokens.py` and old `tree.py`,
  and the glue scripts (`main.py` files, `eval.py`), are not part of this
  model.
