/** What the two assemblers (assembler/main.py and assembler/assembler.py)
    share line for line: the tables that labels and `.global` directives
    update, the nlist entries `_get_symbols` builds from them, and the
    arguments `dump` passes for the dysymtab command.

    A run updates the tables through a sequence of events: a label
    definition in the first pass, or a `.global` in either pass. The lemmas
    here describe the tables after any such sequence; each assembler shows
    which events its passes produce. */
module SymbolTables {
  import opened Outcomes
  import opened PyInt
  import opened PyStr
  import opened MachO

  /** `symbol_table` and `string_table` (its values, and its keys in
      insertion order, which `_get_string_table` returns), `loc_symbols`,
      `ext_symbols` and the string offset counter `stidx`. */
  datatype Tables = Tables(symbols: map<string, int>, strings: map<string, int>, keys: seq<string>,
                           loc: set<string>, ext: set<string>, stidx: int)

  /** The tables as `__init__` leaves them: offset 0 of the string table is
      the empty name, so names start at 1. */
  const InitialTables: Tables := Tables(map[], map[], [], {}, {}, 1)

  /** Assigning a key of a Python dict: a new key goes last, an existing key
      keeps its place. */
  function Insert(keys: seq<string>, k: string): seq<string> {
    if k in keys then keys else keys + [k]
  }

  /** `_process_label` in the first pass: the label gets the current location
      and string offset, the offset moves past the UTF-8 name and its NUL,
      and the name becomes local. */
  function DefineLabel(t: Tables, name: string, lc: int): Tables {
    Tables(t.symbols[name := lc], t.strings[name := t.stidx], Insert(t.keys, name),
           t.loc + {name}, t.ext, t.stidx + |Utf8(name)| + 1)
  }

  /** `.global name`: `loc_symbols.discard(name)`, `ext_symbols.add(name)`. */
  function Globalize(t: Tables, name: string): Tables {
    t.(loc := t.loc - {name}, ext := t.ext + {name})
  }

  datatype Event = Define(name: string, lc: int) | Global(name: string)

  function Apply(t: Tables, e: Event): Tables {
    match e
    case Define(n, lc) => DefineLabel(t, n, lc)
    case Global(n) => Globalize(t, n)
  }

  function ApplyAll(t: Tables, es: seq<Event>): Tables {
    if |es| == 0 then t else Apply(ApplyAll(t, es[..|es| - 1]), es[|es| - 1])
  }

  /** The names defined by a run, in order, repetitions included. */
  function Defined(es: seq<Event>): seq<string> {
    if |es| == 0 then []
    else Defined(es[..|es| - 1]) + (if es[|es| - 1].Define? then [es[|es| - 1].name] else [])
  }

  /** The names a run declares `.global`. */
  function Globals(es: seq<Event>): set<string> {
    if |es| == 0 then {}
    else Globals(es[..|es| - 1]) + (if es[|es| - 1].Global? then {es[|es| - 1].name} else {})
  }

  /** Bytes taken by names and their NUL terminators. */
  function NameBytes(names: seq<string>): nat {
    if |names| == 0 then 0 else NameBytes(names[..|names| - 1]) + |Utf8(names[|names| - 1])| + 1
  }

  /** The distinct names of a list, each where it first occurs. */
  function FirstOccurrences(names: seq<string>): seq<string> {
    if |names| == 0 then [] else Insert(FirstOccurrences(names[..|names| - 1]), names[|names| - 1])
  }

  /** Position of the first occurrence of `x`. */
  function FirstIndex(names: seq<string>, x: string): (i: nat)
    requires x in names
    ensures i < |names| && names[i] == x && forall k :: 0 <= k < i ==> names[k] != x
  {
    if names[0] == x then 0 else 1 + FirstIndex(names[1..], x)
  }

  // ------------------------------------------------------------ name order

  /** The keys of a dict assigned in order `names` are the distinct names,
      without repetition, ordered by first assignment. */
  lemma {:induction false} FirstOccurrencesOrder(names: seq<string>)
    ensures NoDuplicates(FirstOccurrences(names))
    ensures forall x :: x in FirstOccurrences(names) <==> x in names
    ensures forall i, j :: 0 <= i < j < |FirstOccurrences(names)| ==>
      FirstIndex(names, FirstOccurrences(names)[i]) < FirstIndex(names, FirstOccurrences(names)[j])
  {
    if |names| > 0 {
      var front, x := names[..|names| - 1], names[|names| - 1];
      var f := FirstOccurrences(front);
      FirstOccurrencesOrder(front);
      assert names == front + [x];
      forall y | y in front
        ensures FirstIndex(names, y) == FirstIndex(front, y)
      {
        FirstIndexAppend(front, x, y);
      }
      if x !in f {
        assert x !in front;
        FirstIndexAppend(front, x, x);
        var r := f + [x];
        forall i, j | 0 <= i < j < |r|
          ensures FirstIndex(names, r[i]) < FirstIndex(names, r[j])
        {
          assert r[i] == f[i] && r[i] in front;
          FirstIndexAppend(front, x, r[i]);
          if j < |f| {
            assert r[j] == f[j] && r[j] in front;
            FirstIndexAppend(front, x, r[j]);
            assert FirstIndex(front, f[i]) < FirstIndex(front, f[j]);
          } else {
            assert r[j] == x;
            assert FirstIndex(front, r[i]) < |front|;
          }
        }
        assert NoDuplicates(r) by {
          forall i, j | 0 <= i < j < |r| ensures r[i] != r[j] {
            if j < |f| { assert r[i] == f[i] && r[j] == f[j]; } else { assert r[i] == f[i] && r[i] in f; }
          }
        }
      }
    }
  }

  lemma {:induction false} FirstIndexAppend(front: seq<string>, x: string, y: string)
    requires y in front || y == x
    ensures y in front ==> FirstIndex(front + [x], y) == FirstIndex(front, y)
    ensures y !in front ==> FirstIndex(front + [x], y) == |front|
  {
    var i := FirstIndex(front + [x], y);
    if y in front {
      var k := FirstIndex(front, y);
      assert (front + [x])[k] == y;
      assert i <= k;
      assert front[i] == y;
    } else {
      assert i == |front|;
    }
  }

  // ------------------------------------------------------- tables after a run

  lemma DefinedStep(es: seq<Event>, e: Event)
    ensures Defined(es + [e]) == Defined(es) + (if e.Define? then [e.name] else [])
  {
    assert (es + [e])[..|es|] == es;
  }

  lemma GlobalsStep(es: seq<Event>, e: Event)
    ensures Globals(es + [e]) == Globals(es) + (if e.Global? then {e.name} else {})
  {
    assert (es + [e])[..|es|] == es;
  }

  lemma ApplyStep(t: Tables, es: seq<Event>, e: Event)
    ensures ApplyAll(t, es + [e]) == Apply(ApplyAll(t, es), e)
  {
    assert (es + [e])[..|es|] == es;
  }

  /** From the initial tables, the string table's keys are the defined
      names in order of first definition, the counter has moved past every
      definition's name (repetitions included), and every defined name is
      in both tables. */
  lemma {:induction false} KeysAfter(es: seq<Event>)
    ensures ApplyAll(InitialTables, es).keys == FirstOccurrences(Defined(es))
    ensures ApplyAll(InitialTables, es).stidx == 1 + NameBytes(Defined(es))
    ensures forall x :: x in ApplyAll(InitialTables, es).symbols <==> x in Defined(es)
    ensures forall x :: x in ApplyAll(InitialTables, es).strings <==> x in Defined(es)
  {
    if |es| > 0 {
      var front, e := es[..|es| - 1], es[|es| - 1];
      KeysAfter(front);
      assert es == front + [e];
      DefinedStep(front, e);
      ApplyStep(InitialTables, front, e);
      var d := Defined(front);
      if e.Define? {
        assert Defined(es) == d + [e.name];
        assert (d + [e.name])[..|d|] == d;
        assert FirstOccurrences(Defined(es)) == Insert(FirstOccurrences(d), e.name);
        assert NameBytes(Defined(es)) == NameBytes(d) + |Utf8(e.name)| + 1;
      } else {
        assert Defined(es) == d;
      }
    }
  }

  /** `.global` decides visibility: the externals are exactly the names
      declared global, and the locals are defined names, among them every
      defined name that is never declared global. */
  lemma {:induction false} VisibilityAfter(es: seq<Event>)
    ensures ApplyAll(InitialTables, es).ext == Globals(es)
    ensures forall x :: x in ApplyAll(InitialTables, es).loc ==> x in Defined(es)
    ensures forall x :: x in Defined(es) && x !in Globals(es) ==> x in ApplyAll(InitialTables, es).loc
  {
    if |es| > 0 {
      var front, e := es[..|es| - 1], es[|es| - 1];
      VisibilityAfter(front);
      assert es == front + [e];
      DefinedStep(front, e);
      GlobalsStep(front, e);
      ApplyStep(InitialTables, front, e);
    }
  }

  /** A run of `.global` directives alone (the second pass of either
      assembler) changes neither table nor the counter: it only removes the
      declared names from the locals and adds them to the externals. */
  lemma {:induction false} GlobalsOnly(t: Tables, es: seq<Event>)
    requires forall k :: 0 <= k < |es| ==> es[k].Global?
    ensures var u := ApplyAll(t, es);
      u.symbols == t.symbols && u.strings == t.strings && u.keys == t.keys && u.stidx == t.stidx
    ensures ApplyAll(t, es).loc == t.loc - Globals(es)
    ensures ApplyAll(t, es).ext == t.ext + Globals(es)
  {
    if |es| > 0 {
      var front := es[..|es| - 1];
      GlobalsOnly(t, front);
    }
  }

  /** After a first pass and a second pass that repeats its `.global`s, no
      name is both local and external; the locals are exactly the defined
      names never declared global. */
  lemma {:induction false} PassesDisjoint(first: seq<Event>, second: seq<Event>)
    requires forall k :: 0 <= k < |second| ==> second[k].Global?
    requires Globals(second) == Globals(first)
    ensures var u := ApplyAll(ApplyAll(InitialTables, first), second);
      u.loc * u.ext == {}
      && u.ext == Globals(first)
      && (forall x :: x in u.loc <==> x in Defined(first) && x !in Globals(first))
  {
    VisibilityAfter(first);
    GlobalsOnly(ApplyAll(InitialTables, first), second);
  }

  // ---------------------------------------------------------------- symbols

  /** One nlist entry of `_get_symbols`: the string offset and address of
      the name (KeyError when the name was never a label), section 1, and
      `N_EXT` OR-ed into the type of a name that is not local. */
  function Entry(t: Tables, name: string, nType: int): (r: Result<Obj>)
    ensures r.Ok? <==> name in t.strings && name in t.symbols
    ensures r.Err? ==> r.error == KeyError
    ensures r.Ok? ==> r.value == Nlist64(t.strings[name], if name in t.loc then nType else Or(nType, NExt), 1, 0, t.symbols[name])
  {
    if name !in t.strings || name !in t.symbols then Err(KeyError)
    else Ok(Nlist64(n_strx := t.strings[name], n_type := if name in t.loc then nType else Or(nType, NExt),
                    n_sect := 1, n_desc := 0, n_value := t.symbols[name]))
  }

  /** The loop of `_get_symbols` over the names in `order`. */
  function Entries(t: Tables, order: seq<string>, nType: int): Result<seq<Obj>> {
    if |order| == 0 then Ok([])
    else
      var front :- Entries(t, order[..|order| - 1], nType);
      var x :- Entry(t, order[|order| - 1], nType);
      Ok(front + [x])
  }

  /** The entries are built one per name, in order, and the list fails
      exactly when some name has no table entry. */
  lemma {:induction false} EntriesOk(t: Tables, order: seq<string>, nType: int)
    ensures Entries(t, order, nType).Ok? <==> forall i :: 0 <= i < |order| ==> Entry(t, order[i], nType).Ok?
    ensures Entries(t, order, nType).Err? ==> Entries(t, order, nType).error == KeyError
    ensures Entries(t, order, nType).Ok? ==> (|Entries(t, order, nType).value| == |order|
      && forall i :: 0 <= i < |order| ==> Entries(t, order, nType).value[i] == Entry(t, order[i], nType).value)
  {
    if |order| > 0 {
      var front := order[..|order| - 1];
      EntriesOk(t, front, nType);
      assert forall i :: 0 <= i < |front| ==> front[i] == order[i];
    }
  }

  lemma EntriesStep(t: Tables, order: seq<string>, i: nat, nType: int, res: seq<Obj>)
    requires i < |order| && Entries(t, order[..i], nType) == Ok(res) && Entry(t, order[i], nType).Ok?
    ensures Entries(t, order[..i + 1], nType) == Ok(res + [Entry(t, order[i], nType).value])
  {
    assert order[..i + 1][..i] == order[..i];
  }

  lemma EntriesStops(t: Tables, order: seq<string>, i: nat, nType: int)
    requires i < |order| && Entry(t, order[i], nType).Err?
    ensures Entries(t, order, nType) == Err(KeyError)
  {
    EntriesOk(t, order, nType);
  }

  /** `order` lists the members of `s`, each once. */
  ghost predicate Enumerates(order: seq<string>, s: set<string>) {
    NoDuplicates(order) && |order| == |s| && forall x :: x in order <==> x in s
  }

  /** `list(s)`: the members of a set in an order the model leaves open. */
  method ListOf(s: set<string>) returns (order: seq<string>)
    ensures Enumerates(order, s)
  {
    order := [];
    var rest := s;
    while rest != {}
      invariant rest <= s && NoDuplicates(order)
      invariant forall x :: x in order <==> x in s && x !in rest
      invariant |order| + |rest| == |s|
      decreases |rest|
    {
      var x :| x in rest;
      order := order + [x];
      rest := rest - {x};
    }
  }

  /** `_get_symbols`: every local, then every external, each as its nlist
      entry. The order within each group is that of Python's set
      iteration, which the model leaves open. */
  method GetSymbols(t: Tables, nType: int) returns (r: Result<seq<Obj>>, ghost order: seq<string>)
    ensures |order| == |t.loc| + |t.ext|
    ensures Enumerates(order[..|t.loc|], t.loc) && Enumerates(order[|t.loc|..], t.ext)
    ensures r == Entries(t, order, nType)
  {
    var locals := ListOf(t.loc);
    var externals := ListOf(t.ext);
    var names := locals + externals;
    assert names[..|t.loc|] == locals && names[|t.loc|..] == externals;
    order := names;
    var res: seq<Obj> := [];
    var i := 0;
    while i < |names|
      invariant 0 <= i <= |names|
      invariant Entries(t, names[..i], nType) == Ok(res)
    {
      var isLocal := names[i] in t.loc;
      if names[i] !in t.strings || names[i] !in t.symbols {
        EntriesStops(t, names, i, nType);
        return Err(KeyError), order;
      }
      var x := Nlist64(n_strx := t.strings[names[i]], n_type := nType, n_sect := 1, n_desc := 0,
                       n_value := t.symbols[names[i]]);
      if !isLocal {
        x := x.(n_type := Or(x.n_type, NExt));
      }
      EntriesStep(t, names, i, nType, res);
      res := res + [x];
      i := i + 1;
    }
    assert names[..i] == names;
    r := Ok(res);
  }

  /** With an even base type, OR-ing in `N_EXT` sets the lowest bit. */
  lemma ExtBit(nType: int)
    requires nType >= 0 && nType % 2 == 0
    ensures Or(nType, NExt) == nType + 1
  {
    OrLowBits(nType / 2, 1, 1);
  }

  /** With disjoint groups, the first `|loc|` names are the locals and the
      rest the externals. */
  lemma Sides(t: Tables, order: seq<string>)
    requires t.loc * t.ext == {}
    requires |order| == |t.loc| + |t.ext|
    requires Enumerates(order[..|t.loc|], t.loc) && Enumerates(order[|t.loc|..], t.ext)
    ensures forall i :: 0 <= i < |t.loc| ==> order[i] in t.loc
    ensures forall i :: |t.loc| <= i < |order| ==> order[i] in t.ext && order[i] !in t.loc
    ensures forall x :: x in t.loc + t.ext ==> x in order
  {
    var n := |t.loc|;
    forall i | 0 <= i < |order|
      ensures (i < n ==> order[i] in t.loc) && (i >= n ==> order[i] in t.ext && order[i] !in t.loc)
    {
      if i < n {
        assert order[..n][i] == order[i];
      } else {
        assert order[n..][i - n] == order[i];
        assert order[i] !in t.loc * t.ext;
      }
    }
    forall x | x in t.loc + t.ext
      ensures x in order
    {
      if x in t.loc {
        assert x in order[..n];
      } else {
        assert x in order[n..];
      }
    }
  }

  /** Once locals and externals are disjoint, `_get_symbols` lists the
      locals with the base type first and the externals with `N_EXT` after
      them; the list fails exactly when a symbol never got a table entry. */
  lemma {:induction false} SymbolsGrouped(t: Tables, order: seq<string>, nType: int)
    requires t.loc * t.ext == {}
    requires |order| == |t.loc| + |t.ext|
    requires Enumerates(order[..|t.loc|], t.loc) && Enumerates(order[|t.loc|..], t.ext)
    requires nType >= 0 && nType % 2 == 0
    ensures Entries(t, order, nType).Ok? <==> forall x :: x in t.loc + t.ext ==> x in t.strings && x in t.symbols
    ensures Entries(t, order, nType).Ok? ==> var syms := Entries(t, order, nType).value;
      |syms| == |t.loc| + |t.ext|
      && (forall i :: 0 <= i < |syms| ==> syms[i].Nlist64?)
      && (forall i :: 0 <= i < |t.loc| ==> syms[i].n_type == nType)
      && (forall i :: |t.loc| <= i < |syms| ==> syms[i].n_type == nType + 1)
  {
    EntriesOk(t, order, nType);
    ExtBit(nType);
    Sides(t, order);
    if Entries(t, order, nType).Ok? {
      forall x | x in t.loc + t.ext
        ensures x in t.strings && x in t.symbols
      {
        var i :| 0 <= i < |order| && order[i] == x;
        assert Entry(t, order[i], nType).Ok?;
      }
    }
  }

  // --------------------------------------------------------------- dysymtab

  datatype DysymtabArgs = DysymtabArgs(ilocalsym: int, nlocalsym: int, iextdefsym: int, nextdefsym: int, iundefsym: int)

  /** The keyword arguments of `add_dysymtab_lc`. */
  function DysymtabFor(t: Tables): DysymtabArgs {
    DysymtabArgs(ilocalsym := if |t.loc| > 0 then 0 else |t.ext|, nlocalsym := |t.loc|,
                 iextdefsym := |t.loc|, nextdefsym := |t.ext|, iundefsym := |t.loc| + |t.ext|)
  }

  /** The dysymtab ranges describe the list `_get_symbols` builds: an index
      is in the local range exactly when its entry has the base type, in the
      external range exactly when it has `N_EXT`, and `iundefsym` is the
      length of the list (there are no undefined symbols). With no locals
      the local range is empty and placed at the end of the list. */
  lemma {:induction false} DysymtabBrackets(t: Tables, order: seq<string>, nType: int)
    requires t.loc * t.ext == {}
    requires |order| == |t.loc| + |t.ext|
    requires Enumerates(order[..|t.loc|], t.loc) && Enumerates(order[|t.loc|..], t.ext)
    requires nType >= 0 && nType % 2 == 0
    requires Entries(t, order, nType).Ok?
    ensures var syms, dy := Entries(t, order, nType).value, DysymtabFor(t);
      dy.iundefsym == |syms|
      && (forall i :: 0 <= i < |syms| ==> syms[i].Nlist64?)
      && dy.iextdefsym + dy.nextdefsym == dy.iundefsym
      && (forall i :: 0 <= i < |syms| ==>
            (dy.ilocalsym <= i < dy.ilocalsym + dy.nlocalsym <==> syms[i].n_type == nType))
      && (forall i :: 0 <= i < |syms| ==>
            (dy.iextdefsym <= i < dy.iextdefsym + dy.nextdefsym <==> syms[i].n_type == nType + 1))
  {
    SymbolsGrouped(t, order, nType);
  }

  // ---------------------------------------------------------------- builder

  /** The arguments `dump` hands to the object builder, in call order:
      segment and section names, the section alignment, the build version,
      the dysymtab ranges, then code, symbols and string table. The builder
      itself is outside this model. */
  datatype BuilderCalls = BuilderCalls(segname: string, sectname: string, sectSegname: string, align: int,
                                       platform: int, minos: int, dysymtab: DysymtabArgs,
                                       code: seq<Byte>, symbols: seq<Obj>, strings: seq<string>)

  /** The builder calls of `dump`, given the symbol order `_get_symbols`
      iterates in; the only way they fail is a KeyError from `_get_symbols`. */
  function Calls(t: Tables, align: int, code: seq<Byte>, order: seq<string>, nType: int): (r: Result<BuilderCalls>)
    ensures r.Ok? <==> Entries(t, order, nType).Ok?
    ensures r.Err? ==> r.error == KeyError
    ensures r.Ok? ==> (r.value.align == align && r.value.code == code && r.value.strings == t.keys
      && r.value.symbols == Entries(t, order, nType).value && r.value.dysymtab == DysymtabFor(t))
  {
    EntriesOk(t, order, nType);
    var syms :- Entries(t, order, nType);
    Ok(BuilderCalls("__TEXT", "__text", "__TEXT", align, 1, 0xe0000, DysymtabFor(t), code, syms, t.keys))
  }
}
