/** A module from the compiler to the machine: generated, written to its object file, loaded and
    relocated, its code lies where the start of a program wants it. */
module ModuleFiles {
  import opened Words
  import opened Options
  import opened Machines
  import opened StmtLang
  import opened StmtGen
  import E = ExprProof
  import StmtParts
  import opened StartupRuns
  import opened ObjFile
  import opened ObjProof
  import opened Relocation
  import opened ModuleBodies
  import S = Startup
  import MCode

  /** A compiled module: what the generator hands over, the code of its procedures with the jump over
      it, its structured variables, and the sketch of its statements. */
  datatype Made = Made(u: Unit, mid: seq<byte>, structs: seq<S.Struct>, f: Flow)

  /** Nothing, or a jump over the code of procedures. */
  predicate Between(mid: seq<byte>) {
    mid == [] || (|mid| > 3 && mid[..3] == FarJump(0x19, |mid| - 1))
  }

  /** SGW2, the calls of the imports, and the statements, with module numbers as compiled. */
  function Tail(m: Made): seq<byte> {
    [0x52] + CompiledCalls(1, |m.u.imports| + 1) + Assemble(m.f, 0)
  }

  /** The code that `InitGenerator`, the procedures, `GenEndDecl` and the statements leave. */
  function CodeOf(m: Made): seq<byte> {
    Prologue(0) + (m.mid + StructsCode(m.structs) + Tail(m))
  }

  predicate Compiled(m: Made) {
    && Between(m.mid) && Addressed(m.structs) && m.u.code == CodeOf(m) && m.u.procs != [] && m.u.procs[0] == 0
    && m.u.rels == CallRels(9 + |m.mid| + |StructsCode(m.structs)|, 1, |m.u.imports| + 1) && |m.u.imports| < 0x100
  }

  /** RTN, and NOP behind it where the length is odd. */
  function Ending(m: Made): seq<byte> {
    if |m.u.code| % 2 == 0 then [0xEC, 0xDE] else [0xEC]
  }

  lemma {:induction false} FinalShape(m: Made)
    requires Compiled(m)
    ensures FinalCode(m.u) == Prologue(m.u.adr % 0x100) + (m.mid + StructsCode(m.structs) + Tail(m)) + Ending(m)
  {
    hide Tail, StructsCode, FinalCode;
    FinalIs(m.u);
    var a, b, rest := Prologue(0), Prologue(m.u.adr % 0x100), m.mid + StructsCode(m.structs) + Tail(m);
    var c := b + rest + Ending(m);
    assert m.u.code == a + rest;
    forall k | 0 <= k < |c|
      ensures FinalCode(m.u)[k] == c[k]
    {
      if k != 7 && k < |m.u.code| {
        assert m.u.code[k] == if k < 8 then a[k] else rest[k - 8];
      }
    }
  }

  // ------------------------------------------------------------------ loaded

  /** Where the parts of the loaded code are. */
  function PlaceOf(m: Made): Place
    requires 2 * |m.u.procs| + |m.u.code| + 1 < 0x1_0000 && Compiled(m)
  {
    var first := 2 * |m.u.procs| + 8 + |m.mid|;
    var cont := first + |StructsCode(m.structs)|;
    var body := cont + 1 + 3 * |m.u.imports|;
    Lengths(m);
    Place(first, cont, body, body + Size(m.f))
  }

  lemma {:induction false} Lengths(m: Made)
    requires Compiled(m)
    ensures |m.u.code| == 9 + |m.mid| + |StructsCode(m.structs)| + 3 * |m.u.imports| + Size(m.f)
  {
  }

  /** The code behind the table of entry points, with the places of the imports in the module table. */
  function LoadedCode(m: Made, places: seq<byte>): seq<byte> {
    Zeros(2 * |m.u.procs|, 0) + Prologue(m.u.adr % 0x100) + m.mid + StructsCode(m.structs) + [0x52] + ImportCalls(places)
    + (Assemble(m.f, 0) + Ending(m))
  }

  /** The module's part of a running program: its file read, its calls relocated, its entry points. */
  ghost predicate FromFile(p: MCode.Module, m: Made, places: seq<byte>, memory: seq<word>) {
    && Compiled(m) && Fits(m.u) && DataWords(m.u) <= |memory| && |places| == |m.u.imports|
    && match Parse(FileOf(m.u), Blank(), memory)
       case None => false
       case Some(s) => Fixed(s.code, s.fixups, places) == Some(p.code) && p.proc == TableOf(s.procs)
  }

  lemma {:induction false} LoadedShape(m: Made, places: seq<byte>)
    requires Compiled(m) && |places| == |m.u.imports| && SizesFit(m.u)
    ensures Fixed(Zeros(2 * |m.u.procs|, 0) + FinalCode(m.u), Shifted(m.u.rels, 2 * |m.u.procs|), places) == Some(LoadedCode(m, places))
  {
    FinalShape(m);
    Lengths(m);
    FinalIs(m.u);
    hide FinalCode, StructsCode, CompiledCalls, CallRels, ImportCalls, Assemble, Fixed, Compiled, SizesFit, Prologue, Shifted;
    var n, z, code, calls := 2 * |m.u.procs|, Zeros<byte>(2 * |m.u.procs|, 0), Assemble(m.f, 0), CompiledCalls(1, |m.u.imports| + 1);
    var pre := z + Prologue(m.u.adr % 0x100) + m.mid + StructsCode(m.structs) + [0x52];
    var post := code + Ending(m);
    assert Tail(m) == [0x52] + calls + code;
    Regrouped(z, Prologue(m.u.adr % 0x100), m.mid, StructsCode(m.structs), [0x52], calls, code, Ending(m));
    assert |m.u.code| + 1 <= |FinalCode(m.u)|;
    RelsMoved(m);
    CallsRelocated(pre, |m.u.imports| + 1, post, places, Shifted(m.u.rels, n));
  }

  lemma {:induction false} RelsMoved(m: Made)
    requires Compiled(m) && SizesFit(m.u)
    ensures |m.u.imports| < 0x100 && |Prologue(m.u.adr % 0x100)| == 8
    ensures Shifted(m.u.rels, 2 * |m.u.procs|) == CallRels(2 * |m.u.procs| + 9 + |m.mid| + |StructsCode(m.structs)|, 1, |m.u.imports| + 1)
    ensures 2 * |m.u.procs| + 9 + |m.mid| + |StructsCode(m.structs)| + 3 * |m.u.imports| < 0xFFFF
  {
    hide *;
    RelParts(m);
    MovedRels(m.u.rels, 9 + |m.mid| + |StructsCode(m.structs)|, |m.u.imports| + 1, 2 * |m.u.procs|);
  }

  lemma {:induction false} RelParts(m: Made)
    requires Compiled(m) && SizesFit(m.u)
    ensures m.u.rels == CallRels(9 + |m.mid| + |StructsCode(m.structs)|, 1, |m.u.imports| + 1)
    ensures |m.u.imports| < 0x100 && |Prologue(m.u.adr % 0x100)| == 8
    ensures 2 * |m.u.procs| + 9 + |m.mid| + |StructsCode(m.structs)| + 3 * |m.u.imports| < 0xFFFF
  {
    Lengths(m);
    PrologueLength(m.u.adr % 0x100);
    hide FinalCode, StructsCode, CallRels, Prologue, Between, CodeOf, DataWords, Assemble;
  }

  lemma {:induction false} MovedRels(rels: seq<word>, pc: nat, modno: nat, d: nat)
    requires rels == CallRels(pc, 1, modno) && d + pc + 3 * (modno - 1) < 0x1_0000
    ensures Shifted(rels, d) == CallRels(d + pc, 1, modno)
  {
    var a, b := Shifted(rels, d), CallRels(d + pc, 1, modno);
    forall k | 0 <= k < |b|
      ensures a[k] == b[k]
    {
      assert rels[k] == pc + 3 * k + 1;
    }
  }

  lemma {:induction false} Regrouped(z: seq<byte>, a: seq<byte>, b: seq<byte>, c: seq<byte>, d: seq<byte>, e: seq<byte>, f: seq<byte>, g: seq<byte>)
    ensures z + (a + (b + c + (d + e + f)) + g) == z + a + b + c + d + e + (f + g)
  {
  }

  /** What the loader leaves of the module. */
  lemma {:induction false} Loads(p: MCode.Module, m: Made, places: seq<byte>, memory: seq<word>)
    requires FromFile(p, m, places, memory)
    ensures p.code == LoadedCode(m, places) && |p.proc| == |m.u.procs| > 0 && p.proc[0] == 2 * |m.u.procs|
    ensures |p.code| < 0x1_0000 && 2 * |m.u.procs| + |m.u.code| + 1 < 0x1_0000 && Compiled(m) && |places| == |m.u.imports|
  {
    hide *;
    FileParts(p, m, places, memory);
    RoundTrip(m.u, memory);
    RebuiltParts(m.u, memory);
    LoadedShape(m, places);
    TableRebuilt(Shifted(m.u.procs, 2 * |m.u.procs|));
    FirstShifted(m.u.procs);
    LoadedLength(m, places);
  }

  lemma {:induction false} FileParts(p: MCode.Module, m: Made, places: seq<byte>, memory: seq<word>)
    requires FromFile(p, m, places, memory)
    ensures Compiled(m) && Fits(m.u) && SizesFit(m.u) && DataWords(m.u) <= |memory| && |places| == |m.u.imports|
    ensures var o := Parse(FileOf(m.u), Blank(), memory);
            o.Some? && Fixed(o.value.code, o.value.fixups, places) == Some(p.code) && p.proc == TableOf(o.value.procs)
    ensures m.u.procs != [] && m.u.procs[0] == 0 && 2 * |m.u.procs| + |FinalCode(m.u)| < 0x1_0000
  {
    hide Parse, Fixed, TableOf, FinalCode, FileOf, Prologue, StructsCode, CompiledCalls, CallRels, CodeOf, DataWords, NamesFit;
  }

  lemma {:induction false} RebuiltParts(u: Unit, memory: seq<word>)
    requires SizesFit(u) && DataWords(u) <= |memory|
    ensures var s := Rebuilt(u, memory);
            && s.code == Zeros(2 * |u.procs|, 0) + FinalCode(u) && s.procs == Numbered(0, Shifted(u.procs, 2 * |u.procs|))
            && s.fixups == Shifted(u.rels, 2 * |u.procs|)
  {
    hide FinalCode, SizesFit, LoadedData, StoredAll, Stored;
  }

  lemma {:induction false} FirstShifted(ws: seq<word>)
    requires ws != [] && ws[0] == 0 && 2 * |ws| < 0x1_0000
    ensures Shifted(ws, 2 * |ws|)[0] == 2 * |ws|
  {
  }

  lemma {:induction false} LoadedLength(m: Made, places: seq<byte>)
    requires Compiled(m) && |places| == |m.u.imports| && SizesFit(m.u)
    ensures |LoadedCode(m, places)| == 2 * |m.u.procs| + |FinalCode(m.u)| && |m.u.code| < |FinalCode(m.u)|
  {
    LoadedShape(m, places);
    hide FinalCode, LoadedCode, Compiled, SizesFit, Fixed;
  }

  /** The code of a module that was compiled, written, loaded and relocated lies where the start of a
      program wants it, and its statements lie behind its initialization. */
  lemma {:induction false} ModuleLaid(p: MCode.Module, m: Made, places: seq<byte>, memory: seq<word>, i: S.Init)
    requires FromFile(p, m, places, memory) && p.dataOfs == i.g && i.adr == m.u.adr % 0x100 && i.structs == m.structs && i.imports == places
    ensures 2 * |m.u.procs| + |m.u.code| + 1 < 0x1_0000 && Compiled(m)
    ensures Laid(p, i, PlaceOf(m))
    ensures CodeAt(p.code, PlaceOf(m).body, Assemble(m.f, 0) + [0xEC]) && 0 < PlaceOf(m).body
  {
    hide FromFile, LoadedCode, StructsCode, ImportCalls, Assemble, Prologue, Compiled, CodeAt, Bytes, Wrap;
    Loads(p, m, places, memory);
    PartsLie(p, m, places);
    CompiledParts(m);
    var at := PlaceOf(m);
    CodeAtParts(p.code, at.body, Assemble(m.f, 0), [0xEC]);
    if m.mid != [] {
      assert m.mid[..3] + m.mid[3..] == m.mid;
      CodeAtParts(p.code, p.proc[0] + 8, m.mid[..3], m.mid[3..]);
    }
  }

  lemma {:induction false} CompiledParts(m: Made)
    requires Compiled(m)
    ensures Between(m.mid) && Addressed(m.structs)
  {
  }

  lemma {:induction false} PartsLie(p: MCode.Module, m: Made, places: seq<byte>)
    requires p.code == LoadedCode(m, places) && |places| == |m.u.imports| && Compiled(m) && 2 * |m.u.procs| + |m.u.code| + 1 < 0x1_0000
    ensures var n, at := 2 * |m.u.procs|, PlaceOf(m);
            && CodeAt(p.code, n, Prologue(m.u.adr % 0x100)) && CodeAt(p.code, n + 8, m.mid) && CodeAt(p.code, at.first, StructsCode(m.structs))
            && CodeAt(p.code, at.cont, [0x52] + ImportCalls(places)) && CodeAt(p.code, at.body, Assemble(m.f, 0) + [0xEC])
  {
    hide StructsCode, ImportCalls, Assemble, Prologue, Compiled, CodeAt;
    var z, a, b, c, d, e, f := Zeros<byte>(2 * |m.u.procs|, 0), Prologue(m.u.adr % 0x100), m.mid, StructsCode(m.structs), [0x52],
                               ImportCalls(places), Assemble(m.f, 0);
    var h: seq<byte> := if |m.u.code| % 2 == 0 then [0xDE] else [];
    PrologueLength(m.u.adr % 0x100);
    assert Ending(m) == [0xEC] + h;
    RightGrouped(z, a, b, c, d, e, f, Ending(m), h);
    Laying(p.code, z, a, b, c, d + e, f + [0xEC], h);
  }

  lemma {:induction false} PrologueLength(adr: byte)
    ensures |Prologue(adr)| == 8
  {
  }

  lemma {:induction false} RightGrouped(z: seq<byte>, a: seq<byte>, b: seq<byte>, c: seq<byte>, d: seq<byte>, e: seq<byte>, f: seq<byte>, g: seq<byte>,
                                        h: seq<byte>)
    requires g == [0xEC] + h
    ensures z + a + b + c + d + e + (f + g) == z + (a + (b + (c + ((d + e) + ((f + [0xEC]) + h)))))
  {
  }

  /** Pieces of code, one behind the other. */
  lemma {:induction false} Laying(code: seq<byte>, z: seq<byte>, a: seq<byte>, b: seq<byte>, c: seq<byte>, d: seq<byte>, e: seq<byte>, h: seq<byte>)
    requires code == z + (a + (b + (c + (d + (e + h)))))
    ensures CodeAt(code, |z|, a) && CodeAt(code, |z| + |a|, b) && CodeAt(code, |z| + |a| + |b|, c) && CodeAt(code, |z| + |a| + |b| + |c|, d)
    ensures CodeAt(code, |z| + |a| + |b| + |c| + |d|, e)
  {
    assert CodeAt(code, 0, code);
    hide CodeAt;
    CodeAtParts(code, 0, z, a + (b + (c + (d + (e + h)))));
    CodeAtParts(code, |z|, a, b + (c + (d + (e + h))));
    CodeAtParts(code, |z| + |a|, b, c + (d + (e + h)));
    CodeAtParts(code, |z| + |a| + |b|, c, d + (e + h));
    CodeAtParts(code, |z| + |a| + |b| + |c|, d, e + h);
    CodeAtParts(code, |z| + |a| + |b| + |c| + |d|, e, h);
  }

  // -------------------------------------------------------------- a whole program

  /** The module's source fits the machine, with its variables in the data below base. */
  ghost predicate BodyFits(x: Source, g: word, base: nat, top: nat) {
    && E.WellLaid(x.env) && x.env.lev == 0 && x.env.bases == [g]
    && (forall v :: v in x.env.vars ==> E.Address(x.env, v) < base)
    && StmtLang.WellTyped(x.body, x.env.vars) && StmtParts.Fits(x.body, x.env) && ExitsStayInside(x.body, false)
    && top + StmtParts.StackWords(x.body) < MCode.MEM_SIZE
  }

  /** A module in the table: its file, what the start of programs knows of it, and its source. */
  datatype Entry = Entry(m: Made, places: seq<byte>, memory: seq<word>, x: Source)

  ghost predicate Linked(p: MCode.Module, e: Entry, i: S.Init, base: nat, top: nat) {
    && FromFile(p, e.m, e.places, e.memory) && p.dataOfs == i.g && i.adr == e.m.u.adr % 0x100 && i.structs == e.m.structs && i.imports == e.places
    && Sketch(e.x.body, 0) == Some(e.m.f) && BodyFits(e.x, p.dataOfs, base, top)
  }

  lemma {:induction false} ModuleReady(p: MCode.Module, e: Entry, i: S.Init, base: nat, top: nat) returns (at: Place)
    requires Linked(p, e, i, base, top)
    ensures Laid(p, i, at) && Compiles(p, at, e.x, base, top)
  {
    hide FromFile, CodeAt, Assemble, Sketch, Compiled, E.WellLaid, Laid;
    ModuleLaid(p, e.m, e.places, e.memory, i);
    at := PlaceOf(e.m);
    LaidSmall(p, i, at);
    assert BodyCode(e.x.body, 0) == Some(Assemble(e.m.f, 0) + [0xEC]);
  }

  lemma {:induction false} LaidSmall(p: MCode.Module, i: S.Init, at: Place)
    requires Laid(p, i, at)
    ensures |p.code| < 0x1_0000
  {
  }

  ghost predicate AllLinked(p: seq<MCode.Module>, es: seq<Entry>, inits: seq<S.Init>, base: nat, top: nat) {
    |p| == |es| == |inits| && forall k :: 0 < k < |p| ==> Linked(p[k], es[k], inits[k], base, top)
  }

  lemma {:induction false} AllReady(p: seq<MCode.Module>, es: seq<Entry>, inits: seq<S.Init>, base: nat, top: nat, n: nat) returns (places: seq<Place>)
    requires AllLinked(p, es, inits, base, top) && n <= |p|
    ensures |places| == n && forall k :: 0 < k < n ==> Laid(p[k], inits[k], places[k]) && Compiles(p[k], places[k], es[k].x, base, top)
    decreases n
  {
    hide Linked, Laid, Compiles;
    if n == 0 {
      places := [];
    } else {
      var before := AllReady(p, es, inits, base, top, n - 1);
      var at := Place(0, 0, 0, 0);
      if n > 1 {
        at := ModuleReady(p[n - 1], es[n - 1], inits[n - 1], base, top);
      }
      places := before + [at];
    }
  }

  function Sources(es: seq<Entry>): (xs: seq<Source>)
    ensures |xs| == |es| && forall k :: 0 <= k < |es| ==> xs[k] == es[k].x
  {
    seq(|es|, k requires 0 <= k < |es| => es[k].x)
  }

  /** The data that the loader has read from the module's file stands in memory at the module's frame. */
  ghost predicate DataThere(mem: MCode.memory, g: word, e: Entry) {
    match Parse(FileOf(e.m.u), Blank(), e.memory)
    case None => false
    case Some(s) => g + |s.data| <= MCode.MEM_SIZE && forall j :: 0 <= j < |s.data| ==> mem[g + j] == s.data[j]
  }

  /** Loading leaves every flag at 0: no module counts as started. */
  lemma {:induction false} LoadedFresh(p: seq<MCode.Module>, es: seq<Entry>, inits: seq<S.Init>, base: nat, top: nat, mem: MCode.memory)
    requires AllLinked(p, es, inits, base, top) && base <= MCode.MEM_SIZE && forall k :: 0 <= k < |p| ==> S.FlagOf(inits, k) < base
    requires forall k :: 0 < k < |p| ==> DataThere(mem, inits[k].g, es[k])
    requires |p| > 0 ==> mem[S.FlagOf(inits, 0)] == 0
    ensures S.Fresh(inits, mem[..base])
  {
    hide Linked, DataThere;
    forall k | 0 <= k < |inits|
      ensures mem[S.FlagOf(inits, k)] == 0
    {
      if k > 0 {
        FlagCleared(p[k], es[k], inits[k], base, top, mem);
      }
    }
  }

  lemma {:induction false} FlagCleared(p: MCode.Module, e: Entry, i: S.Init, base: nat, top: nat, mem: MCode.memory)
    requires Linked(p, e, i, base, top) && DataThere(mem, i.g, e)
    ensures i.g + 1 < MCode.MEM_SIZE && mem[i.g + 1] == 0
  {
    hide Parse, FileOf, BodyFits, Compiled, Fixed, IsData, Sketch;
    DataDelivered(e.m.u, e.memory);
    WordsOneTwo(e.m.u, e.memory, Parse(FileOf(e.m.u), Blank(), e.memory).value.data);
  }

  lemma {:induction false} WordsOneTwo(u: Unit, memory: seq<word>, d: seq<word>)
    requires IsData(u, memory, d)
    ensures |d| >= 3 && d[1] == 0 && d[2] == 0
  {
  }

  /** A program whose modules were all compiled, written to object files, loaded and relocated: started
      from any of them, the machine comes to a halt with the data that the modules' sources end with on
      the walk over the imports. */
  lemma {:induction false} FilesRun(p: seq<MCode.Module>, es: seq<Entry>, inits: seq<S.Init>, base: nat, top: nat, mem: MCode.memory, m: nat)
    returns (end: MCode.State)
    requires AllLinked(p, es, inits, base, top) && |p| <= 0x100 && base <= top <= 0xFE00 && S.Apart(inits, base)
    requires 0 < m < |p| && S.Fresh(inits, mem[..base]) && base + 4 + 4 * |inits| <= top
    requires Separate(inits, Sources(es)) && AllHold(Sources(es), mem[..base])
    requires Finishing(inits, Sources(es), S.Visit(inits, S.Walk(mem[..base], [], []), m).starts)
    ensures |p[m].proc| > 0 && Leads(p)(Started(p, mem, base, m), Some(end)) && Halted(end)
    ensures end.mem[..base] == S.Visit(inits, S.Walk(mem[..base], [], []), m).data
  {
    hide Leads, Separate, AllHold, Compiles, Laid, Finishing, Linked;
    var places := AllReady(p, es, inits, base, top, |p|);
    end := ProgramRuns(p, inits, places, Sources(es), base, top, mem, m);
  }
}
