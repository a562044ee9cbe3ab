/** The generator at work on a whole module: prologue, the code of its procedures, its initialization,
    its statements, and its object file. */
module ModuleGen {
  import opened Words
  import opened Options
  import opened Emitter
  import opened StmtLang
  import opened StmtGen
  import opened Placing
  import opened Exits
  import opened Loops
  import opened Statements
  import opened AcceptedStmts
  import opened Relocation
  import opened StartupRuns
  import opened StartupGen
  import opened ModuleFiles
  import opened ObjStreams
  import O = ObjFile
  import S = Startup

  /** What the code of procedures becomes: nothing is left of the jump when there are none. */
  function Mid(q: seq<byte>): seq<byte> {
    if q == [] then [] else FarJump(0x19, |q| + 2) + q
  }

  /** `fixupC`: the word at loc becomes the distance to here, or the jump is taken back when nothing has
      been put behind it. */
  method FixupC(g: Generator, loc: nat, ghost out: seq<byte>, ghost q: seq<byte>)
    requires g.Valid() && (!g.failed ==> g.Out() == out + [0x19, 0, 0] + q && loc == |out| + 1)
    modifies g`pc, g`failed, g.code
    ensures g.Valid() && g.failed == old(g.failed) && g.sp == old(g.sp) && (!g.failed ==> g.Out() == out + Mid(q))
  {
    if g.failed {
      return;
    }
    hide Patch, Bytes, Wrap, Grow;
    if loc + 2 < g.pc {
      PatchedJump(out, q);
      g.Fixup(loc);
    } else {
      g.pc := g.pc - 3;
      assert g.Out() == out;
    }
  }

  lemma {:induction false} PatchedJump(out: seq<byte>, q: seq<byte>)
    ensures Patch(out + [0x19, 0, 0] + q, |out| + 1, |q| + 2) == out + (FarJump(0x19, |q| + 2) + q)
  {
    var w := Wrap(|q| + 2);
    hide Wrap;
    assert FarJump(0x19, |q| + 2) == [0x19, w / 0x100, w % 0x100];
  }

  /** Code that has been generated before. */
  method PutCode(g: Generator, q: seq<byte>)
    requires g.Valid()
    modifies g`pc, g`failed, g.code
    ensures g.Appended(q, 0, 0)
  {
    hide Grow;
    var k := 0;
    assert q[0..] == q;
    while k < |q|
      invariant 0 <= k <= |q| && g.Valid() && Grow(g.Now(), q[k..], 0, 0) == Grow(old(g.Now()), q, 0, 0)
    {
      ghost var a := g.Now();
      GrowTwice(a, [q[k]], 0, 0, q[k + 1..], 0, 0);
      assert [q[k]] + q[k + 1..] == q[k..];
      g.PutByte(q[k]);
      k := k + 1;
    }
    GrowNothing(g.Now(), q[k..]);
  }

  lemma {:induction false} GrowNothing(a: Progress, c: seq<byte>)
    requires c == [] && (a.At? ==> |a.out| <= CODE_LENGTH && a.sp <= STACK_DEPTH)
    ensures Grow(a, c, 0, 0) == a
  {
    assert a.At? ==> a.out + [] == a.out;
  }

  /** The prologue, and the procedures with the jump over them. */
  method Head(g: Generator, q: seq<byte>)
    requires g.Valid() && !g.failed && g.Out() == [] && g.sp == 0
    modifies g`pc, g`sp, g`failed, g.code
    ensures g.Valid() && (g.failed <==> 11 + |q| > CODE_LENGTH)
    ensures !g.failed ==> g.sp == 0 && g.Out() == Prologue(0) + Mid(q)
  {
    hide Mid, Prologue, Grow;
    ghost var a := g.Now();
    InitGenerator(g);
    Grown(a, g.Now(), Prologue(0), 0, 0);
    ghost var b := g.Now();
    var loc := g.GenFJ();
    Grown(b, g.Now(), [0x19, 0, 0], 0, 0);
    ghost var c := g.Now();
    PutCode(g, q);
    Grown(c, g.Now(), q, 0, 0);
    assert [] + Prologue(0) == Prologue(0);
    PrologueLength(0);
    FixupC(g, loc, Prologue(0), q);
  }

  /** The bytes before a module's statements: the prologue, its procedures behind a jump, its
      structured variables, SGW2, and the calls of its imports. */
  function FrontLength(q: seq<byte>, ss: seq<S.Struct>, modno: nat): nat {
    8 + |Mid(q)| + |StructsCode(ss)| + 1 + 3 * Imported(modno)
  }

  predicate FrontFits(q: seq<byte>, ss: seq<S.Struct>, modno: nat) {
    11 + |q| <= CODE_LENGTH && FrontLength(q, ss, modno) <= CODE_LENGTH && Imported(modno) <= REL_TAB_LENGTH
  }

  /** Everything before the module's statements. */
  method Front(g: Generator, t: RelocTable, ss: seq<S.Struct>, q: seq<byte>, modno: nat) returns (space: nat)
    requires g.Valid() && !g.failed && g.Out() == [] && g.sp == 0 && t.Valid() && t.Rels() == [] && t.tab != g.code as object && Addressed(ss)
    modifies g`pc, g`sp, g`failed, g.code, t`relx, t.tab
    ensures g.Valid() && t.Valid() && space == S.Sizes(ss)
    ensures g.failed <==> !FrontFits(q, ss, modno)
    ensures !g.failed ==> g.pc == FrontLength(q, ss, modno)
    ensures !g.failed ==> g.sp == 0 && g.Out() == Prologue(0) + Mid(q) + (StructsCode(ss) + [0x52] + CompiledCalls(1, modno))
    ensures !g.failed ==> t.Rels() == CallRels(9 + |Mid(q)| + |StructsCode(ss)|, 1, modno)
  {
    hide StructsCode, CompiledCalls, CallRels, Mid, Prologue, S.Sizes, Grow;
    Head(g, q);
    space := GenEndDecl(g, t, ss, modno);
    PrologueLength(0);
  }

  lemma {:induction false} Grown(a: Progress, b: Progress, c: seq<byte>, d: int, peak: int)
    requires b == Grow(a, c, d, peak)
    ensures b.At? ==> a.At? && b.out == a.out + c && b.sp == a.sp + d
    ensures b.Stopped? <==> a.Stopped? || |a.out| + |c| > CODE_LENGTH || a.sp + peak > STACK_DEPTH
  {
  }

  /** Positions as the words of the object file. */
  function AsWords(s: seq<nat>): (ws: seq<word>)
    ensures |ws| == |s| && forall k :: 0 <= k < |s| ==> ws[k] == Wrap(s[k])
  {
    seq(|s|, k requires 0 <= k < |s| => Wrap(s[k]))
  }

  lemma {:induction false} RelsAreWords(pc: nat, modno: nat)
    requires pc + 3 * modno < 0x1_0000
    ensures AsWords(CallRels(pc, 1, modno)) == CallRels(pc, 1, modno)
  {
  }

  /** A whole module. An error is reported exactly when there is no room for what comes before its
      statements, or these are not accepted. Without an error its object file is that of the compiled
      module, which the loader makes code of that lies as the start of a program wants it. */
  method CompileModule(g: Generator, l: LoopStack, t: RelocTable, o: CodeFile, id: O.Id, adr: word, strs: seq<byte>,
                       imports: seq<O.Id>, structs: seq<S.Struct>, q: seq<byte>, entries: seq<word>, body: Stmt) returns (u: O.Unit)
    requires Steady(g, l) && !g.failed && g.Out() == [] && g.curLev == 0 && l.h == 0 && l.k == 0
    requires VarsVisible(body, 0) && LoopDepth(body) <= LOOP_LEVELS && Addressed(structs)
    requires t.Valid() && t.Rels() == [] && t.tab != g.code as object && t.tab != l.exits && t.tab != l.index && |imports| < 0x100
    requires o.out == [] && |id.key| == 3 && forall k :: 0 <= k < |imports| ==> |imports[k].key| == 3
    modifies g, g.code, l, l.index, l.exits, t, t.tab, o
    ensures u.id == id && u.adr == adr && u.datasize == Wrap(S.Sizes(structs)) && u.strs == strs && u.imports == imports && u.procs == [0] + entries
    ensures g.Valid()
    ensures var at := FrontLength(q, structs, |imports| + 1);
            && (g.failed <==> !(FrontFits(q, structs, |imports| + 1) && Accepted(body, 0, at)))
            && (Typable(body) ==>
                  (g.failed <==> !(FrontFits(q, structs, |imports| + 1) && Acceptable(body, 0) && ExitsHeld(body, 0, 0)
                                   && BodyCode(body, 0).Some? && at + |BodyCode(body, 0).value| <= 11001)))
    ensures !g.failed ==> Sketch(body, 0).Some? && Compiled(Made(u, Mid(q), structs, Sketch(body, 0).value)) && o.out == O.FileOf(u)
  {
    hide Open, Assemble, Sketch, Size, ExitsFit, VarsVisible, LoopDepth, Holes, Compiled, O.FileOf, StructsCode, CompiledCalls, CallRels,
         Mid, Prologue, Typable, Acceptable, ExitsHeld, FrontFits, FrontLength;
    if Typable(body) {
      AcceptedWhen(body, 0, FrontLength(q, structs, |imports| + 1));
    }
    var space := Front(g, t, structs, q, |imports| + 1);
    ghost var p, f, rels := g.Now(), Sketch(body, 0), t.Rels();
    StatSeq(g, l, body);
    if !g.failed {
      AcceptedIsResolved(f.value, 0);
      assert t.Rels() == rels;
    }
    var positions := t.tab[..t.relx];
    u := O.Unit(id, adr, Wrap(space), strs, imports, [0] + entries, g.code[..g.pc], AsWords(positions));
    if !g.failed {
      IsCompiled(u, q, structs, f.value);
      o.OutCodeFile(u);
    }
  }

  lemma {:induction false} IsCompiled(u: O.Unit, q: seq<byte>, structs: seq<S.Struct>, f: Flow)
    requires Addressed(structs) && |u.imports| < 0x100 && u.procs != [] && u.procs[0] == 0 && |u.code| <= CODE_LENGTH
    requires u.code == Prologue(0) + Mid(q) + (StructsCode(structs) + [0x52] + CompiledCalls(1, |u.imports| + 1)) + Assemble(f, 0)
    requires u.rels == AsWords(CallRels(9 + |Mid(q)| + |StructsCode(structs)|, 1, |u.imports| + 1))
    ensures Compiled(Made(u, Mid(q), structs, f))
  {
    hide StructsCode, CompiledCalls, CallRels, Assemble, Mid, Prologue, Between;
    PrologueLength(0);
    MidBetween(q);
    CallsLength(|u.imports|);
    Grouped(Prologue(0), Mid(q), StructsCode(structs), [0x52], CompiledCalls(1, |u.imports| + 1), Assemble(f, 0));
    RelsAreWords(9 + |Mid(q)| + |StructsCode(structs)|, |u.imports| + 1);
  }

  lemma {:induction false} Grouped(a: seq<byte>, b: seq<byte>, c: seq<byte>, d: seq<byte>, e: seq<byte>, f: seq<byte>)
    ensures a + b + (c + d + e) + f == a + (b + c + (d + e + f))
  {
  }

  lemma {:induction false} MidBetween(q: seq<byte>)
    ensures Between(Mid(q))
  {
    if q != [] {
      assert |FarJump(0x19, |q| + 2)| == 3;
      assert Mid(q)[..3] == FarJump(0x19, |q| + 2);
    }
  }

  lemma {:induction false} CallsLength(n: nat)
    ensures |CompiledCalls(1, n + 1)| == 3 * n
  {
  }
}
