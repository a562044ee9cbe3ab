/** The code generator at the end of a module's declarations: space for structured variables, and the
    calls of the imports. */
module StartupGen {
  import opened Words
  import opened Options
  import opened Emitter
  import opened Startup
  import opened StartupRuns
  import opened Relocation
  import StmtGen
  import G = ExprGen

  /** What one structured variable adds to the code. */
  lemma {:induction false} StructGrows(a: Progress, x: Struct)
    requires x.vadr >= 2
    ensures G.OpArg(0x50, x.vadr).Some?
    ensures var b := Grow(Grow(a, [0xB5], 1, 1), G.OpArg(0x50, x.vadr).value, -1, -1);
            var c := if x.size < 0x100 then Grow(Grow(b, [0x16], 0, 0), [x.size], 0, 0)
                     else Grow(Grow(b, G.LitCode(x.size), 1, 1), [0xB8], -1, 0);
            c == Grow(a, StructCode(x), 0, 1)
  {
    hide Grow, G.LitCode;
    var store := G.OpArg(0x50, x.vadr).value;
    GrowTwice(a, [0xB5], 1, 1, store, -1, -1);
    var two := [0xB5] + store;
    if x.size < 0x100 {
      GrowTwice(a, two, 0, 1, [0x16], 0, 0);
      GrowTwice(a, two + [0x16], 0, 1, [x.size], 0, 0);
      assert two + [0x16] + [x.size] == two + [0x16, x.size];
    } else {
      var lit := G.LitCode(x.size);
      GrowTwice(a, two, 0, 1, lit, 1, 1);
      GrowTwice(a, two + lit, 1, 1, [0xB8], -1, 0);
      assert two + lit + [0xB8] == two + (lit + [0xB8]);
    }
  }

  method PutStruct(g: Generator, x: Struct)
    requires g.Valid() && x.vadr >= 2
    modifies g`pc, g`sp, g`failed, g.code
    ensures g.Appended(StructCode(x), 0, 1)
  {
    hide Grow, StructCode, G.OpArg, G.LitCode;
    StructGrows(g.Now(), x);
    g.PutOpU(0xB5);
    g.PutOpArg(0x50, x.vadr, -1);
    if x.size < 0x100 {
      g.PutOpZ(0x16);
      g.PutByte(x.size);
    } else {
      g.PutLit(x.size);
      g.PutOpD(0xB8);
    }
  }

  function Peak(ss: seq<Struct>): nat {
    if ss == [] then 0 else 1
  }

  /** `scanlist1` for a module's own variables; what it adds to `datasize`. */
  method ScanList(g: Generator, ss: seq<Struct>) returns (space: nat)
    requires g.Valid() && Addressed(ss)
    modifies g`pc, g`sp, g`failed, g.code
    ensures g.Appended(StructsCode(ss), 0, Peak(ss)) && space == Sizes(ss)
  {
    hide Grow, StructCode, StructsCode, Sizes;
    space := 0;
    var k := 0;
    assert ss[0..] == ss;
    while k < |ss|
      invariant k <= |ss| && g.Valid() && space + Sizes(ss[k..]) == Sizes(ss)
      invariant Grow(g.Now(), StructsCode(ss[k..]), 0, Peak(ss[k..])) == Grow(old(g.Now()), StructsCode(ss), 0, Peak(ss))
    {
      OneScanned(g.Now(), ss, k);
      PutStruct(g, ss[k]);
      space := space + ss[k].size;
      k := k + 1;
    }
    NoneLeft(g.Now(), ss[k..]);
  }

  lemma {:induction false} OneScanned(a: Progress, ss: seq<Struct>, k: nat)
    requires k < |ss|
    ensures Sizes(ss[k..]) == ss[k].size + Sizes(ss[k + 1..])
    ensures Grow(a, StructsCode(ss[k..]), 0, Peak(ss[k..])) == Grow(Grow(a, StructCode(ss[k]), 0, 1), StructsCode(ss[k + 1..]), 0, Peak(ss[k + 1..]))
  {
    hide Grow, StructCode;
    assert ss[k..][0] == ss[k] && ss[k..][1..] == ss[k + 1..];
    GrowTwice(a, StructCode(ss[k]), 0, 1, StructsCode(ss[k + 1..]), 0, Peak(ss[k + 1..]));
  }

  lemma {:induction false} NoneLeft(a: Progress, ss: seq<Struct>)
    requires ss == [] && (a.At? ==> |a.out| <= CODE_LENGTH && a.sp <= StmtGen.STACK_DEPTH)
    ensures Grow(a, StructsCode(ss), 0, Peak(ss)) == a && Sizes(ss) == 0
  {
    assert a.At? ==> a.out + [] == a.out;
  }

  /** `GenEndDecl` for a module without inner modules: the structured variables, SGW2, and a call of
      every import, each noted for relocation. An error is reported exactly when there is no room for
      the code, for a word on the stack or for the relocations. */
  method GenEndDecl(g: Generator, t: RelocTable, ss: seq<Struct>, modno: nat) returns (space: nat)
    requires g.Valid() && t.Valid() && t.tab != g.code as object && Addressed(ss)
    modifies g`pc, g`sp, g`failed, g.code, t`relx, t.tab
    ensures g.Valid() && t.Valid() && space == Sizes(ss)
    ensures g.failed <==>
              || old(g.failed) || old(g.pc) + |StructsCode(ss)| + 1 + 3 * Imported(modno) > CODE_LENGTH
              || old(g.sp) + Peak(ss) > StmtGen.STACK_DEPTH || old(t.relx) + Imported(modno) > REL_TAB_LENGTH
    ensures !g.failed ==> !old(g.failed) && g.sp == 0 && g.Out() == old(g.Out()) + (StructsCode(ss) + [0x52] + CompiledCalls(1, modno))
    ensures !g.failed ==> t.Rels() == old(t.Rels()) + CallRels(old(g.pc) + |StructsCode(ss)| + 1, 1, modno)
  {
    hide StructsCode, CompiledCalls, CallRels, Sizes;
    ghost var out := g.Out();
    space := ScanList(g, ss);
    g.PutOpZ(0x52);
    assert !g.failed ==> g.Out() == out + StructsCode(ss) + [0x52];
    t.CallImports(g, modno);
    assert out + StructsCode(ss) + [0x52] + CompiledCalls(1, modno) == out + (StructsCode(ss) + [0x52] + CompiledCalls(1, modno));
    g.sp := 0;
  }
}
