/** Relocation: the module numbers in loaded code become places in the module table. */
module Relocation {
  import opened Words
  import opened Options
  import opened Emitter
  import opened StmtGen
  import ObjFile
  import StartupRuns

  const REL_TAB_LENGTH: nat := 1000

  /** Instructions whose first operand byte is a module number. */
  predicate Relocatable(op: byte) {
    op in {0x12, 0x23, 0x33, 0x17, 0x22, 0x32, 0xED}
  }

  /** The byte at loc can be relocated: it follows such an instruction and numbers an import. */
  predicate Sound(code: seq<byte>, loc: word, imports: nat) {
    1 <= loc < |code| && Relocatable(code[loc - 1]) && 1 <= code[loc] <= imports
  }

  /** One relocation after the other; None when the loader reports an error. */
  function Fixed(code: seq<byte>, locs: seq<word>, places: seq<byte>): (r: Option<seq<byte>>)
    ensures r.Some? ==> |r.value| == |code|
    decreases |locs|
  {
    if locs == [] then Some(code)
    else if !Sound(code, locs[0], |places|) then None
    else Fixed(code[locs[0] := places[code[locs[0]] - 1]], locs[1..], places)
  }

  /** No relocated byte is next to another one: instructions lie between them. */
  predicate Spaced(locs: seq<word>) {
    forall j, k :: 0 <= j < k < |locs| ==> locs[j] as int + 1 < locs[k] as int
  }

  predicate AllSound(code: seq<byte>, locs: seq<word>, imports: nat) {
    forall k :: 0 <= k < |locs| ==> Sound(code, locs[k], imports)
  }

  /** Changing a relocated byte changes nothing that the later relocations look at. */
  lemma {:induction false} StillSound(code: seq<byte>, locs: seq<word>, imports: nat, x: byte)
    requires Spaced(locs) && locs != [] && Sound(code, locs[0], imports)
    ensures Spaced(locs[1..]) && AllSound(code[locs[0] := x], locs[1..], imports) == AllSound(code, locs, imports)
  {
    var one, rest := code[locs[0] := x], locs[1..];
    forall k | 0 <= k < |rest|
      ensures Sound(one, rest[k], imports) == Sound(code, rest[k], imports)
    {
      assert locs[0] as int + 1 < locs[k + 1] as int;
    }
    if AllSound(one, rest, imports) {
      forall k | 0 <= k < |locs|
        ensures Sound(code, locs[k], imports)
      {
        if k > 0 {
          assert Sound(one, rest[k - 1], imports);
        }
      }
    }
    if AllSound(code, locs, imports) {
      forall k | 0 <= k < |rest|
        ensures Sound(one, rest[k], imports)
      {
        assert Sound(code, locs[k + 1], imports);
      }
    }
  }

  /** Relocation succeeds if and only if every relocated byte can be relocated. */
  lemma {:induction false} FixedWhen(code: seq<byte>, locs: seq<word>, places: seq<byte>)
    requires Spaced(locs)
    ensures Fixed(code, locs, places).Some? <==> AllSound(code, locs, |places|)
    decreases |locs|
  {
    if locs != [] && Sound(code, locs[0], |places|) {
      var x := places[code[locs[0]] - 1];
      StillSound(code, locs, |places|, x);
      FixedWhen(code[locs[0] := x], locs[1..], places);
    }
  }

  /** It changes exactly the relocated bytes, each to the place of the import it numbers. */
  lemma {:induction false} FixedExactly(code: seq<byte>, locs: seq<word>, places: seq<byte>, i: nat)
    requires Spaced(locs) && Fixed(code, locs, places).Some? && i < |code|
    ensures i in locs ==> 1 <= code[i] <= |places| && Fixed(code, locs, places).value[i] == places[code[i] - 1]
    ensures i !in locs ==> Fixed(code, locs, places).value[i] == code[i]
    decreases |locs|
  {
    if locs != [] {
      var one, rest := code[locs[0] := places[code[locs[0]] - 1]], locs[1..];
      StillSound(code, locs, |places|, one[locs[0]]);
      FixedExactly(one, rest, places, i);
      assert i in locs <==> i == locs[0] || i in rest;
      assert locs[0] !in rest;
    }
  }

  /** `le_fix_extcalls` for one module: entry points into the procedure table, then the code in
      place. */
  method FixExtCalls(code: array<byte>, procs: seq<ObjFile.Proc>, locs: seq<word>, places: seq<byte>) returns (ok: bool, ptab: array<word>)
    requires procs != []
    modifies code
    ensures fresh(ptab) && ptab[..] == TableOf(procs)
    ensures ok == Fixed(old(code[..]), locs, places).Some?
    ensures ok ==> code[..] == Fixed(old(code[..]), locs, places).value
  {
    ptab := ProcTable(procs);
    ok := true;
    var i := 0;
    ghost var was := code[..];
    assert locs[0..] == locs;
    while i < |locs| && ok
      invariant 0 <= i <= |locs| && (ok ==> Fixed(code[..], locs[i..], places) == Fixed(was, locs, places))
      invariant !ok ==> Fixed(was, locs, places) == None
      invariant fresh(ptab) && ptab[..] == TableOf(procs)
    {
      var loc := locs[i];
      assert locs[i..][0] == loc && locs[i..][1..] == locs[i + 1..];
      if loc == 0 || loc >= code.Length || !Relocatable(code[loc - 1]) || code[loc] == 0 || code[loc] > |places| {
        ok := false;
      } else {
        ghost var before := code[..];
        code[loc] := places[code[loc] - 1];
        assert code[..] == before[loc := places[before[loc] - 1]];
      }
      i := i + 1;
    }
    if ok {
      assert locs[i..] == [] && Fixed(code[..], [], places) == Some(code[..]);
    }
  }

  function TableSize(procs: seq<ObjFile.Proc>): nat {
    if procs == [] then 0
    else
      var n := TableSize(procs[..|procs| - 1]);
      if procs[|procs| - 1].idx >= n then procs[|procs| - 1].idx + 1 else n
  }

  /** The list is worked off from its end, so that the first entry for an index is the last one
      stored. */
  function Filled(t: seq<word>, procs: seq<ObjFile.Proc>): (r: seq<word>)
    ensures |r| == |t|
    decreases |procs|
  {
    if procs == [] then t
    else
      var p := procs[|procs| - 1];
      Filled(if p.idx < |t| then t[p.idx := p.entry] else t, procs[..|procs| - 1])
  }

  function TableOf(procs: seq<ObjFile.Proc>): seq<word> {
    Filled(ObjFile.Zeros<word>(TableSize(procs), 0), procs)
  }

  method ProcTable(procs: seq<ObjFile.Proc>) returns (ptab: array<word>)
    ensures fresh(ptab) && ptab[..] == TableOf(procs)
  {
    var n, k := 0, 0;
    while k < |procs|
      invariant 0 <= k <= |procs| && n == TableSize(procs[..k])
    {
      assert procs[..k + 1][..k] == procs[..k];
      if procs[k].idx >= n {
        n := procs[k].idx + 1;
      }
      k := k + 1;
    }
    assert procs[..k] == procs;
    ptab := new word[n](_ => 0);
    assert ptab[..] == ObjFile.Zeros<word>(n, 0);
    while k > 0
      invariant 0 <= k <= |procs| && ptab.Length == n && fresh(ptab) && Filled(ptab[..], procs[..k]) == TableOf(procs)
    {
      k := k - 1;
      assert procs[..k + 1][..k] == procs[..k];
      ghost var before := ptab[..];
      if procs[k].idx < n {
        ptab[procs[k].idx] := procs[k].entry;
        assert ptab[..] == before[procs[k].idx := procs[k].entry];
      }
    }
  }

  /** The table of a loaded module holds its entry points, in the order of their numbers. */
  lemma {:induction false} TableRebuilt(es: seq<word>)
    requires |es| < 0x1_0000
    ensures TableOf(ObjFile.Numbered(0, es)) == es
  {
    var ps := ObjFile.Numbered(0, es);
    SizeNumbered(es, |es|);
    assert ps[..|es|] == ps;
    FilledNumbered(ObjFile.Zeros<word>(|es|, 0), es, |es|);
  }

  lemma {:induction false} SizeNumbered(es: seq<word>, n: nat)
    requires n <= |es| < 0x1_0000
    ensures TableSize(ObjFile.Numbered(0, es)[..n]) == n
  {
    if n > 0 {
      SizeNumbered(es, n - 1);
      var ps := ObjFile.Numbered(0, es);
      assert ps[..n][..n - 1] == ps[..n - 1] && ps[..n][n - 1] == ObjFile.Proc(n - 1, es[n - 1]);
    }
  }

  lemma {:induction false} FilledNumbered(t: seq<word>, es: seq<word>, n: nat)
    requires n <= |es| == |t| && |es| < 0x1_0000
    ensures Filled(t, ObjFile.Numbered(0, es)[..n]) == es[..n] + t[n..]
    decreases n
  {
    var ps := ObjFile.Numbered(0, es);
    if n > 0 {
      assert ps[..n][..n - 1] == ps[..n - 1] && ps[..n][n - 1] == ObjFile.Proc(n - 1, es[n - 1]);
      FilledNumbered(t[n - 1 := es[n - 1]], es, n - 1);
      assert es[..n - 1] + t[n - 1 := es[n - 1]][n - 1..] == es[..n] + t[n..];
    } else {
      assert es[..0] + t[0..] == t;
    }
  }

  // -------------------------------------------------------- calls of the imports

  /** CLX for the modules numbered s and up, as compiled. */
  function CompiledCalls(s: nat, modno: nat): (c: seq<byte>)
    ensures |c| == if s < modno then 3 * (modno - s) else 0
    decreases modno - s
  {
    if s >= modno then [] else [0xED, s % 0x100, 0] + CompiledCalls(s + 1, modno)
  }

  /** Where the module numbers of these calls stand. */
  function CallRels(pc: nat, s: nat, modno: nat): (r: seq<nat>)
    ensures |r| == if s < modno then modno - s else 0
    ensures forall k :: 0 <= k < |r| ==> r[k] == pc + 3 * k + 1
    decreases modno - s
  {
    if s >= modno then [] else [pc + 1] + CallRels(pc + 3, s + 1, modno)
  }

  // -------------------------------------------------------- the noted places

  /** Places noted while the code from low to high was put down: each lies between an operation code and
      one more operand byte, and no two share an instruction. */
  predicate Noted(rels: seq<nat>, low: nat, high: nat) {
    && (forall k :: 0 <= k < |rels| ==> low < rels[k] && rels[k] + 1 < high)
    && forall j, k :: 0 <= j < k < |rels| ==> rels[j] + 2 < rels[k]
  }

  /** Tables noted one after the other. */
  lemma {:induction false} NotedJoin(a: seq<nat>, b: seq<nat>, low: nat, mid: nat, high: nat)
    requires Noted(a, low, mid) && Noted(b, mid, high) && low <= mid <= high
    ensures Noted(a + b, low, high)
  {
    forall j, k | 0 <= j < k < |a + b|
      ensures (a + b)[j] + 2 < (a + b)[k]
    {
      if j < |a| <= k {
        assert a[j] + 1 < mid < b[k - |a|];
      }
    }
  }

  lemma {:induction false} NotedSpaced(rels: seq<nat>, locs: seq<word>, low: nat, high: nat)
    requires Noted(rels, low, high) && locs == rels
    ensures Spaced(locs)
  {
    forall j, k | 0 <= j < k < |locs|
      ensures locs[j] as int + 1 < locs[k] as int
    {
      assert rels[j] + 2 < rels[k];
    }
  }

  /** The calls of the imports. */
  lemma {:induction false} CallsNoted(pc: nat, s: nat, modno: nat)
    ensures Noted(CallRels(pc, s, modno), pc, pc + |CompiledCalls(s, modno)|)
  {
  }

  /** LGA 1, TS, JPFC 2, RTN, LGA 0. */
  method InitGenerator(g: Generator)
    requires g.Valid()
    modifies g`pc, g`failed, g.code
    ensures g.Appended(StartupRuns.Prologue(0), 0, 0)
  {
    hide Grow;
    GrowTwice(g.Now(), [0x15, 1, 0x94, 0x1A], 0, 0, [2, 0xEC, 0x15, 0], 0, 0);
    assert [0x15, 1, 0x94, 0x1A] + [2, 0xEC, 0x15, 0] == StartupRuns.Prologue(0);
    PutFour(g, 0x15, 1, 0x94, 0x1A);
    PutFour(g, 2, 0xEC, 0x15, 0);
  }

  method PutFour(g: Generator, a: byte, b: byte, c: byte, d: byte)
    requires g.Valid()
    modifies g`pc, g`failed, g.code
    ensures g.Appended([a, b, c, d], 0, 0)
  {
    hide Grow;
    FourGrow(g.Now(), a, b, c, d);
    g.PutByte(a);
    g.PutByte(b);
    g.PutByte(c);
    g.PutByte(d);
  }

  lemma {:induction false} FourGrow(p: Progress, a: byte, b: byte, c: byte, d: byte)
    ensures Grow(Grow(Grow(Grow(p, [a], 0, 0), [b], 0, 0), [c], 0, 0), [d], 0, 0) == Grow(p, [a, b, c, d], 0, 0)
  {
    assert [a] + [b] == [a, b] && [a, b] + [c] == [a, b, c] && [a, b, c] + [d] == [a, b, c, d];
    GrowTwice(p, [a], 0, 0, [b], 0, 0);
    GrowTwice(p, [a, b], 0, 0, [c], 0, 0);
    GrowTwice(p, [a, b, c], 0, 0, [d], 0, 0);
  }

  /** Modules are numbered from 0, the one being compiled. */
  function Imported(modno: nat): nat {
    if modno == 0 then 0 else modno - 1
  }

  /** The positions of module numbers in the code. */
  class RelocTable {
    const tab: array<nat>
    var relx: nat

    ghost predicate Valid()
      reads this
    {
      tab.Length == REL_TAB_LENGTH && relx <= REL_TAB_LENGTH
    }

    ghost function Rels(): seq<nat>
      requires Valid()
      reads this, tab
    {
      tab[..relx]
    }

    constructor ()
      ensures Valid() && Rels() == [] && fresh(tab)
    {
      tab := new nat[REL_TAB_LENGTH];
      relx := 0;
    }

    /** `reloc`. */
    method Reloc(g: Generator)
      requires Valid() && g.Valid() && tab != g.code as object
      modifies this`relx, tab, g`failed
      ensures Valid() && g.Valid()
      ensures g.failed == (old(g.failed) || old(relx) == REL_TAB_LENGTH)
      ensures Rels() == if old(relx) < REL_TAB_LENGTH then old(Rels()) + [g.pc] else old(Rels())
    {
      if relx < REL_TAB_LENGTH {
        tab[relx] := g.pc;
        relx := relx + 1;
      } else {
        g.Err();
      }
    }

    /** The calls of the imports in `GenEndDecl`, for modules 1 up to modno: an error exactly when the
        code buffer or the table is too small for them. */
    method CallImports(g: Generator, modno: nat)
      requires Valid() && g.Valid() && tab != g.code as object
      modifies this`relx, tab, g`pc, g`failed, g.code
      ensures Valid() && g.Valid()
      ensures g.failed <==> old(g.failed) || old(g.pc) + 3 * Imported(modno) > CODE_LENGTH || old(relx) + Imported(modno) > REL_TAB_LENGTH
      ensures !g.failed ==> !old(g.failed) && g.Out() == old(g.Out()) + CompiledCalls(1, modno) && g.sp == old(g.sp)
      ensures !g.failed ==> Rels() == old(Rels()) + CallRels(old(g.pc), 1, modno)
    {
      hide CompiledCalls, CallRels;
      var s := 1;
      while s < modno
        invariant 1 <= s && (modno <= 1 || s <= modno) && Valid() && g.Valid() && (old(g.failed) ==> g.failed)
        invariant !g.failed ==> g.pc == old(g.pc) + 3 * (s - 1) && relx == old(relx) + (s - 1)
        invariant g.failed ==>
                    old(g.failed) || old(g.pc) + 3 * Imported(modno) > CODE_LENGTH || old(relx) + Imported(modno) > REL_TAB_LENGTH
        invariant !g.failed ==> g.sp == old(g.sp) && g.Out() + CompiledCalls(s, modno) == old(g.Out()) + CompiledCalls(1, modno)
        invariant !g.failed ==> Rels() + CallRels(g.pc, s, modno) == old(Rels()) + CallRels(old(g.pc), 1, modno)
      {
        CallImport(g, s, modno);
        s := s + 1;
      }
      if !g.failed {
        NoneFrom(s, g.pc, modno);
        NoneFrom(if modno <= 1 then 1 else modno, old(g.pc), modno);
      }
    }

    method CallImport(g: Generator, s: nat, ghost modno: nat)
      requires Valid() && g.Valid() && tab != g.code as object && s < modno
      modifies this`relx, tab, g`pc, g`failed, g.code
      ensures Valid() && g.Valid() && (g.failed <==> old(g.failed) || old(g.pc) + 3 > CODE_LENGTH || old(relx) == REL_TAB_LENGTH)
      ensures !g.failed ==> g.pc == old(g.pc) + 3 && relx == old(relx) + 1
      ensures !g.failed ==> g.sp == old(g.sp) && g.Out() + CompiledCalls(s + 1, modno) == old(g.Out()) + CompiledCalls(s, modno)
      ensures !g.failed ==> Rels() + CallRels(g.pc, s + 1, modno) == old(Rels()) + CallRels(old(g.pc), s, modno)
    {
      hide CompiledCalls, CallRels;
      ghost var out := g.Out();
      NextCall(out, Rels(), g.pc, s, modno);
      g.PutOpZ(0xED);
      assert !g.failed ==> g.Out() == out + [0xED];
      Reloc(g);
      assert !g.failed ==> g.Out() == out + [0xED];
      PutTwo(g, s % 0x100, 0);
    }

    method PutTwo(g: Generator, a: byte, b: byte)
      requires Valid() && g.Valid() && tab != g.code as object
      modifies g`pc, g`failed, g.code
      ensures Valid() && g.Valid() && Rels() == old(Rels()) && g.sp == old(g.sp)
      ensures g.failed <==> old(g.failed) || old(g.pc) + 2 > CODE_LENGTH
      ensures !g.failed ==> g.Out() == old(g.Out()) + [a] + [b]
    {
      g.PutByte(a);
      assert !g.failed ==> g.Out() == old(g.Out()) + [a];
      g.PutByte(b);
    }
  }

  lemma {:induction false} NoneFrom(s: nat, pc: nat, modno: nat)
    requires s >= modno
    ensures CompiledCalls(s, modno) == [] && CallRels(pc, s, modno) == []
  {
  }

  lemma {:induction false} NextCall(out: seq<byte>, rels: seq<nat>, pc: nat, s: nat, modno: nat)
    requires s < modno
    ensures out + [0xED] + [s % 0x100] + [0] + CompiledCalls(s + 1, modno) == out + CompiledCalls(s, modno)
    ensures rels + [pc + 1] + CallRels(pc + 3, s + 1, modno) == rels + CallRels(pc, s, modno)
  {
  }

  /** Relocated, the calls are those of the imports' places in the module table. */
  lemma {:induction false} CallsRelocated(pre: seq<byte>, modno: nat, post: seq<byte>, places: seq<byte>, locs: seq<word>)
    requires 1 <= modno <= 0x100 && |places| == modno - 1 && |pre| + 3 * (modno - 1) < 0xFFFF && locs == CallRels(|pre|, 1, modno)
    ensures Fixed(pre + CompiledCalls(1, modno) + post, locs, places) == Some(pre + StartupRuns.ImportCalls(places) + post)
  {
    assert places[0..] == places;
    CallsFrom(pre, 1, modno, post, places, locs);
  }

  lemma {:induction false} CallsFrom(pre: seq<byte>, s: nat, modno: nat, post: seq<byte>, places: seq<byte>, locs: seq<word>)
    requires 1 <= s <= modno <= 0x100 && |places| == modno - 1 && |pre| + 3 * (modno - s) < 0xFFFF && locs == CallRels(|pre|, s, modno)
    ensures Fixed(pre + CompiledCalls(s, modno) + post, locs, places) == Some(pre + StartupRuns.ImportCalls(places[s - 1..]) + post)
    decreases modno - s
  {
    hide CompiledCalls, CallRels, StartupRuns.ImportCalls, Fixed, Relocatable;
    if s == modno {
      NoCalls(pre, s, post, places, locs);
    } else {
      var x, more := places[s - 1], CompiledCalls(s + 1, modno);
      CallsUnfold(pre, s, modno, post);
      OneFixed(pre, s, x, more + post, places, locs);
      CallsFrom(pre + [0xED, x, 0], s + 1, modno, post, places, locs[1..]);
      assert pre + [0xED, x, 0] + more + post == pre + [0xED, x, 0] + (more + post);
      assert places[s - 1..][1..] == places[s..];
      LastCalls(pre, x, places[s - 1..], post);
    }
  }

  lemma {:induction false} NoCalls(pre: seq<byte>, modno: nat, post: seq<byte>, places: seq<byte>, locs: seq<word>)
    requires |places| == modno - 1 && locs == CallRels(|pre|, modno, modno)
    ensures Fixed(pre + CompiledCalls(modno, modno) + post, locs, places) == Some(pre + StartupRuns.ImportCalls(places[modno - 1..]) + post)
  {
    assert locs == [] && places[modno - 1..] == [];
  }

  lemma {:induction false} CallsUnfold(pre: seq<byte>, s: nat, modno: nat, post: seq<byte>)
    requires s < modno <= 0x100
    ensures pre + CompiledCalls(s, modno) + post == pre + [0xED, s, 0] + (CompiledCalls(s + 1, modno) + post)
    ensures CallRels(|pre|, s, modno) == [|pre| + 1] + CallRels(|pre| + 3, s + 1, modno)
  {
    assert s % 0x100 == s;
  }

  /** The relocation of one call. */
  lemma {:induction false} OneFixed(pre: seq<byte>, s: byte, x: byte, rest: seq<byte>, places: seq<byte>, locs: seq<word>)
    requires 1 <= s <= |places| && x == places[s - 1] && locs != [] && locs[0] as int == |pre| + 1
    ensures Fixed(pre + [0xED, s, 0] + rest, locs, places) == Fixed(pre + [0xED, x, 0] + rest, locs[1..], places)
  {
    var c := pre + [0xED, s, 0] + rest;
    assert c[|pre|] == 0xED && c[|pre| + 1] == s;
    assert c[|pre| + 1 := x] == pre + [0xED, x, 0] + rest;
  }

  lemma {:induction false} LastCalls(pre: seq<byte>, x: byte, ms: seq<byte>, post: seq<byte>)
    requires ms != [] && ms[0] == x
    ensures pre + StartupRuns.ImportCalls(ms) + post == pre + [0xED, x, 0] + StartupRuns.ImportCalls(ms[1..]) + post
  {
    assert x % 0x100 == x;
  }
}
