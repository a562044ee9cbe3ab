/** `StatSeq`: statements compiled in one pass, with jumps patched as soon as their targets are
    known. What ends up in the buffer is the code with all jumps resolved. */
module Statements {
  import opened Words
  import opened Options
  import opened Lang
  import opened StmtLang
  import opened ExprGen
  import opened StmtGen
  import opened CaseTable
  import opened Tails
  import opened Emitter
  import opened Exits
  import opened Loops
  import opened Cases
  import opened Placing
  import opened Compiler
  import opened AcceptedStmts
  import R = CodeRoom

  // ---------------------------------------------------- what is asked of the source

  /** Every variable is declared at this level or further out. */
  predicate VarsVisible(s: Stmt, lev: nat)
    decreases s
  {
    match s
    case Empty => true
    case Seq(a, b) => VarsVisible(a, lev) && VarsVisible(b, lev)
    case Assign(v, e) => v.lev <= lev && InScope(e, lev)
    case If(c, t) => InScope(c, lev) && VarsVisible(t, lev)
    case IfElse(c, t, f) => InScope(c, lev) && VarsVisible(t, lev) && VarsVisible(f, lev)
    case While(g) => GuardsVisible(g, lev)
    case Repeat(b, c) => InScope(c, lev) && VarsVisible(b, lev)
    case Loop(b) => VarsVisible(b, lev)
    case Exit => true
    case For(v, low, high, _, b) => v.lev <= lev && InScope(low, lev) && InScope(high, lev) && VarsVisible(b, lev)
    case Case(e, arms, d) => InScope(e, lev) && ArmsVisible(arms, lev) && (d.Else? ==> VarsVisible(d.body, lev))
  }

  predicate GuardsVisible(g: Guards, lev: nat)
    decreases g
  {
    InScope(g.cond, lev) && VarsVisible(g.body, lev) && (g.More? ==> GuardsVisible(g.rest, lev))
  }

  predicate ArmsVisible(a: Arms, lev: nat)
    decreases a
  {
    a.Arm? ==> VarsVisible(a.body, lev) && ArmsVisible(a.rest, lev)
  }

  predicate InScope(e: Expr, lev: nat) {
    forall v :: v in Vars(e) ==> v.lev <= lev
  }

  function Deeper(a: nat, b: nat): nat { if a >= b then a else b }

  /** How deep LOOP statements are nested. */
  function LoopDepth(s: Stmt): nat
    decreases s
  {
    match s
    case Empty => 0
    case Seq(a, b) => Deeper(LoopDepth(a), LoopDepth(b))
    case Assign(_, _) => 0
    case If(_, t) => LoopDepth(t)
    case IfElse(_, t, f) => Deeper(LoopDepth(t), LoopDepth(f))
    case While(g) => GuardDepth(g)
    case Repeat(b, _) => LoopDepth(b)
    case Loop(b) => 1 + LoopDepth(b)
    case Exit => 0
    case For(_, _, _, _, b) => LoopDepth(b)
    case Case(_, arms, d) => Deeper(ArmDepth(arms), if d.Else? then LoopDepth(d.body) else 0)
  }

  function GuardDepth(g: Guards): nat
    decreases g
  {
    Deeper(LoopDepth(g.body), if g.More? then GuardDepth(g.rest) else 0)
  }

  function ArmDepth(a: Arms): nat
    decreases a
  {
    if a.NoArms? then 0 else Deeper(LoopDepth(a.body), ArmDepth(a.rest))
  }

  // --------------------------------------------------------------- the contracts

  /** Generator and loop stack are in order, and the expression stack is empty. */
  ghost predicate Steady(g: Generator, l: LoopStack)
    reads g, l, l.index
  {
    && g.Valid() && l.Valid() && l.exits != g.code as object && l.index != g.code as object
    && (!g.failed ==> g.sp == 0)
  }

  /** The loop stack has only got the open exits hs. */
  twostate predicate Recorded(g: Generator, l: LoopStack, hs: seq<nat>)
    requires old(l.Valid()) && l.Valid()
    reads g, l, l.index, l.exits
  {
    && l.h == old(l.h) && l.Marks() == old(l.Marks())
    && (!g.failed ==> l.Exits() == old(l.Exits()) + hs)
  }

  function HolesOf(o: Option<Flow>, at: nat): seq<nat> {
    match o case None => [] case Some(f) => Holes(f, at)
  }

  method CheckStack(g: Generator)
    requires g.Valid()
    modifies g`sp, g`failed
    ensures g.Valid() && g.Now() == Checked(old(g.Now())) && (!g.failed ==> g.sp == 0)
  {
    g.sp := 0;
    if g.pc > CODE_LIMIT {
      g.Err();
    }
  }

  /** A condition and the jump that is taken when it fails; the way is stored at loc later. */
  method CondJump(g: Generator, c: Expr) returns (loc: nat)
    requires g.Valid() && InScope(c, g.curLev) && (!g.failed ==> g.sp == 0)
    modifies g, g.code
    ensures g.Valid() && g.Now() == Put(old(g.Now()), WithJump(CondCode(c, g.curLev), [0x18, 0, 0]))
    ensures !g.failed ==> loc + 2 == g.pc
  {
    hide CondCode, GenExpr, Opened, Fragged, BranchTail, Put;
    ghost var p := g.Now();
    var x := Expression(g, c);
    CondPut(p, c, g.curLev, x);
    loc := g.GenCFJ(x);
  }

  method StatSeq(g: Generator, l: LoopStack, s: Stmt)
    requires Steady(g, l) && VarsVisible(s, g.curLev) && l.h + LoopDepth(s) <= LOOP_LEVELS
    modifies g, g.code, l, l.index, l.exits
    ensures Steady(g, l) && g.Now() == Placed(old(g.Now()), Sketch(s, g.curLev), old(l.h), old(l.k))
    ensures Recorded(g, l, HolesOf(Sketch(s, g.curLev), old(g.pc)))
    decreases s, 3
  {
    hide Placed, Open, ExitsFit, Holes, Size, Checked;
    match s {
      case Empty =>
        EmptyPlaced(g.Now(), g.curLev, l.h, l.k);
        CheckStack(g);
      case Seq(a, b) => SeqPart(g, l, a, b);
      case Assign(_, _) => AssignPart(g, l, s);
      case If(_, _) => IfPart(g, l, s);
      case IfElse(_, _, _) => IfElsePart(g, l, s);
      case While(_) => WhilePart(g, l, s);
      case Repeat(_, _) => RepeatPart(g, l, s);
      case Loop(_) => LoopPart(g, l, s);
      case Exit => ExitPart(g, l, s);
      case For(_, _, _, _, _) => ForPart(g, l, s);
      case Case(_, _, _) => CasePart(g, l, s);
    }
  }

  lemma {:induction false} EmptyPlaced(p: Progress, lev: nat, h: nat, k: nat)
    ensures Sketch(Empty, lev) == Some(Straight([])) && Checked(p) == Placed(p, Sketch(Empty, lev), h, k)
    ensures forall at: nat {:trigger HolesOf(Sketch(Empty, lev), at)} :: HolesOf(Sketch(Empty, lev), at) == []
  {
    if p.At? {
      assert p.out + [] == p.out;
    }
  }

  method SeqPart(g: Generator, l: LoopStack, a: Stmt, b: Stmt)
    requires Steady(g, l) && VarsVisible(a, g.curLev) && VarsVisible(b, g.curLev)
    requires l.h + LoopDepth(a) <= LOOP_LEVELS && l.h + LoopDepth(b) <= LOOP_LEVELS
    modifies g, g.code, l, l.index, l.exits
    ensures Steady(g, l) && g.Now() == Placed(old(g.Now()), Sketch(Seq(a, b), g.curLev), old(l.h), old(l.k))
    ensures Recorded(g, l, HolesOf(Sketch(Seq(a, b), g.curLev), old(g.pc)))
    decreases Seq(a, b), 0
  {
    hide Placed, Open, ExitsFit, Holes, HoleCount, Size, Sketch, VarsVisible, LoopDepth;
    ghost var p, h, k, at := g.Now(), l.h, l.k, g.pc;
    ghost var fa, fb := Sketch(a, g.curLev), Sketch(b, g.curLev);
    SketchSeq(a, b, g.curLev);
    StatSeq(g, l, a);
    if fa.Some? {
      CountHoles(fa.value, at);
    }
    StatSeq(g, l, b);
    if fa.Some? && fb.Some? {
      HolesSeq(fa.value, fb.value, at);
    }
    ChainPlaced(p, fa, fb, h, k, if fa.Some? then k + HoleCount(fa.value) else 0);
  }

  lemma {:induction false} SketchSeq(a: Stmt, b: Stmt, lev: nat)
    ensures Sketch(Seq(a, b), lev) == ChainOf(Sketch(a, lev), Sketch(b, lev))
  {
    hide SketchGuards, SketchArms, SketchDefault, ArmTable, AssignCode, CondCode, ValueCode, ForHead;
  }

  lemma {:induction false} HolesSeq(a: Flow, b: Flow, at: nat)
    ensures Holes(Chain(a, b), at) == Holes(a, at) + Holes(b, at + Size(a)) && HoleCount(Chain(a, b)) == HoleCount(a) + HoleCount(b)
  {
    hide GuardHoles, ArmHoles, DefaultHoles, Size, GuardLen, GuardHoleCount, ArmHoleCount, DefaultHoleCount;
    HolesChain(a, b, at);
    hide Holes;
  }

  lemma {:induction false} HolesChain(a: Flow, b: Flow, at: nat)
    ensures Holes(Chain(a, b), at) == Holes(a, at) + Holes(b, at + Size(a))
  {
    hide GuardHoles, ArmHoles, DefaultHoles, Size, GuardLen, GuardHoleCount, ArmHoleCount, DefaultHoleCount, HoleCount, TableLen, BackJump,
         GuardsSize, ArmsSize, DefaultSize;
  }

  /** A condition and the statement it guards; the jump at loc still has to be patched. */
  method ThenPart(g: Generator, l: LoopStack, c: Expr, t: Stmt) returns (loc: nat)
    requires Steady(g, l) && InScope(c, g.curLev) && VarsVisible(t, g.curLev) && l.h + LoopDepth(t) <= LOOP_LEVELS
    modifies g, g.code, l, l.index, l.exits
    ensures Steady(g, l) && (!g.failed ==> loc + 1 < g.pc)
    ensures var p1 := Put(old(g.Now()), WithJump(CondCode(c, g.curLev), [0x18, 0, 0]));
            g.Now() == Placed(p1, Sketch(t, g.curLev), old(l.h), old(l.k)) && (p1.At? ==> loc + 2 == |p1.out|)
    ensures Recorded(g, l, HolesOf(Sketch(t, g.curLev), old(g.pc) + LengthOf(CondCode(c, g.curLev)) + 3))
    decreases t, 4
  {
    hide Placed, Put, Open, ExitsFit, Holes, HoleCount, Size, Sketch, CondCode, Checked, Patched, InScope, VarsVisible, LoopDepth;
    loc := CondJump(g, c);
    StatSeq(g, l, t);
  }

  method IfPart(g: Generator, l: LoopStack, s: Stmt)
    requires s.If? && Steady(g, l) && VarsVisible(s, g.curLev) && l.h + LoopDepth(s) <= LOOP_LEVELS
    modifies g, g.code, l, l.index, l.exits
    ensures Steady(g, l) && g.Now() == Placed(old(g.Now()), Sketch(s, g.curLev), old(l.h), old(l.k))
    ensures Recorded(g, l, HolesOf(Sketch(s, g.curLev), old(g.pc)))
    decreases s, 0
  {
    hide Placed, Put, Open, ExitsFit, Holes, HoleCount, Size, Sketch, CondCode, Checked, Patched, InScope;
    var lev := g.curLev;
    ghost var p, h, k, at, cc, ft := g.Now(), l.h, l.k, g.pc, CondCode(s.cond, g.curLev), Sketch(s.thn, g.curLev);
    SketchIf(s, lev);
    var loc := ThenPart(g, l, s.cond, s.thn);
    g.Fixup(loc);
    CheckStack(g);
    BranchPlaced(p, cc, ft, h, k, loc);
    if cc.Some? && ft.Some? {
      HolesIf(cc.value, ft.value, at);
    }
  }

  lemma {:induction false} SketchIf(s: Stmt, lev: nat)
    requires s.If?
    ensures Sketch(s, lev) == BranchOf(CondCode(s.cond, lev), Sketch(s.thn, lev))
  {
    hide SketchGuards, SketchArms, SketchDefault, ArmTable, AssignCode, CondCode, ValueCode, ForHead;
  }

  lemma {:induction false} HolesIf(cc: seq<byte>, t: Flow, at: nat)
    ensures Holes(Branch(cc, t), at) == Holes(t, at + |cc| + 3)
  {
    hide GuardHoles, ArmHoles, DefaultHoles, Size, GuardLen, GuardHoleCount, ArmHoleCount, DefaultHoleCount, GuardsSize, ArmsSize,
         DefaultSize, BackJump, TableLen;
  }

  method IfElsePart(g: Generator, l: LoopStack, s: Stmt)
    requires s.IfElse? && Steady(g, l) && VarsVisible(s, g.curLev) && l.h + LoopDepth(s) <= LOOP_LEVELS
    modifies g, g.code, l, l.index, l.exits
    ensures Steady(g, l) && g.Now() == Placed(old(g.Now()), Sketch(s, g.curLev), old(l.h), old(l.k))
    ensures Recorded(g, l, HolesOf(Sketch(s, g.curLev), old(g.pc)))
    decreases s, 1
  {
    hide Placed, Put, Open, ExitsFit, Holes, HoleCount, Size, Sketch, CondCode, InScope;
    ghost var lev, at := g.curLev, g.pc;
    SketchIfElse(s, lev);
    Branches(g, l, s);
    ghost var cc, ft, fe := CondCode(s.cond, lev), Sketch(s.thn, lev), Sketch(s.els, lev);
    if cc.Some? && ft.Some? && fe.Some? {
      HolesIfElse(cc.value, ft.value, fe.value, at);
    }
  }

  /** Condition, THEN part and ELSE part. */
  method Branches(g: Generator, l: LoopStack, s: Stmt)
    requires s.IfElse? && Steady(g, l) && InScope(s.cond, g.curLev)
    requires VarsVisible(s.thn, g.curLev) && l.h + LoopDepth(s.thn) <= LOOP_LEVELS
    requires VarsVisible(s.els, g.curLev) && l.h + LoopDepth(s.els) <= LOOP_LEVELS
    modifies g, g.code, l, l.index, l.exits
    ensures var cc, ft, fe := CondCode(s.cond, g.curLev), Sketch(s.thn, g.curLev), Sketch(s.els, g.curLev);
            && Steady(g, l) && g.Now() == Placed(old(g.Now()), Branch2Of(cc, ft, fe), old(l.h), old(l.k))
            && Recorded(g, l, HolesOf(ft, old(g.pc) + LengthOf(cc) + 3) + HolesOf(fe, old(g.pc) + LengthOf(cc) + 6 + SizeOf(ft)))
    decreases s, 0
  {
    hide Placed, Put, Open, ExitsFit, Holes, HoleCount, Size, Sketch, CondCode, Checked, Patched, InScope, VarsVisible, LoopDepth;
    ghost var p, h, k, at, cc := g.Now(), l.h, l.k, g.pc, CondCode(s.cond, g.curLev);
    ghost var ft, fe := Sketch(s.thn, g.curLev), Sketch(s.els, g.curLev);
    var loc := ThenPart(g, l, s.cond, s.thn);
    ghost var k2 := if ft.Some? then k + HoleCount(ft.value) else 0;
    if ft.Some? {
      CountHoles(ft.value, at + LengthOf(cc) + 3);
    }
    ghost var p2 := g.Now();
    ElsePart(g, l, s.els, loc);
    Branch2Placed(p, cc, ft, fe, h, k, k2, loc, if p2.At? then |p2.out| + 1 else 0);
  }

  function SizeOf(o: Option<Flow>): nat {
    match o case None => 0 case Some(f) => Size(f)
  }

  /** What the ELSE part adds behind a THEN part whose condition jumps from loc. */
  function WithElse(p2: Progress, e: Option<Flow>, h: nat, k: nat, loc: nat): (b: Progress)
    ensures b.At? ==> p2.At? && e.Some? && b.sp == 0
  {
    var p3 := Put(p2, Some([0x19, 0, 0]));
    Checked(Patched(Placed(Patched(p3, loc), e, h, k), if p2.At? then |p2.out| + 1 else 0))
  }

  method ElsePart(g: Generator, l: LoopStack, e: Stmt, loc: nat)
    requires Steady(g, l) && VarsVisible(e, g.curLev) && l.h + LoopDepth(e) <= LOOP_LEVELS && (!g.failed ==> loc + 1 < g.pc)
    modifies g, g.code, l, l.index, l.exits
    ensures Steady(g, l) && g.Now() == WithElse(old(g.Now()), Sketch(e, g.curLev), old(l.h), old(l.k), loc)
    ensures Recorded(g, l, HolesOf(Sketch(e, g.curLev), old(g.pc) + 3))
    decreases e, 4
  {
    hide Placed, Put, Open, ExitsFit, Holes, Size, Sketch, Checked, Patched, VarsVisible, LoopDepth;
    GrowPut(g.Now(), [0x19, 0, 0]);
    var loc2 := g.GenFJ();
    g.Fixup(loc);
    StatSeq(g, l, e);
    g.Fixup(loc2);
    CheckStack(g);
  }

  lemma {:induction false} SketchIfElse(s: Stmt, lev: nat)
    requires s.IfElse?
    ensures Sketch(s, lev) == Branch2Of(CondCode(s.cond, lev), Sketch(s.thn, lev), Sketch(s.els, lev))
  {
    hide SketchGuards, SketchArms, SketchDefault, ArmTable, AssignCode, CondCode, ValueCode, ForHead;
  }

  lemma {:induction false} HolesIfElse(cc: seq<byte>, t: Flow, e: Flow, at: nat)
    ensures Holes(Branch2(cc, t, e), at) == Holes(t, at + |cc| + 3) + Holes(e, at + |cc| + 6 + Size(t))
  {
    hide GuardHoles, ArmHoles, DefaultHoles, Size, GuardLen, GuardHoleCount, ArmHoleCount, DefaultHoleCount, GuardsSize, ArmsSize,
         DefaultSize, BackJump, TableLen;
  }

  method RepeatPart(g: Generator, l: LoopStack, s: Stmt)
    requires s.Repeat? && Steady(g, l) && VarsVisible(s, g.curLev) && l.h + LoopDepth(s) <= LOOP_LEVELS
    modifies g, g.code, l, l.index, l.exits
    ensures Steady(g, l) && g.Now() == Placed(old(g.Now()), Sketch(s, g.curLev), old(l.h), old(l.k))
    ensures Recorded(g, l, HolesOf(Sketch(s, g.curLev), old(g.pc)))
    decreases s, 0
  {
    hide Placed, Put, Open, ExitsFit, Holes, HoleCount, Size, Sketch, CondCode, GenExpr, Opened, Fragged, Checked, Patched;
    var lev := g.curLev;
    ghost var p, h, k, at, cc, fb := g.Now(), l.h, l.k, g.pc, CondCode(s.until, g.curLev), Sketch(s.body, g.curLev);
    SketchRepeat(s, lev);
    var start := g.pc;
    StatSeq(g, l, s.body);
    UntilPart(g, l, s.until, start);
    UntilPlaced(p, fb, cc, UntilJump(cc, if fb.Some? then Size(fb.value) else 0), h, k);
    if cc.Some? && fb.Some? {
      HolesRepeat(fb.value, cc.value, at);
    }
  }

  /** UNTIL: the condition and the jump back to `start`. */
  method UntilPart(g: Generator, l: LoopStack, c: Expr, start: nat)
    requires Steady(g, l) && InScope(c, g.curLev) && (!g.failed ==> start <= g.pc)
    modifies g, g.code
    ensures Steady(g, l)
    ensures var cc, n := CondCode(c, g.curLev), if old(g.pc) >= start then old(g.pc) - start else 0;
            g.Now() == Checked(Put(old(g.Now()), WithJump(cc, UntilJump(cc, n))))
  {
    hide Put, CondCode, GenExpr, Opened, Fragged, Checked;
    ghost var p1, n := g.Now(), if g.pc >= start then g.pc - start else 0;
    var x := Expression(g, c);
    UntilPut(p1, c, g.curLev, x, n);
    g.GenCBJ(x, start);
    CheckStack(g);
  }

  lemma {:induction false} SketchRepeat(s: Stmt, lev: nat)
    requires s.Repeat?
    ensures Sketch(s, lev) == UntilOf(Sketch(s.body, lev), CondCode(s.until, lev))
  {
    hide SketchGuards, SketchArms, SketchDefault, ArmTable, AssignCode, CondCode, ValueCode, ForHead;
  }

  lemma {:induction false} HolesRepeat(b: Flow, cc: seq<byte>, at: nat)
    ensures Holes(Until(b, cc), at) == Holes(b, at)
  {
    hide GuardHoles, ArmHoles, DefaultHoles, Size, GuardLen, GuardHoleCount, ArmHoleCount, DefaultHoleCount, GuardsSize, ArmsSize,
         DefaultSize, BackJump, TableLen;
  }

  method LoopPart(g: Generator, l: LoopStack, s: Stmt)
    requires s.Loop? && Steady(g, l) && VarsVisible(s, g.curLev) && l.h + LoopDepth(s) <= LOOP_LEVELS
    modifies g, g.code, l, l.index, l.exits
    ensures Steady(g, l) && g.Now() == Placed(old(g.Now()), Sketch(s, g.curLev), old(l.h), old(l.k))
    ensures Recorded(g, l, HolesOf(Sketch(s, g.curLev), old(g.pc)))
    decreases s, 0
  {
    hide Placed, Put, Open, ExitsFit, Holes, HoleCount, Size, Sketch, GenExpr, Checked, PatchDown, BackJump;
    ghost var p, h, k, at, fb := g.Now(), l.h, l.k, g.pc, Sketch(s.body, g.curLev);
    ghost var open := l.Exits();
    SketchLoop(s, g.curLev);
    l.EnterLoop();
    var start := g.pc;
    StatSeq(g, l, s.body);
    CloseLoop(g, l, start, open, HolesOf(fb, at), p, fb, h, k);
  }

  /** The jump back to the start of a LOOP, and its exits led to its end. */
  method CloseLoop(g: Generator, l: LoopStack, start: nat, ghost open: seq<nat>, ghost hs: seq<nat>, ghost p: Progress,
                   ghost fb: Option<Flow>, ghost h: nat, ghost k: nat)
    requires Steady(g, l) && l.h > 0 && g.Now() == Placed(p, fb, h + 1, k) && (!g.failed ==> start == |p.out| && start <= g.pc)
    requires !g.failed ==> l.Exits() == open + hs && l.index[l.h - 1] == |open| && hs == HolesOf(fb, start)
    modifies g, g.code, l, l.index, l.exits
    ensures Steady(g, l) && g.Now() == Placed(p, ForeverOf(fb), h, k)
    ensures l.h == old(l.h) - 1 && l.Marks() == old(l.Marks())[..l.h] && (!g.failed ==> l.Exits() == open)
  {
    hide Placed, Put, Open, ExitsFit, Holes, HoleCount, Size, Checked, PatchDown, BackJump;
    ghost var p1 := g.Now();
    g.GenBJ(start);
    if !old(g.failed) {
      ghost var jump := BackJump(0x1D, 0x19, Size(fb.value));
      GrowPut(p1, jump);
      ForeverPlaced(p, fb, jump, h, k);
    } else {
      StoppedStays(p, fb, h, k);
    }
    l.ExitLoop(g, open, hs);
    CheckStack(g);
  }

  lemma {:induction false} StoppedStays(p: Progress, b: Option<Flow>, h: nat, k: nat)
    requires Placed(p, b, h + 1, k).Stopped?
    ensures Placed(p, ForeverOf(b), h, k).Stopped?
  {
    if p.At? && b.Some? {
      ForeverFit(b.value, h, k);
      OpenForever(b.value);
    }
  }

  lemma {:induction false} SketchLoop(s: Stmt, lev: nat)
    requires s.Loop?
    ensures Sketch(s, lev) == ForeverOf(Sketch(s.body, lev))
    ensures forall at: nat {:trigger HolesOf(Sketch(s, lev), at)} :: HolesOf(Sketch(s, lev), at) == []
  {
    hide SketchGuards, SketchArms, SketchDefault, ArmTable, AssignCode, CondCode, ValueCode, ForHead;
  }

  method ExitPart(g: Generator, l: LoopStack, s: Stmt)
    requires s.Exit? && Steady(g, l) && VarsVisible(s, g.curLev) && l.h + LoopDepth(s) <= LOOP_LEVELS
    modifies g, g.code, l, l.index, l.exits
    ensures Steady(g, l) && g.Now() == Placed(old(g.Now()), Sketch(s, g.curLev), old(l.h), old(l.k))
    ensures Recorded(g, l, HolesOf(Sketch(s, g.curLev), old(g.pc)))
    decreases s, 0
  {
    hide Placed, Put, Open, Checked, VarsVisible, LoopDepth;
    ghost var p := g.Now();
    GrowPut(p, [0x19, 0, 0]);
    var loc := g.GenFJ();
    l.RecordExit(g, loc);
    CheckStack(g);
    if l.h > 0 && old(l.k) < NOF_EXITS {
      LeavePlaced(p, l.h, old(l.k));
    }
  }

  method WhilePart(g: Generator, l: LoopStack, s: Stmt)
    requires s.While? && Steady(g, l) && VarsVisible(s, g.curLev) && l.h + LoopDepth(s) <= LOOP_LEVELS
    modifies g, g.code, l, l.index, l.exits
    ensures Steady(g, l) && g.Now() == Placed(old(g.Now()), Sketch(s, g.curLev), old(l.h), old(l.k))
    ensures Recorded(g, l, HolesOf(Sketch(s, g.curLev), old(g.pc)))
    decreases s, 0
  {
    hide Placed, Open, ExitsFit, Holes, Size, Sketch, SketchGuards, Checked, OpenGuards, GuardHoles, GuardExitsFit;
    ghost var p, h, k, fg := g.Now(), l.h, l.k, SketchGuards(s.guards, g.curLev);
    SketchWhile(s, g.curLev, g.pc, h, k);
    GuardsPart(g, l, s.guards, g.pc);
    LaidChecked(p, g.Now(), RoundsOf(fg), h, k);
    CheckStack(g);
  }

  lemma {:induction false} SketchWhile(s: Stmt, lev: nat, at: nat, h: nat, k: nat)
    requires s.While?
    ensures Sketch(s, lev) == RoundsOf(SketchGuards(s.guards, lev))
    ensures Sketch(s, lev).Some? ==>
              var fg := SketchGuards(s.guards, lev).value;
              && Holes(Rounds(fg), at) == GuardHoles(fg, at, 0) && ExitsFit(Rounds(fg), h, k) == GuardExitsFit(fg, h, k)
              && Open(Rounds(fg)) == OpenGuards(fg, 0)
  {
    hide SketchGuards, SketchArms, SketchDefault, ArmTable, AssignCode, CondCode, ValueCode, ForHead, OpenGuards, GuardHoles;
  }

  function GuardHolesOf(o: Option<FlowGuards>, at: nat, back: nat): seq<nat> {
    match o case None => [] case Some(f) => GuardHoles(f, at, back)
  }

  /** One guard of a WHILE that starts at `start`. */
  method GuardPart(g: Generator, l: LoopStack, c: Expr, b: Stmt, start: nat)
    requires Steady(g, l) && InScope(c, g.curLev) && VarsVisible(b, g.curLev) && l.h + LoopDepth(b) <= LOOP_LEVELS
    requires !g.failed ==> start <= g.pc
    modifies g, g.code, l, l.index, l.exits
    ensures Steady(g, l)
    ensures var cc, fb, back := CondCode(c, g.curLev), Sketch(b, g.curLev), if old(g.pc) >= start then old(g.pc) - start else 0;
            && Laid(old(g.Now()), g.Now(), GuardOf(cc, fb, back), fb.Some? && ExitsFit(fb.value, old(l.h), old(l.k)))
            && Recorded(g, l, HolesOf(fb, old(g.pc) + LengthOf(cc) + 3))
    decreases b, 5
  {
    hide Placed, Put, Open, ExitsFit, Holes, HoleCount, Size, Sketch, CondCode, Checked, Patched, BackJump, InScope, LoopDepth,
         VarsVisible, Laid;
    ghost var p, h, k, at := g.Now(), l.h, l.k, g.pc;
    ghost var back, cc, fb := if at >= start then at - start else 0, CondCode(c, g.curLev), Sketch(b, g.curLev);
    var loc := ThenPart(g, l, c, b);
    ghost var jump := BackJump(0x1D, 0x19, back + LengthOf(cc) + 3 + if fb.Some? then Size(fb.value) else 0);
    GrowPut(g.Now(), jump);
    g.GenBJ(start);
    g.Fixup(loc);
    GuardLaid(p, cc, fb, jump, back, h, k, loc);
  }

  function LengthOf(c: Option<seq<byte>>): nat {
    match c case None => 0 case Some(cc) => |cc|
  }

  /** The guards of a WHILE that starts at `start`, from gs on. */
  method GuardsPart(g: Generator, l: LoopStack, gs: Guards, start: nat)
    requires Steady(g, l) && GuardsVisible(gs, g.curLev) && l.h + GuardDepth(gs) <= LOOP_LEVELS && (!g.failed ==> start <= g.pc)
    modifies g, g.code, l, l.index, l.exits
    ensures Steady(g, l)
    ensures var fg, back := SketchGuards(gs, g.curLev), if old(g.pc) >= start then old(g.pc) - start else 0;
            && Laid(old(g.Now()), g.Now(), OpenGuardsOf(fg, back), fg.Some? && GuardExitsFit(fg.value, old(l.h), old(l.k)))
            && Recorded(g, l, GuardHolesOf(fg, old(g.pc), back))
    decreases gs, 1
  {
    if gs.Last? {
      LastGuardPart(g, l, gs, start);
    } else {
      MoreGuardsPart(g, l, gs, start);
    }
  }

  method LastGuardPart(g: Generator, l: LoopStack, gs: Guards, start: nat)
    requires gs.Last?
    requires Steady(g, l) && GuardsVisible(gs, g.curLev) && l.h + GuardDepth(gs) <= LOOP_LEVELS && (!g.failed ==> start <= g.pc)
    modifies g, g.code, l, l.index, l.exits
    ensures Steady(g, l)
    ensures var fg, back := SketchGuards(gs, g.curLev), if old(g.pc) >= start then old(g.pc) - start else 0;
            && Laid(old(g.Now()), g.Now(), OpenGuardsOf(fg, back), fg.Some? && GuardExitsFit(fg.value, old(l.h), old(l.k)))
            && Recorded(g, l, GuardHolesOf(fg, old(g.pc), back))
    decreases gs, 0
  {
    hide Open, ExitsFit, Holes, HoleCount, Size, Sketch, SketchGuards, CondCode, OpenGuards, GuardHoles, GuardExitsFit, InScope,
         GuardCode, GuardLen, VarsVisible, LoopDepth;
    ghost var p, h, k, at, lev := g.Now(), l.h, l.k, g.pc, g.curLev;
    ghost var back := if at >= start then at - start else 0;
    GuardPart(g, l, gs.cond, gs.body, start);
    LastLaid(p, g.Now(), gs, lev, at, back, h, k);
  }

  method MoreGuardsPart(g: Generator, l: LoopStack, gs: Guards, start: nat)
    requires gs.More?
    requires Steady(g, l) && GuardsVisible(gs, g.curLev) && l.h + GuardDepth(gs) <= LOOP_LEVELS && (!g.failed ==> start <= g.pc)
    modifies g, g.code, l, l.index, l.exits
    ensures Steady(g, l)
    ensures var fg, back := SketchGuards(gs, g.curLev), if old(g.pc) >= start then old(g.pc) - start else 0;
            && Laid(old(g.Now()), g.Now(), OpenGuardsOf(fg, back), fg.Some? && GuardExitsFit(fg.value, old(l.h), old(l.k)))
            && Recorded(g, l, GuardHolesOf(fg, old(g.pc), back))
    decreases gs, 0
  {
    hide Open, ExitsFit, Holes, HoleCount, Size, Sketch, SketchGuards, CondCode, OpenGuards, GuardHoles, GuardExitsFit, InScope,
         GuardCode, GuardLen, VarsVisible, LoopDepth;
    var lev := g.curLev;
    ghost var p, h, k, at := g.Now(), l.h, l.k, g.pc;
    ghost var back, cc, fb := if at >= start then at - start else 0, CondCode(gs.cond, lev), Sketch(gs.body, lev);
    GuardPart(g, l, gs.cond, gs.body, start);
    ghost var p1 := g.Now();
    if cc.Some? && fb.Some? {
      CountHoles(fb.value, at + |cc.value| + 3);
      OneLength(cc.value, fb.value, back);
      assert p1.At? ==> |p1.out| == at + GuardLen(|cc.value|, Size(fb.value), back);
    }
    GuardsPart(g, l, gs.rest, start);
    ghost var fr := SketchGuards(gs.rest, lev);
    ghost var next := back + if cc.Some? && fb.Some? then GuardLen(|cc.value|, Size(fb.value), back) else 0;
    MoreSketch(gs, lev);
    MoreLaid(p, p1, g.Now(), cc, fb, fr, back, next, h, k, if fb.Some? then k + HoleCount(fb.value) else 0);
    if cc.Some? && fb.Some? && fr.Some? {
      MoreOpen(cc.value, fb.value, fr.value, at, back, h, k);
    }
  }

  lemma {:induction false} OneLength(cc: seq<byte>, b: Flow, back: nat)
    ensures |GuardCode(cc, Open(b), back)| == GuardLen(|cc|, Size(b), back)
  {
    hide GuardLen, Open;
  }

  lemma {:induction false} LastLaid(p: Progress, b: Progress, gs: Guards, lev: nat, at: nat, back: nat, h: nat, k: nat)
    requires gs.Last?
    requires var cc, fb := CondCode(gs.cond, lev), Sketch(gs.body, lev);
             Laid(p, b, GuardOf(cc, fb, back), fb.Some? && ExitsFit(fb.value, h, k))
    ensures var cc, fb, fg := CondCode(gs.cond, lev), Sketch(gs.body, lev), SketchGuards(gs, lev);
            && Laid(p, b, OpenGuardsOf(fg, back), fg.Some? && GuardExitsFit(fg.value, h, k))
            && (b.At? ==> cc.Some? && fb.Some? && GuardHolesOf(fg, at, back) == HolesOf(fb, at + |cc.value| + 3))
  {
    hide Open, Holes, Size, CondCode, GuardCode, GuardLen, Sketch, ExitsFit;
  }

  function MoreOf(c: Option<seq<byte>>, b: Option<Flow>, r: Option<FlowGuards>): Option<FlowGuards> {
    var cc :- c;
    var fb :- b;
    var fr :- r;
    Some(MoreGuards(cc, fb, fr))
  }

  lemma {:induction false} MoreLaid(p: Progress, p1: Progress, b: Progress, cc: Option<seq<byte>>, fb: Option<Flow>, fr: Option<FlowGuards>,
                 back: nat, next: nat, h: nat, k: nat, k2: nat)
    requires Laid(p, p1, GuardOf(cc, fb, back), fb.Some? && ExitsFit(fb.value, h, k)) && (p1.Stopped? ==> b.Stopped?)
    requires cc.Some? && fb.Some? ==> next == back + GuardLen(|cc.value|, Size(fb.value), back) && k2 == k + HoleCount(fb.value)
    requires p1.At? && cc.Some? && fb.Some? ==> Laid(p1, b, OpenGuardsOf(fr, next), fr.Some? && GuardExitsFit(fr.value, h, k2))
    ensures var fg := MoreOf(cc, fb, fr); Laid(p, b, OpenGuardsOf(fg, back), fg.Some? && GuardExitsFit(fg.value, h, k))
  {
    hide OpenGuards, GuardHoles, GuardExitsFit, Open, Holes, Size, GuardLen, GuardCode, ExitsFit, HoleCount;
    if cc.Some? && fb.Some? {
      var one, ok, okr := GuardOf(cc, fb, back), ExitsFit(fb.value, h, k), fr.Some? && GuardExitsFit(fr.value, h, k2);
      if p1.At? {
        LaidTwice(p, p1, b, one, ok, OpenGuardsOf(fr, next), okr);
      }
      if fr.Some? {
        MoreOpen(cc.value, fb.value, fr.value, 0, back, h, k);
      }
    }
  }

  lemma {:induction false} MoreSketch(gs: Guards, lev: nat)
    requires gs.More?
    ensures SketchGuards(gs, lev) == MoreOf(CondCode(gs.cond, lev), Sketch(gs.body, lev), SketchGuards(gs.rest, lev))
  {
    hide Sketch, CondCode;
  }

  lemma {:induction false} MoreOpen(cc: seq<byte>, b: Flow, r: FlowGuards, at: nat, back: nat, h: nat, k: nat)
    ensures var n := GuardLen(|cc|, Size(b), back);
            && OpenGuards(MoreGuards(cc, b, r), back) == GuardCode(cc, Open(b), back) + OpenGuards(r, back + n)
            && GuardHoles(MoreGuards(cc, b, r), at, back) == Holes(b, at + |cc| + 3) + GuardHoles(r, at + n, back + n)
            && GuardExitsFit(MoreGuards(cc, b, r), h, k) == (ExitsFit(b, h, k) && GuardExitsFit(r, h, k + HoleCount(b)))
  {
    hide Open, Holes, Size, GuardCode, GuardLen, ExitsFit, HoleCount;
  }

  // ---------------------------------------------------------------- assignments

  /** The value of e where one of type t is wanted, over `base` words on the stack. */
  method AssignedValue(g: Generator, t: Typ, e: Expr, ghost base: nat)
    requires g.Valid() && InScope(e, g.curLev) && (!g.failed ==> g.sp == base)
    modifies g, g.code
    ensures g.Valid() && g.Now() == PutOn(old(g.Now()), AssignedCode(t, e, g.curLev, base), 1)
  {
    hide GenExpr, Fragged, Tailed, AssignTail, AssignedCode, PutOn;
    ghost var p := g.Now();
    var x := Expression(g, e);
    AssignedPut(p, t, e, g.curLev, base, x);
    x := g.CheckAssComp(t, x);
  }

  /** `PrepAss`, the value, and `GenAssign`. */
  method Assignment(g: Generator, v: Var, e: Expr)
    requires g.Valid() && v.lev <= g.curLev && InScope(e, g.curLev) && (!g.failed ==> g.sp == 0)
    modifies g, g.code
    ensures g.Valid() && g.Now() == Put(old(g.Now()), AssignCode(v, e, g.curLev))
  {
    hide AssignedCode, OpArg, OpArg1, BaseCode, PutOn, Put, Grow;
    ghost var p := g.Now();
    if 0 < v.lev < g.curLev {
      g.PutBase(g.curLev - v.lev);
      AssignedValue(g, v.typ, e, 1);
      g.PutOpArg1(0x70, v.adr, -2);
      OuterPut(p, v, e, g.curLev);
    } else {
      AssignedValue(g, v.typ, e, 0);
      g.PutSto(v);
      NearPut(p, v, e, g.curLev);
    }
  }

  /** Code that takes d words off the stack. */
  function Stored(a: Progress, o: Option<seq<byte>>, d: int): Progress {
    match o case None => Stopped case Some(c) => Grow(a, c, d, d)
  }

  lemma {:induction false} StoredPut(a: Progress, o: Option<seq<byte>>, d: int)
    requires d <= 0 && (a.At? ==> a.sp <= STACK_DEPTH)
    ensures Stored(a, o, d) == PutOn(a, o, d)
  {
  }

  lemma {:induction false} NearPut(p: Progress, v: Var, e: Expr, lev: nat)
    requires Idle(p) && (v.lev == 0 || v.lev == lev)
    ensures Stored(PutOn(p, AssignedCode(v.typ, e, lev, 0), 1), OpArg(if v.lev == 0 then 0x50 else 0x30, v.adr), -1)
         == Put(p, AssignCode(v, e, lev))
  {
    hide AssignedCode, OpArg, OpArg1, Grow;
    var c, st := AssignedCode(v.typ, e, lev, 0), OpArg(if v.lev == 0 then 0x50 else 0x30, v.adr);
    StoredPut(PutOn(p, c, 1), st, -1);
    PutOnTwice(p, c, 1, st, -1);
    PutOnIdle(p, Joined(c, st));
  }

  lemma {:induction false} OuterPut(p: Progress, v: Var, e: Expr, lev: nat)
    requires Idle(p) && 0 < v.lev < lev
    ensures Stored(PutOn(Grow(p, BaseCode(lev - v.lev), 1, 1), AssignedCode(v.typ, e, lev, 1), 1), OpArg1(0x70, v.adr), -2)
         == Put(p, AssignCode(v, e, lev))
  {
    hide AssignedCode, OpArg, OpArg1, BaseCode, Grow, PutOn, Put;
    var b, c, st := Some(BaseCode(lev - v.lev)), AssignedCode(v.typ, e, lev, 1), OpArg1(0x70, v.adr);
    GrowPutOn(p, b.value, 1, 1);
    PutOnTwice(p, b, 1, c, 1);
    StoredPut(PutOn(p, Joined(b, c), 2), st, -2);
    PutOnTwice(p, Joined(b, c), 2, st, -2);
    PutOnIdle(p, Joined(Joined(b, c), st));
  }

  method AssignPart(g: Generator, l: LoopStack, s: Stmt)
    requires s.Assign? && Steady(g, l) && VarsVisible(s, g.curLev) && l.h + LoopDepth(s) <= LOOP_LEVELS
    modifies g, g.code, l, l.index, l.exits
    ensures Steady(g, l) && g.Now() == Placed(old(g.Now()), Sketch(s, g.curLev), old(l.h), old(l.k))
    ensures Recorded(g, l, HolesOf(Sketch(s, g.curLev), old(g.pc)))
    decreases s, 0
  {
    hide Placed, Put, Open, AssignCode, Checked, GenExpr;
    ghost var p := g.Now();
    SketchAssign(s, g.curLev);
    Assignment(g, s.v, s.e);
    CheckStack(g);
    StraightPlaced(p, AssignCode(s.v, s.e, g.curLev), l.h, l.k);
  }

  lemma {:induction false} SketchAssign(s: Stmt, lev: nat)
    requires s.Assign?
    ensures Sketch(s, lev) == StraightOf(AssignCode(s.v, s.e, lev))
    ensures forall at: nat {:trigger HolesOf(Sketch(s, lev), at)} :: HolesOf(Sketch(s, lev), at) == []
  {
    hide SketchGuards, SketchArms, SketchDefault, ArmTable, AssignCode, CondCode, ValueCode, ForHead;
  }

  // ---------------------------------------------------------------------- FOR

  /** Address, initial value, limit and direction of a FOR. */
  method ForFrontPart(g: Generator, s: Stmt) returns (loc: nat)
    requires s.For? && g.Valid() && s.v.lev <= g.curLev && InScope(s.low, g.curLev) && InScope(s.high, g.curLev)
    requires !g.failed ==> g.sp == 0
    modifies g, g.code
    ensures g.Valid() && g.Now() == Put(old(g.Now()), Joined(ForHead(s.v, s.low, s.high, g.curLev), OpenFront(s.step)))
    ensures !g.failed ==> loc + 2 == g.pc
  {
    hide AssignedCode, LimitCode, AddressCode, PutOn, Put, Grow, GenExpr, Fragged, Tailed, LimitTail, OpenFront;
    ghost var p, lev := g.Now(), g.curLev;
    g.LoadAdr(s.v);
    AssignedValue(g, s.v.typ, s.low, 1);
    ghost var p2 := g.Now();
    var x := Expression(g, s.high);
    LimitPut(p2, s.v.typ, s.high, lev, 2, x);
    x := g.GenFor2(s.v.typ, x);
    loc := g.GenFor3(s.step);
    HeadPut(p, s, lev);
  }

  lemma {:induction false} HeadPut(p: Progress, s: Stmt, lev: nat)
    requires Idle(p) && s.For? && AddressCode(s.v, lev).Some?
    ensures var p1 := Grow(p, AddressCode(s.v, lev).value, 1, 1);
            var p2 := PutOn(p1, AssignedCode(s.v.typ, s.low, lev, 1), 1);
            var p3 := PutOn(p2, LimitCode(s.v.typ, s.high, lev, 2), 1);
            FrontGrown(p3, s.step) == Put(p, Joined(ForHead(s.v, s.low, s.high, lev), OpenFront(s.step)))
  {
    hide AssignedCode, LimitCode, AddressCode, PutOn, Put, Grow;
    var ca, cl, ch := AddressCode(s.v, lev), AssignedCode(s.v.typ, s.low, lev, 1), LimitCode(s.v.typ, s.high, lev, 2);
    GrowPutOn(p, ca.value, 1, 1);
    PutOnTwice(p, ca, 1, cl, 1);
    PutOnTwice(p, Joined(ca, cl), 2, ch, 1);
    FrontPut(PutOn(p, Joined(Joined(ca, cl), ch), 3), s.step);
    PutOnTwice(p, Joined(Joined(ca, cl), ch), 3, OpenFront(s.step), -3);
    PutOnIdle(p, Joined(Joined(Joined(ca, cl), ch), OpenFront(s.step)));
  }

  /** What `GenFor3` emits. */
  function FrontGrown(a: Progress, step: int): Progress {
    if step == 0 then Stopped else Grow(a, [0xC0, if step > 0 then 0 else 1] + [0, 0], -3, 0)
  }

  lemma {:induction false} FrontPut(a: Progress, step: int)
    requires a.At? ==> a.sp <= STACK_DEPTH
    ensures FrontGrown(a, step) == PutOn(a, OpenFront(step), -3)
  {
  }

  method ForPart(g: Generator, l: LoopStack, s: Stmt)
    requires s.For? && Steady(g, l) && VarsVisible(s, g.curLev) && l.h + LoopDepth(s) <= LOOP_LEVELS
    modifies g, g.code, l, l.index, l.exits
    ensures Steady(g, l) && g.Now() == Placed(old(g.Now()), Sketch(s, g.curLev), old(l.h), old(l.k))
    ensures Recorded(g, l, HolesOf(Sketch(s, g.curLev), old(g.pc)))
    decreases s, 0
  {
    hide Placed, Put, Open, ExitsFit, Holes, HoleCount, Size, Sketch, ForHead, OpenFront, Checked, Patched, ForBack, InScope;
    ghost var p, h, k, at, hd, fb := g.Now(), l.h, l.k, g.pc, ForHead(s.v, s.low, s.high, g.curLev), Sketch(s.body, g.curLev);
    SketchFor(s, g.curLev);
    var loc := ForFrontPart(g, s);
    var start := g.pc;
    StatSeq(g, l, s.body);
    ghost var p2 := g.Now();
    g.GenFor4(s.step, loc, start);
    CheckStack(g);
    CountPlaced(p, hd, s.step, fb, h, k, loc);
    if p2.At? {
      GrowPut(p2, ForBack(s.step, Size(fb.value)));
      FrontLength(s.step);
      HolesFor(hd.value, s.step, fb.value, at);
    } else {
      ForStopped(p, hd, s.step, fb, h, k);
    }
  }

  lemma {:induction false} FrontLength(step: int)
    ensures OpenFront(step).Some? ==> |OpenFront(step).value| == 4
  {
  }

  lemma {:induction false} ForStopped(p: Progress, hd: Option<seq<byte>>, step: int, b: Option<Flow>, h: nat, k: nat)
    requires Placed(Put(p, Joined(hd, OpenFront(step))), b, h, k).Stopped?
    ensures Placed(p, CountOf(hd, step, b), h, k).Stopped?
  {
    hide Open, ForFront, ForBack;
  }

  lemma {:induction false} SketchFor(s: Stmt, lev: nat)
    requires s.For?
    ensures Sketch(s, lev) == CountOf(ForHead(s.v, s.low, s.high, lev), s.step, Sketch(s.body, lev))
  {
    hide SketchGuards, SketchArms, SketchDefault, ArmTable, AssignCode, CondCode, ValueCode, ForHead;
  }

  lemma {:induction false} HolesFor(head: seq<byte>, step: int, b: Flow, at: nat)
    ensures Holes(Count(head, step, b), at) == Holes(b, at + |head| + 4)
  {
    hide GuardHoles, ArmHoles, DefaultHoles, Size, GuardLen, GuardHoleCount, ArmHoleCount, DefaultHoleCount, GuardsSize, ArmsSize,
         DefaultSize, BackJump, TableLen;
  }

  // --------------------------------------------------------------------- CASE

  /** The selector and ENTC. */
  method Selector(g: Generator, e: Expr) returns (loc: nat)
    requires g.Valid() && InScope(e, g.curLev) && (!g.failed ==> g.sp == 0)
    modifies g, g.code
    ensures g.Valid() && g.Now() == Put(old(g.Now()), WithJump(ValueCode(e, g.curLev, 0), [0xC2, 0, 0]))
    ensures !g.failed ==> loc + 2 == g.pc
  {
    hide ValueCode, GenExpr, Opened, Fragged, SelectTail, Put;
    ghost var p := g.Now();
    var x := Expression(g, e);
    SelectPut(p, e, g.curLev, x);
    loc := g.GenCase1(x);
  }

  /** The table after the arms from a on, if it can be made. */
  function TableOf(a: Arms, fa: Option<FlowArms>, at: nat, tab: seq<Entry>): Option<seq<Entry>> {
    var f :- fa;
    ArmTable(a, f, at, tab)
  }

  function ArmHolesOf(o: Option<FlowArms>, at: nat): seq<nat> {
    match o case None => [] case Some(f) => ArmHoles(f, at)
  }

  /** The arms from a on. The table array holds the ranges of t, with labels counted from the
      start of the buffer instead of from `origin`, where the first arm starts. */
  method ArmsPart(g: Generator, l: LoopStack, a: Arms, tab: array<Entry>, n0: nat, ghost t: seq<Entry>, ghost at: nat, ghost origin: nat)
    returns (n: nat)
    requires Steady(g, l) && ArmsVisible(a, g.curLev) && l.h + ArmDepth(a) <= LOOP_LEVELS
    requires tab.Length == MAX_CASES && n0 <= MAX_CASES && Apart(g, l, tab)
    requires !g.failed ==> Ordered(t) && tab[..n0] == Shift(t, origin) && g.pc == origin + at
    modifies g, g.code, l, l.index, l.exits, tab
    ensures Steady(g, l) && n <= MAX_CASES
    ensures var fa := SketchArms(a, g.curLev);
            && Laid(old(g.Now()), g.Now(), OpenArmsOf(fa, TableOf(a, fa, at, t)), fa.Some? && ArmExitsFit(fa.value, old(l.h), old(l.k)))
            && Recorded(g, l, ArmHolesOf(fa, old(g.pc)))
            && (!g.failed ==> TableOf(a, fa, at, t).Some? && Ordered(TableOf(a, fa, at, t).value)
                              && tab[..n] == Shift(TableOf(a, fa, at, t).value, origin))
    decreases a, 1
  {
    if a.NoArms? {
      NoArmsLaid(g.Now(), g.curLev, at, t, l.h, l.k);
      n := n0;
    } else {
      n := MoreArmsPart(g, l, a, tab, n0, t, at, origin);
    }
  }

  method MoreArmsPart(g: Generator, l: LoopStack, a: Arms, tab: array<Entry>, n0: nat, ghost t: seq<Entry>, ghost at: nat, ghost origin: nat)
    returns (n: nat)
    requires a.Arm?
    requires Steady(g, l) && ArmsVisible(a, g.curLev) && l.h + ArmDepth(a) <= LOOP_LEVELS
    requires tab.Length == MAX_CASES && n0 <= MAX_CASES && Apart(g, l, tab)
    requires !g.failed ==> Ordered(t) && tab[..n0] == Shift(t, origin) && g.pc == origin + at
    modifies g, g.code, l, l.index, l.exits, tab
    ensures Steady(g, l) && n <= MAX_CASES
    ensures var fa := SketchArms(a, g.curLev);
            && Laid(old(g.Now()), g.Now(), OpenArmsOf(fa, TableOf(a, fa, at, t)), fa.Some? && ArmExitsFit(fa.value, old(l.h), old(l.k)))
            && Recorded(g, l, ArmHolesOf(fa, old(g.pc)))
            && (!g.failed ==> TableOf(a, fa, at, t).Some? && Ordered(TableOf(a, fa, at, t).value)
                              && tab[..n] == Shift(TableOf(a, fa, at, t).value, origin))
    decreases a, 0
  {
    hide Placed, Put, Open, ExitsFit, Holes, HoleCount, Size, Sketch, SketchArms, OpenArms, ArmHoles, ArmExitsFit, Shift, Ordered,
         ArmTable, InsertAll, VarsVisible, LoopDepth;
    ghost var p, h, k, lev := g.Now(), l.h, l.k, g.curLev;
    ghost var fb, u := Sketch(a.body, lev), InsertAll(t, a.labels, at);
    n := OneArm(g, l, a.labels, a.body, tab, n0, t, at, origin);
    ghost var p1 := g.Now();
    if fb.Some? {
      CountHoles(fb.value, origin + at);
    }
    ghost var v, next := if u.Some? then u.value else [], at + 1 + if fb.Some? then Size(fb.value) else 0;
    n := ArmsPart(g, l, a.rest, tab, n, v, next, origin);
    ghost var fr := SketchArms(a.rest, lev);
    MoreArms(p, p1, g.Now(), fb, u, fr, TableOf(a.rest, fr, next, v), h, k, if fb.Some? then k + HoleCount(fb.value) else 0);
    ArmsSketch(a, lev);
    if fb.Some? && fr.Some? {
      ArmsTable(a, fb.value, fr.value, at, t);
      ArmsOpen(fb.value, fr.value, h, k, origin + at);
    }
  }

  /** The array of ranges is none of the other arrays. */
  ghost predicate Apart(g: Generator, l: LoopStack, tab: array<Entry>) {
    tab != g.code as object && tab != l.index as object && tab != l.exits as object
  }

  /** One arm: its labels, its body, and EXC. */
  method OneArm(g: Generator, l: LoopStack, labels: seq<Range>, b: Stmt, tab: array<Entry>, n0: nat, ghost t: seq<Entry>,
                ghost at: nat, ghost origin: nat) returns (n: nat)
    requires Steady(g, l) && VarsVisible(b, g.curLev) && l.h + LoopDepth(b) <= LOOP_LEVELS
    requires tab.Length == MAX_CASES && n0 <= MAX_CASES && Apart(g, l, tab)
    requires !g.failed ==> Ordered(t) && tab[..n0] == Shift(t, origin) && g.pc == origin + at
    modifies g, g.code, l, l.index, l.exits, tab
    ensures Steady(g, l) && n <= MAX_CASES
    ensures var fb, u := Sketch(b, g.curLev), InsertAll(t, labels, at);
            && Laid(old(g.Now()), g.Now(), ArmOf(fb, u), fb.Some? && ExitsFit(fb.value, old(l.h), old(l.k)))
            && Recorded(g, l, HolesOf(fb, old(g.pc)))
            && (!g.failed ==> u.Some? && Ordered(u.value) && tab[..n] == Shift(u.value, origin))
    decreases b, 4
  {
    hide Placed, Put, Open, ExitsFit, Holes, HoleCount, Size, Sketch, Shift, Ordered, InsertAll, GenExpr, Assemble, Grow, GenLoaded,
         VarsVisible, LoopDepth;
    ghost var p, h, k := g.Now(), l.h, l.k;
    ghost var fb, u := Sketch(b, g.curLev), InsertAll(t, labels, at);
    if !g.failed {
      LabelsShift(t, labels, at, origin);
    }
    n := CaseLabelList(g, labels, tab, n0, g.pc);
    ghost var p1 := g.Now();
    StatSeq(g, l, b);
    GrowPut(g.Now(), [0xC3]);
    g.PutOpZ(0xC3);
    ArmLaid(p, p1, u, fb, h, k);
  }

  function ArmOf(fb: Option<Flow>, u: Option<seq<Entry>>): Option<seq<byte>> {
    var f :- fb;
    var t :- u;
    Some(Open(f) + [0xC3])
  }

  lemma {:induction false} LabelsShift(t: seq<Entry>, labels: seq<Range>, at: int, origin: int)
    requires Ordered(t)
    ensures Ordered(Shift(t, origin))
    ensures InsertAll(Shift(t, origin), labels, origin + at)
         == match InsertAll(t, labels, at) case None => None case Some(u) => Some(Shift(u, origin))
    ensures InsertAll(t, labels, at).Some? ==> Ordered(InsertAll(t, labels, at).value)
  {
    InsertAllShift(t, labels, at, origin);
    OrderedShift(t, origin);
    if InsertAll(t, labels, at).Some? {
      InsertAllMeaning(t, labels, at, 0, 0);
    }
  }

  /** The labels either stop the compiler or change nothing in the code. */
  lemma {:induction false} ArmLaid(p: Progress, p1: Progress, u: Option<seq<Entry>>, fb: Option<Flow>, h: nat, k: nat)
    requires p1 == if u == None then Stopped else p
    ensures Laid(p, Put(Placed(p1, fb, h, k), Some([0xC3])), ArmOf(fb, u), fb.Some? && ExitsFit(fb.value, h, k))
  {
    hide Open, ExitsFit;
    PlacedLaid(p1, fb, h, k);
    PutLaid(Placed(p1, fb, h, k), Some([0xC3]));
    LaidTwice(p1, Placed(p1, fb, h, k), Put(Placed(p1, fb, h, k), Some([0xC3])), OpenOf(fb), fb.Some? && ExitsFit(fb.value, h, k),
              Some([0xC3]), true);
  }

  lemma {:induction false} NoArmsLaid(p: Progress, lev: nat, at: nat, t: seq<Entry>, h: nat, k: nat)
    requires p.At? ==> p.sp == 0
    ensures var fa := SketchArms(NoArms, lev);
            && fa == Some(NoFlowArms) && TableOf(NoArms, fa, at, t) == Some(t) && ArmHolesOf(fa, at) == []
            && Laid(p, p, OpenArmsOf(fa, Some(t)), ArmExitsFit(fa.value, h, k))
            && forall i: nat {:trigger ArmHolesOf(fa, i)} :: ArmHolesOf(fa, i) == []
  {
  }

  function ArmListOf(fb: Option<Flow>, fr: Option<FlowArms>): Option<FlowArms> {
    var b :- fb;
    var r :- fr;
    Some(FlowArm(b, r))
  }

  lemma {:induction false} ArmsSketch(a: Arms, lev: nat)
    requires a.Arm?
    ensures SketchArms(a, lev) == ArmListOf(Sketch(a.body, lev), SketchArms(a.rest, lev))
  {
    hide Sketch;
  }

  lemma {:induction false} ArmsTable(a: Arms, fb: Flow, fr: FlowArms, at: nat, t: seq<Entry>)
    requires a.Arm?
    ensures ArmTable(a, FlowArm(fb, fr), at, t)
         == match InsertAll(t, a.labels, at) case None => None case Some(u) => ArmTable(a.rest, fr, at + Size(fb) + 1, u)
  {
    hide Size, InsertAll;
  }

  lemma {:induction false} ArmsOpen(fb: Flow, fr: FlowArms, h: nat, k: nat, at: nat)
    ensures OpenArms(FlowArm(fb, fr)) == (Open(fb) + [0xC3]) + OpenArms(fr)
    ensures ArmExitsFit(FlowArm(fb, fr), h, k) == (ExitsFit(fb, h, k) && ArmExitsFit(fr, h, k + HoleCount(fb)))
    ensures ArmHoles(FlowArm(fb, fr), at) == Holes(fb, at) + ArmHoles(fr, at + Size(fb) + 1)
  {
    hide Open, ExitsFit, Holes, Size, HoleCount;
  }

  lemma {:induction false} MoreArms(p: Progress, p1: Progress, b: Progress, fb: Option<Flow>, u: Option<seq<Entry>>, fr: Option<FlowArms>,
                 tr: Option<seq<Entry>>, h: nat, k: nat, k2: nat)
    requires Laid(p, p1, ArmOf(fb, u), fb.Some? && ExitsFit(fb.value, h, k)) && (p1.Stopped? ==> b.Stopped?)
    requires p1.At? ==> Laid(p1, b, OpenArmsOf(fr, tr), fr.Some? && ArmExitsFit(fr.value, h, k2))
    requires fb.Some? ==> k2 == k + HoleCount(fb.value)
    ensures var fa := ArmListOf(fb, fr);
            Laid(p, b, OpenArmsOf(fa, if u.Some? then tr else None), fa.Some? && ArmExitsFit(fa.value, h, k))
  {
    hide Open, OpenArms, ExitsFit, ArmExitsFit, HoleCount;
    if p1.At? {
      LaidTwice(p, p1, b, ArmOf(fb, u), fb.Some? && ExitsFit(fb.value, h, k), OpenArmsOf(fr, tr), fr.Some? && ArmExitsFit(fr.value, h, k2));
    }
    if fb.Some? && fr.Some? {
      ArmsOpen(fb.value, fr.value, h, k, 0);
    }
  }

  function DefaultHolesOf(o: Option<FlowDefault>, at: nat): seq<nat> {
    match o case None => [] case Some(f) => DefaultHoles(f, at)
  }

  /** The ELSE part of a CASE, or the trap in its place. */
  method DefaultPart(g: Generator, l: LoopStack, d: Default)
    requires Steady(g, l) && (d.Else? ==> VarsVisible(d.body, g.curLev) && l.h + LoopDepth(d.body) <= LOOP_LEVELS)
    modifies g, g.code, l, l.index, l.exits
    ensures Steady(g, l)
    ensures var fd := SketchDefault(d, g.curLev);
            && Laid(old(g.Now()), g.Now(), OpenDefaultOf(fd), fd.Some? && DefaultExitsFit(fd.value, old(l.h), old(l.k)))
            && Recorded(g, l, DefaultHolesOf(fd, old(g.pc)))
    decreases d, 4
  {
    hide Placed, Put, Open, ExitsFit, Holes, Size, Sketch;
    ghost var p := g.Now();
    if d.Else? {
      StatSeq(g, l, d.body);
      GrowPut(g.Now(), [0xC3]);
      g.PutOpZ(0xC3);
      ElseLaid(p, Sketch(d.body, g.curLev), l.h, old(l.k));
    } else {
      TrapLaid(p);
      g.GenTrap(4);
    }
  }

  lemma {:induction false} ElseLaid(p: Progress, fb: Option<Flow>, h: nat, k: nat)
    requires Idle(p)
    ensures Laid(p, Put(Placed(p, fb, h, k), Some([0xC3])), match fb case None => None case Some(f) => Some(Open(f) + [0xC3]),
                 fb.Some? && ExitsFit(fb.value, h, k))
  {
    hide Open, ExitsFit;
    ArmLaid(p, p, Some([]), fb, h, k);
  }

  lemma {:induction false} TrapLaid(p: Progress)
    requires Idle(p)
    ensures Laid(p, Grow(p, LitCode(4) + [0xC4], 0, 1), Some(TRAP_CODE), true)
  {
    assert LitCode(4) + [0xC4] == TRAP_CODE;
  }

  method CasePart(g: Generator, l: LoopStack, s: Stmt)
    requires s.Case? && Steady(g, l) && VarsVisible(s, g.curLev) && l.h + LoopDepth(s) <= LOOP_LEVELS
    modifies g, g.code, l, l.index, l.exits
    ensures Steady(g, l) && g.Now() == Placed(old(g.Now()), Sketch(s, g.curLev), old(l.h), old(l.k))
    ensures Recorded(g, l, HolesOf(Sketch(s, g.curLev), old(g.pc)))
    decreases s, 2
  {
    hide Placed, Put, Open, ExitsFit, Holes, Size, Sketch, SketchArms, SketchDefault, ValueCode, InScope, ArmHoles, DefaultHoles,
         ArmTable, ArmsSize, DefaultSize, TableCode;
    ghost var p, at, lev := g.Now(), g.pc, g.curLev;
    ghost var ce, fa, fd := ValueCode(s.sel, lev, 0), SketchArms(s.arms, lev), SketchDefault(s.default, lev);
    SketchCase(s, lev);
    var loc := Selector(g, s.sel);
    CaseRest(g, l, s, loc, p, ce);
    if ce.Some? && fa.Some? && fd.Some? && TableOf(s.arms, fa, 0, []).Some? {
      HolesCase(ce.value, fa.value, fd.value, TableOf(s.arms, fa, 0, []).value, at);
    }
  }

  /** All arms of a CASE, and the table of their ranges. */
  method AllArms(g: Generator, l: LoopStack, a: Arms) returns (tab: array<Entry>, n: nat)
    requires Steady(g, l) && ArmsVisible(a, g.curLev) && l.h + ArmDepth(a) <= LOOP_LEVELS
    modifies g, g.code, l, l.index, l.exits
    ensures Steady(g, l) && n <= MAX_CASES == tab.Length && fresh(tab)
    ensures var fa := SketchArms(a, g.curLev);
            var tr := TableOf(a, fa, 0, []);
            && Laid(old(g.Now()), g.Now(), OpenArmsOf(fa, tr), fa.Some? && ArmExitsFit(fa.value, old(l.h), old(l.k)))
            && Recorded(g, l, ArmHolesOf(fa, old(g.pc)))
            && (!g.failed ==>
                  && !old(g.failed) && fa.Some? && tr.Some? && Ordered(tr.value) && tab[..n] == Shift(tr.value, old(g.pc))
                  && g.pc == old(g.pc) + ArmsSize(fa.value) && l.k == old(l.k) + ArmHoleCount(fa.value))
    decreases a, 2
  {
    hide OpenArms, ArmHoles, ArmExitsFit, ArmHoleCount, ArmTable, Shift, Ordered, Laid, ArmsSize, ArmsVisible, ArmDepth, SketchArms;
    ghost var p, h, k, origin := g.Now(), l.h, l.k, g.pc;
    tab := new Entry[MAX_CASES];
    NoRanges(origin);
    assert tab[..0] == [];
    n := ArmsPart(g, l, a, tab, 0, [], 0, origin);
    ghost var fa := SketchArms(a, g.curLev);
    ArmsLaid(p, g.Now(), fa, TableOf(a, fa, 0, []), h, k, origin);
  }

  /** The arms, the ELSE part and the table of a CASE whose selector and ENTC have been emitted. */
  method CaseRest(g: Generator, l: LoopStack, s: Stmt, loc: nat, ghost p: Progress, ghost ce: Option<seq<byte>>)
    requires s.Case? && Steady(g, l) && ArmsVisible(s.arms, g.curLev) && l.h + ArmDepth(s.arms) <= LOOP_LEVELS
    requires s.default.Else? ==> VarsVisible(s.default.body, g.curLev) && l.h + LoopDepth(s.default.body) <= LOOP_LEVELS
    requires g.Now() == Put(p, WithJump(ce, [0xC2, 0, 0])) && (!g.failed ==> loc + 2 == g.pc)
    modifies g, g.code, l, l.index, l.exits
    ensures Steady(g, l) && (old(g.failed) ==> g.failed)
    ensures var lev := g.curLev;
            var fa, fd := SketchArms(s.arms, lev), SketchDefault(s.default, lev);
            && g.Now() == Placed(p, ChoiceOf(ce, fa, fd, TableOf(s.arms, fa, 0, [])), old(l.h), old(l.k))
            && Recorded(g, l, ArmHolesOf(fa, old(g.pc)) + DefaultHolesOf(fd, old(g.pc) + if fa.Some? then ArmsSize(fa.value) else 0))
    decreases s, 1
  {
    hide Placed, Put, Open, ExitsFit, Holes, Size, Sketch, SketchArms, SketchDefault, OpenArms, OpenDefault, ArmHoles,
         DefaultHoles, ArmExitsFit, DefaultExitsFit, ArmHoleCount, ArmTable, TableCode, Shift, Ordered, Checked, Patched, Laid,
         ArmsSize, DefaultSize, VarsVisible, ArmsVisible, LoopDepth, ArmDepth;
    ghost var h, k, lev, origin := l.h, l.k, g.curLev, g.pc;
    ghost var fa, fd := SketchArms(s.arms, lev), SketchDefault(s.default, lev);
    ghost var tr := TableOf(s.arms, fa, 0, []);
    var tab, n, other, p2 := ArmsAndElse(g, l, s);
    ghost var p3 := g.Now();
    FinishCase(g, loc, other, n, tab, origin, fa, fd, tr);
    ChoicePlaced(p, ce, p2, fa, tr, p3, fd, TableBytes(fa, fd, tr), h, k, if fa.Some? then k + ArmHoleCount(fa.value) else 0, loc);
  }

  /** The arms and the ELSE part, which starts at `other`. */
  method ArmsAndElse(g: Generator, l: LoopStack, s: Stmt) returns (tab: array<Entry>, n: nat, other: nat, ghost p2: Progress)
    requires s.Case? && Steady(g, l) && ArmsVisible(s.arms, g.curLev) && l.h + ArmDepth(s.arms) <= LOOP_LEVELS
    requires s.default.Else? ==> VarsVisible(s.default.body, g.curLev) && l.h + LoopDepth(s.default.body) <= LOOP_LEVELS
    modifies g, g.code, l, l.index, l.exits
    ensures Steady(g, l) && n <= tab.Length && fresh(tab)
    ensures var fa, fd := SketchArms(s.arms, g.curLev), SketchDefault(s.default, g.curLev);
            var tr, k2 := TableOf(s.arms, fa, 0, []), if fa.Some? then old(l.k) + ArmHoleCount(fa.value) else 0;
            && Laid(old(g.Now()), p2, OpenArmsOf(fa, tr), fa.Some? && ArmExitsFit(fa.value, old(l.h), old(l.k)))
            && Laid(p2, g.Now(), OpenDefaultOf(fd), fd.Some? && DefaultExitsFit(fd.value, old(l.h), k2))
            && Recorded(g, l, ArmHolesOf(fa, old(g.pc)) + DefaultHolesOf(fd, old(g.pc) + if fa.Some? then ArmsSize(fa.value) else 0))
            && (old(g.failed) ==> g.failed)
            && (!g.failed ==>
                  && p2.At? && fa.Some? && fd.Some? && tr.Some? && Ordered(tr.value) && tab[..n] == Shift(tr.value, old(g.pc))
                  && other == old(g.pc) + ArmsSize(fa.value) && g.pc == other + DefaultSize(fd.value) && g.sp == 0)
    decreases s, 0
  {
    hide Placed, Put, Open, ExitsFit, Holes, Size, Sketch, SketchArms, SketchDefault, OpenArms, OpenDefault, ArmHoles,
         DefaultHoles, ArmExitsFit, DefaultExitsFit, ArmHoleCount, ArmTable, TableCode, Shift, Ordered, Checked, Patched, Laid,
         ArmsSize, DefaultSize, VarsVisible, ArmsVisible, LoopDepth, ArmDepth;
    ghost var k, fa := l.k, SketchArms(s.arms, g.curLev);
    tab, n := AllArms(g, l, s.arms);
    p2 := g.Now();
    other := g.pc;
    ElseArm(g, l, s.default, other, if fa.Some? then k + ArmHoleCount(fa.value) else 0);
  }

  /** The ELSE part behind the arms, which have recorded exits up to k. */
  method ElseArm(g: Generator, l: LoopStack, d: Default, other: nat, ghost k: nat)
    requires Steady(g, l) && (d.Else? ==> VarsVisible(d.body, g.curLev) && l.h + LoopDepth(d.body) <= LOOP_LEVELS)
    requires !g.failed ==> l.k == k && other == g.pc
    modifies g, g.code, l, l.index, l.exits
    ensures Steady(g, l)
    ensures var fd := SketchDefault(d, g.curLev);
            && Laid(old(g.Now()), g.Now(), OpenDefaultOf(fd), fd.Some? && DefaultExitsFit(fd.value, old(l.h), k))
            && Recorded(g, l, DefaultHolesOf(fd, old(g.pc)))
            && (!g.failed ==> !old(g.failed) && fd.Some? && g.sp == 0 && g.pc == old(g.pc) + DefaultSize(fd.value))
    decreases d, 5
  {
    hide Placed, Put, Open, SketchDefault, OpenDefault, DefaultHoles, DefaultExitsFit, Laid, DefaultSize, VarsVisible, LoopDepth;
    ghost var p2, h, now, fd := g.Now(), l.h, l.k, SketchDefault(d, g.curLev);
    DefaultPart(g, l, d);
    AnyFit(p2, g.Now(), OpenDefaultOf(fd), fd.Some? && DefaultExitsFit(fd.value, h, now), fd.Some? && DefaultExitsFit(fd.value, h, k));
    DefaultLaid(p2, g.Now(), fd, h, k, other);
  }

  function TableBytes(fa: Option<FlowArms>, fd: Option<FlowDefault>, tr: Option<seq<Entry>>): seq<byte> {
    if fa.Some? && fd.Some? && tr.Some? then TableCode(tr.value, ArmsSize(fa.value), ArmsSize(fa.value) + DefaultSize(fd.value)) else []
  }

  /** Once stopped, it does not matter which exits would have been accepted. */
  lemma {:induction false} AnyFit(p: Progress, b: Progress, o: Option<seq<byte>>, ok1: bool, ok2: bool)
    requires Laid(p, b, o, ok1) && (p.At? ==> ok1 == ok2)
    ensures Laid(p, b, o, ok2)
  {
  }

  lemma {:induction false} NoRanges(origin: nat)
    ensures Ordered([]) && Shift([], origin) == []
  {
  }

  lemma {:induction false} ArmsLaid(p: Progress, b: Progress, fa: Option<FlowArms>, tr: Option<seq<Entry>>, h: nat, k: nat, at: nat)
    requires Laid(p, b, OpenArmsOf(fa, tr), fa.Some? && ArmExitsFit(fa.value, h, k))
    ensures b.At? ==> p.At? && fa.Some? && tr.Some? && b.sp == 0 && |b.out| == |p.out| + ArmsSize(fa.value)
    ensures fa.Some? ==> |ArmHoles(fa.value, at)| == ArmHoleCount(fa.value)
  {
    if fa.Some? {
      CountArmHoles(fa.value, at);
    }
  }

  lemma {:induction false} DefaultLaid(p: Progress, b: Progress, fd: Option<FlowDefault>, h: nat, k: nat, at: nat)
    requires Laid(p, b, OpenDefaultOf(fd), fd.Some? && DefaultExitsFit(fd.value, h, k))
    ensures b.At? ==> p.At? && fd.Some? && b.sp == 0 && |b.out| == |p.out| + DefaultSize(fd.value)
  {
  }

  /** The table, with labels counted from the start of the buffer, is that of the statement. */
  method FinishCase(g: Generator, loc: nat, other: nat, n: nat, tab: array<Entry>, ghost origin: nat, ghost fa: Option<FlowArms>,
                    ghost fd: Option<FlowDefault>, ghost tr: Option<seq<Entry>>)
    requires g.Valid() && n <= tab.Length && (!g.failed ==> loc + 1 < g.pc && g.sp == 0)
    requires !g.failed ==> fa.Some? && fd.Some? && tr.Some? && Ordered(tr.value) && tab[..n] == Shift(tr.value, origin)
                           && other == origin + ArmsSize(fa.value) && g.pc == other + DefaultSize(fd.value)
    modifies g, g.code
    ensures g.Valid() && g.Now() == Checked(Put(Patched(old(g.Now()), loc), Some(TableBytes(fa, fd, tr)))) && (!g.failed ==> g.sp == 0)
  {
    hide TableCode, Ordered, Shift, Checked, Patched, ArmsSize, DefaultSize;
    ghost var q := g.Now();
    if !g.failed {
      OrderedShift(tr.value, origin);
      TableShift(tr.value, ArmsSize(fa.value), ArmsSize(fa.value) + DefaultSize(fd.value), origin);
    }
    GenCase3(g, loc, other, n, tab);
    GrowPut(Patched(q, loc), TableBytes(fa, fd, tr));
    CheckStack(g);
  }

  lemma {:induction false} SketchCase(s: Stmt, lev: nat)
    requires s.Case?
    ensures var fa := SketchArms(s.arms, lev);
            Sketch(s, lev) == ChoiceOf(ValueCode(s.sel, lev, 0), fa, SketchDefault(s.default, lev), TableOf(s.arms, fa, 0, []))
  {
    hide SketchGuards, SketchArms, SketchDefault, ArmTable, AssignCode, CondCode, ValueCode, ForHead;
  }

  lemma {:induction false} HolesCase(ce: seq<byte>, arms: FlowArms, d: FlowDefault, tab: seq<Entry>, at: nat)
    ensures Holes(Choice(ce, arms, d, tab), at) == ArmHoles(arms, at + |ce| + 3) + DefaultHoles(d, at + |ce| + 3 + ArmsSize(arms))
  {
    hide GuardHoles, ArmHoles, DefaultHoles, Size, GuardLen, GuardHoleCount, ArmHoleCount, DefaultHoleCount, GuardsSize, ArmsSize,
         DefaultSize, BackJump, TableLen;
  }

  // --------------------------------------------------------------- whole bodies

  /** What the compiler accepts: no error in the statement, every EXIT in a LOOP with room to
      record it, and enough room for the code. */
  predicate Accepted(s: Stmt, lev: nat, at: nat) {
    match Sketch(s, lev)
    case None => false
    case Some(f) => ExitsFit(f, 0, 0) && at + Size(f) <= CODE_LIMIT
  }

  /** A well-typed body in terms of its source: what is accepted when the code fits behind `at`, and
      what is accepted because its code cannot be too long. */
  lemma {:induction false} AcceptedWhen(s: Stmt, lev: nat, at: nat)
    requires Typable(s)
    ensures Accepted(s, lev, at) <==>
              && Acceptable(s, lev) && ExitsHeld(s, 0, 0)
              && BodyCode(s, lev).Some? && at + |BodyCode(s, lev).value| <= 11001
    ensures Acceptable(s, lev) && ExitsHeld(s, 0, 0) && at + R.Room(s) <= 11000 ==> Accepted(s, lev, at)
  {
    hide Sketch, Acceptable, ExitsHeld, ExitsFit, WellTyped, R.Room, Size, Typable, Assemble;
    BodyAccepted(s, lev);
    if Sketch(s, lev).Some? {
      R.StmtRoom(s, lev);
    }
  }

  /** A body outside all LOOPs: what ends up in the buffer is the resolved code of the statement
      and RTN. Of a well-typed body an error is reported exactly when it is not acceptable, an EXIT
      is outside all LOOPs or one too many, or its code is too long. */
  method CompileBody(g: Generator, l: LoopStack, s: Stmt)
    requires Steady(g, l) && VarsVisible(s, g.curLev) && LoopDepth(s) <= LOOP_LEVELS && l.h == 0 && l.k == 0 && !g.failed
    modifies g, g.code, l, l.index, l.exits
    ensures Steady(g, l) && (g.failed <==> !Accepted(s, g.curLev, old(g.pc)))
    ensures !g.failed ==> BodyCode(s, g.curLev).Some? && g.Out() == old(g.Out()) + BodyCode(s, g.curLev).value
    ensures Typable(s) ==>
              (g.failed <==> !(Acceptable(s, g.curLev) && ExitsHeld(s, 0, 0)
                               && BodyCode(s, g.curLev).Some? && old(g.pc) + |BodyCode(s, g.curLev).value| <= 11001))
    ensures Typable(s) && Acceptable(s, g.curLev) && ExitsHeld(s, 0, 0) && old(g.pc) + R.Room(s) <= 11000 ==> !g.failed
  {
    hide Open, Assemble, Sketch, Size, ExitsFit, VarsVisible, LoopDepth, Holes, Typable, Acceptable, ExitsHeld, R.Room;
    ghost var p, f := g.Now(), Sketch(s, g.curLev);
    if Typable(s) {
      AcceptedWhen(s, g.curLev, g.pc);
    }
    StatSeq(g, l, s);
    if !g.failed {
      AcceptedIsResolved(f.value, 0);
      assert p.out + Assemble(f.value, 0) + [0xEC] == p.out + (Assemble(f.value, 0) + [0xEC]);
    }
    g.PutOpZ(0xEC);
  }
}
