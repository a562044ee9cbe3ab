/** What compiling a statement does to the code emitted so far, and how the parts of a statement
    add up to the whole. */
module Placing {
  import opened Words
  import opened Options
  import opened Lang
  import opened StmtLang
  import opened ExprGen
  import opened StmtGen
  import opened Tails
  import opened Emitter
  import opened Exits
  import opened Loops

  /** `CheckStack` stops when the code comes within a relocation table's length of the end. */
  const CODE_LIMIT: nat := 11000

  // -------------------------------------------------- which EXITs are accepted

  /** How many EXITs of a statement lead out of it. */
  function HoleCount(f: Flow): nat
    decreases f
  {
    match f
    case Straight(_) => 0
    case Chain(a, b) => HoleCount(a) + HoleCount(b)
    case Branch(_, t) => HoleCount(t)
    case Branch2(_, t, e) => HoleCount(t) + HoleCount(e)
    case Rounds(g) => GuardHoleCount(g)
    case Until(b, _) => HoleCount(b)
    case Forever(_) => 0
    case Leave => 1
    case Count(_, _, b) => HoleCount(b)
    case Choice(_, arms, d, _) => ArmHoleCount(arms) + DefaultHoleCount(d)
  }

  function GuardHoleCount(g: FlowGuards): nat
    decreases g
  {
    HoleCount(g.body) + if g.LastGuard? then 0 else GuardHoleCount(g.rest)
  }

  function ArmHoleCount(a: FlowArms): nat
    decreases a
  {
    if a.NoFlowArms? then 0 else HoleCount(a.body) + ArmHoleCount(a.rest)
  }

  function DefaultHoleCount(d: FlowDefault): nat
    decreases d
  {
    if d.TrapHere? then 0 else HoleCount(d.body)
  }

  /** Every EXIT stands in one of the h open LOOPs, and there is room to record it behind the k
      exits already open. */
  predicate ExitsFit(f: Flow, h: nat, k: nat)
    decreases f
  {
    match f
    case Straight(_) => true
    case Chain(a, b) => ExitsFit(a, h, k) && ExitsFit(b, h, k + HoleCount(a))
    case Branch(_, t) => ExitsFit(t, h, k)
    case Branch2(_, t, e) => ExitsFit(t, h, k) && ExitsFit(e, h, k + HoleCount(t))
    case Rounds(g) => GuardExitsFit(g, h, k)
    case Until(b, _) => ExitsFit(b, h, k)
    case Forever(b) => ExitsFit(b, h + 1, k)
    case Leave => h > 0 && k < NOF_EXITS
    case Count(_, _, b) => ExitsFit(b, h, k)
    case Choice(_, arms, d, _) => ArmExitsFit(arms, h, k) && DefaultExitsFit(d, h, k + ArmHoleCount(arms))
  }

  predicate GuardExitsFit(g: FlowGuards, h: nat, k: nat)
    decreases g
  {
    ExitsFit(g.body, h, k) && (g.MoreGuards? ==> GuardExitsFit(g.rest, h, k + HoleCount(g.body)))
  }

  predicate ArmExitsFit(a: FlowArms, h: nat, k: nat)
    decreases a
  {
    a.FlowArm? ==> ExitsFit(a.body, h, k) && ArmExitsFit(a.rest, h, k + HoleCount(a.body))
  }

  predicate DefaultExitsFit(d: FlowDefault, h: nat, k: nat)
    decreases d
  {
    d.ElseHere? ==> ExitsFit(d.body, h, k)
  }

  lemma {:induction false} CountHoles(f: Flow, at: nat)
    ensures |Holes(f, at)| == HoleCount(f)
    decreases f
  {
    hide GuardLen, BackJump, TableLen, Size, GuardsSize, ArmsSize, GuardHoles, ArmHoles, DefaultHoles, GuardHoleCount, ArmHoleCount,
         DefaultHoleCount;
    match f
    case Straight(_) =>
    case Chain(a, b) => CountHoles(a, at); CountHoles(b, at + Size(a));
    case Branch(cc, t) => CountHoles(t, at + |cc| + 3);
    case Branch2(cc, t, e) => CountHoles(t, at + |cc| + 3); CountHoles(e, at + |cc| + 6 + Size(t));
    case Rounds(g) => CountGuardHoles(g, at, 0);
    case Until(b, _) => CountHoles(b, at);
    case Forever(_) =>
    case Leave =>
    case Count(head, _, b) => CountHoles(b, at + |head| + 4);
    case Choice(ce, arms, d, _) =>
      CountArmHoles(arms, at + |ce| + 3);
      CountDefaultHoles(d, at + |ce| + 3 + ArmsSize(arms));
  }

  lemma {:induction false} CountDefaultHoles(d: FlowDefault, at: nat)
    ensures |DefaultHoles(d, at)| == DefaultHoleCount(d)
    decreases d
  {
    if d.ElseHere? {
      CountHoles(d.body, at);
    }
  }

  lemma {:induction false} CountGuardHoles(g: FlowGuards, at: nat, back: nat)
    ensures |GuardHoles(g, at, back)| == GuardHoleCount(g)
    decreases g
  {
    CountHoles(g.body, at + |g.cond| + 3);
    if g.MoreGuards? {
      var k := GuardLen(|g.cond|, Size(g.body), back);
      CountGuardHoles(g.rest, at + k, back + k);
    }
  }

  lemma {:induction false} CountArmHoles(a: FlowArms, at: nat)
    ensures |ArmHoles(a, at)| == ArmHoleCount(a)
    decreases a
  {
    if a.FlowArm? {
      CountHoles(a.body, at);
      CountArmHoles(a.rest, at + Size(a.body) + 1);
    }
  }

  // ------------------------------------------------------------ whole statements

  function Checked(a: Progress): (b: Progress)
    ensures b.At? ==> a.At? && b.out == a.out && b.sp == 0
  {
    if a.At? && |a.out| <= CODE_LIMIT then At(a.out, 0) else Stopped
  }

  /** Code appended between statements, where the expression stack is empty. */
  function Put(a: Progress, o: Option<seq<byte>>): (b: Progress)
    ensures b.At? ==> a.At? && o.Some? && |b.out| == |a.out| + |o.value| && b.sp == 0
  {
    match o
    case None => Stopped
    case Some(c) => if a.Stopped? || |a.out| + |c| > CODE_LENGTH then Stopped else At(a.out + c, 0)
  }

  /** A statement compiled with h LOOPs and k exits open. */
  function Placed(a: Progress, o: Option<Flow>, h: nat, k: nat): (b: Progress)
    ensures b.At? ==> a.At? && o.Some? && ExitsFit(o.value, h, k) && |b.out| == |a.out| + Size(o.value) && b.sp == 0
  {
    match o
    case None => Stopped
    case Some(f) =>
      if a.Stopped? || !ExitsFit(f, h, k) || |a.out| + Size(f) > CODE_LIMIT then Stopped else At(a.out + Open(f), 0)
  }

  predicate Idle(a: Progress) {
    a.At? ==> a.sp == 0 && |a.out| <= CODE_LENGTH
  }

  // ------------------------------------------------- code laid between statements

  function Joined(x: Option<seq<byte>>, y: Option<seq<byte>>): Option<seq<byte>> {
    var c :- x;
    var d :- y;
    Some(c + d)
  }

  function OpenOf(o: Option<Flow>): Option<seq<byte>> {
    var f :- o;
    Some(Open(f))
  }

  /** From a to b exactly code o has been appended, with all its EXITs accepted; b has stopped
      only when that cannot be done within the limit. */
  predicate Laid(a: Progress, b: Progress, o: Option<seq<byte>>, ok: bool) {
    && (b.At? ==> a.At? && ok && o.Some? && b.out == a.out + o.value && b.sp == 0)
    && (b.Stopped? ==> a.Stopped? || !ok || o == None || |a.out| + |o.value| > CODE_LIMIT)
  }

  lemma {:induction false} LaidTwice(a: Progress, b: Progress, z: Progress, o1: Option<seq<byte>>, ok1: bool, o2: Option<seq<byte>>, ok2: bool)
    requires Laid(a, b, o1, ok1) && Laid(b, z, o2, ok2)
    ensures Laid(a, z, Joined(o1, o2), ok1 && ok2)
  {
    if z.At? {
      assert a.out + o1.value + o2.value == a.out + (o1.value + o2.value);
    }
  }

  lemma {:induction false} PutLaid(a: Progress, o: Option<seq<byte>>)
    ensures Laid(a, Put(a, o), o, true)
  {
  }

  lemma {:induction false} PlacedLaid(a: Progress, o: Option<Flow>, h: nat, k: nat)
    ensures Laid(a, Placed(a, o, h, k), OpenOf(o), o.Some? && ExitsFit(o.value, h, k))
  {
  }

  /** A statement laid and checked is placed. */
  lemma {:induction false} LaidChecked(a: Progress, b: Progress, o: Option<Flow>, h: nat, k: nat)
    requires Laid(a, b, OpenOf(o), o.Some? && ExitsFit(o.value, h, k))
    ensures Checked(b) == Placed(a, o, h, k)
  {
  }

  lemma {:induction false} GrowPut(a: Progress, c: seq<byte>)
    requires Idle(a)
    ensures Grow(a, c, 0, 0) == Put(a, Some(c))
  {
  }

  /** Storing a distance in the word behind c. */
  lemma {:induction false} PatchedLaid(a: Progress, b: Progress, c: seq<byte>, x: byte, y: byte, d: seq<byte>, loc: nat, ok: bool)
    requires Laid(a, b, Some(c + [x, y] + d), ok) && (b.At? ==> loc == |a.out| + |c|)
    ensures Laid(a, Patched(b, loc), Some(c + Bytes(Wrap(|d| + 2)) + d), ok)
  {
    if b.At? {
      assert b.out == a.out + (c + [x, y] + d);
      var w := Wrap(|d| + 2);
      assert Patch(b.out, loc, |d| + 2) == a.out + (c + Bytes(w) + d);
    }
  }

  // ----------------------------------------------------- conditions and values

  /** A condition and the conditional jump behind it. */
  function WithJump(c: Option<seq<byte>>, jump: seq<byte>): Option<seq<byte>> {
    var cc :- c;
    Some(cc + jump)
  }

  /** Code appended, with d more words on the stack behind it. */
  function PutOn(a: Progress, o: Option<seq<byte>>, d: int): (b: Progress)
    ensures b.At? ==> a.At? && o.Some? && |b.out| == |a.out| + |o.value| && b.sp == a.sp + d
  {
    match o
    case None => Stopped
    case Some(c) => if a.Stopped? || |a.out| + |c| > CODE_LENGTH then Stopped else At(a.out + c, a.sp + d)
  }

  lemma {:induction false} PutOnTwice(a: Progress, x: Option<seq<byte>>, d: int, y: Option<seq<byte>>, e: int)
    ensures PutOn(PutOn(a, x, d), y, e) == PutOn(a, Joined(x, y), d + e)
  {
    if a.At? && x.Some? && y.Some? {
      assert a.out + x.value + y.value == a.out + (x.value + y.value);
    }
  }

  lemma {:induction false} PutOnIdle(a: Progress, o: Option<seq<byte>>)
    requires Idle(a)
    ensures PutOn(a, o, 0) == Put(a, o)
  {
  }

  lemma {:induction false} GrowPutOn(a: Progress, c: seq<byte>, d: int, peak: int)
    requires a.At? ==> a.sp + peak <= STACK_DEPTH
    ensures Grow(a, c, d, peak) == PutOn(a, Some(c), d)
  {
  }

  /** A tail of loaded code and closed code behind it, as one piece. */
  lemma {:induction false} TailPut(a: Progress, f: Frag, l: Tail, more: seq<byte>, d: int, base: nat)
    requires a.At? ==> a.sp == base
    requires d <= 1
    ensures Grow(Grow(a, f.code, Depth(f.x), f.peak), l.code + more, d - Depth(f.x), l.peak)
         == PutOn(a, if base + Max(f.peak, Depth(f.x) + l.peak) <= STACK_DEPTH then Some(f.code + l.code + more) else None, d)
  {
    GrowTwice(a, f.code, Depth(f.x), f.peak, l.code + more, d - Depth(f.x), l.peak);
    assert f.code + (l.code + more) == f.code + l.code + more;
  }

  /** The last step of a value: its code in the buffer is `ValueCode` and what is put behind it. */
  lemma {:induction false} ValuePut(a: Progress, e: Expr, lev: nat, base: nat, more: seq<byte>, d: int)
    requires a.At? ==> a.sp == base
    requires d <= 1
    ensures var o := GenExpr(e, lev);
            o.Some? && LoadTail(o.value.x, lev).Some? ==>
              var l := LoadTail(o.value.x, lev).value;
              Grow(Fragged(a, o), l.code + more, d - Depth(o.value.x), l.peak) == PutOn(a, WithJump(ValueCode(e, lev, base), more), d)
    ensures var o := GenExpr(e, lev); o == None || LoadTail(o.value.x, lev) == None ==> ValueCode(e, lev, base) == None
  {
    hide Grow, GenExpr, Combine, LoadCode;
    var o := GenExpr(e, lev);
    if o.Some? {
      var f := o.value;
      GenWellFormed(e, lev);
      ForceIsTail(f, lev);
      if LoadTail(f.x, lev).Some? {
        TailPut(a, f, LoadTail(f.x, lev).value, more, d, base);
      }
    }
  }

  lemma {:induction false} AssignedPut(a: Progress, t: Typ, e: Expr, lev: nat, base: nat, x: Item)
    requires (a.At? ==> a.sp == base) && (Fragged(a, GenExpr(e, lev)).At? ==> x == GenExpr(e, lev).value.x)
    ensures Tailed(Fragged(a, GenExpr(e, lev)), AssignTail(t, x, lev), Depth(x)) == PutOn(a, AssignedCode(t, e, lev, base), 1)
  {
    hide Grow, LoadTail, ValueCode, GenExpr, Combine, LoadCode;
    ValuePut(a, e, lev, base, [], 1);
    ValuePut(a, e, lev, base, [0xC7], 1);
    if ValueCode(e, lev, base).Some? {
      assert ValueCode(e, lev, base).value + [] == ValueCode(e, lev, base).value;
    }
    if GenExpr(e, lev).Some? && LoadTail(x, lev).Some? {
      assert LoadTail(x, lev).value.code + [] == LoadTail(x, lev).value.code;
    }
    LoadedDepth(x, lev);
  }

  lemma {:induction false} LoadedDepth(x: Item, lev: nat)
    ensures LoadTail(x, lev).Some? ==> Depth(LoadTail(x, lev).value.x) == 1
  {
  }

  lemma {:induction false} LimitPut(a: Progress, t: Typ, e: Expr, lev: nat, base: nat, x: Item)
    requires (a.At? ==> a.sp == base) && (Fragged(a, GenExpr(e, lev)).At? ==> x == GenExpr(e, lev).value.x)
    ensures Tailed(Fragged(a, GenExpr(e, lev)), LimitTail(t, x, lev), Depth(x)) == PutOn(a, LimitCode(t, e, lev, base), 1)
  {
    hide Grow, LoadTail, ValueCode, GenExpr, Combine, LoadCode;
    ValuePut(a, e, lev, base, [], 1);
    ValuePut(a, e, lev, base, [0xC7], 1);
    if ValueCode(e, lev, base).Some? {
      assert ValueCode(e, lev, base).value + [] == ValueCode(e, lev, base).value;
    }
    if GenExpr(e, lev).Some? && LoadTail(x, lev).Some? {
      assert LoadTail(x, lev).value.code + [] == LoadTail(x, lev).value.code;
    }
    LoadedDepth(x, lev);
  }

  lemma {:induction false} SelectPut(a: Progress, e: Expr, lev: nat, x: Item)
    requires Idle(a) && (Fragged(a, GenExpr(e, lev)).At? ==> x == GenExpr(e, lev).value.x)
    ensures Opened(Fragged(a, GenExpr(e, lev)), SelectTail(x, lev), Depth(x)) == Put(a, WithJump(ValueCode(e, lev, 0), [0xC2, 0, 0]))
  {
    hide Grow, LoadTail, ValueCode, GenExpr, Combine, LoadCode;
    ValuePut(a, e, lev, 0, [0xC2, 0, 0], 0);
    PutOnIdle(a, WithJump(ValueCode(e, lev, 0), [0xC2, 0, 0]));
  }

  /** The jump behind an UNTIL condition, back over it and n bytes. */
  function UntilJump(c: Option<seq<byte>>, n: nat): seq<byte> {
    match c case None => [] case Some(cc) => BackJump(0x1C, 0x18, n + |cc|)
  }

  /** UNTIL: the condition and the jump back over it and the n bytes before it. */
  lemma {:induction false} UntilPut(a: Progress, c: Expr, lev: nat, x: Item, n: nat)
    requires Idle(a) && (Fragged(a, GenExpr(c, lev)).At? ==> x == GenExpr(c, lev).value.x)
    ensures var p1 := Fragged(a, GenExpr(c, lev));
            var m := if p1.At? then n + |p1.out| - |a.out| else 0;
            Opened(p1, UntilTail(x, m, lev), Depth(x)) == Put(a, WithJump(CondCode(c, lev), UntilJump(CondCode(c, lev), n)))
  {
    hide LoadTail, BackJump, Grow, ValueCode, GenExpr, Combine, LoadCode;
    ValueLength(c, lev);
    var o := GenExpr(c, lev);
    var jump := if o.Some? && LoadTail(o.value.x, lev).Some? then
                  BackJump(0x1C, 0x18, n + |o.value.code| + |LoadTail(o.value.x, lev).value.code|)
                else [];
    ValuePut(a, c, lev, 0, jump, 0);
    PutOnIdle(a, WithJump(CondCode(c, lev), jump));
    assert WithJump(CondCode(c, lev), jump) == WithJump(CondCode(c, lev), UntilJump(CondCode(c, lev), n));
  }

  lemma {:induction false} ValueLength(e: Expr, lev: nat)
    ensures ValueCode(e, lev, 0).Some? ==> GenExpr(e, lev).Some? && LoadTail(GenExpr(e, lev).value.x, lev).Some?
    ensures ValueCode(e, lev, 0).Some? ==>
              |ValueCode(e, lev, 0).value| == |GenExpr(e, lev).value.code| + |LoadTail(GenExpr(e, lev).value.x, lev).value.code|
  {
    hide GenExpr, Combine, LoadCode;
    if GenExpr(e, lev).Some? {
      GenWellFormed(e, lev);
      ForceIsTail(GenExpr(e, lev).value, lev);
    }
  }

  lemma {:induction false} CondPut(a: Progress, c: Expr, lev: nat, x: Item)
    requires Idle(a) && (Fragged(a, GenExpr(c, lev)).At? ==> x == GenExpr(c, lev).value.x)
    ensures Opened(Fragged(a, GenExpr(c, lev)), BranchTail(x, lev), Depth(x)) == Put(a, WithJump(CondCode(c, lev), [0x18, 0, 0]))
  {
    hide LoadTail, Grow, ValueCode, GenExpr, Combine, LoadCode;
    ValuePut(a, c, lev, 0, [0x18, 0, 0], 0);
    PutOnIdle(a, WithJump(CondCode(c, lev), [0x18, 0, 0]));
  }

  // ---------------------------------------------------------------- statements

  function BranchOf(c: Option<seq<byte>>, t: Option<Flow>): Option<Flow> {
    var cc :- c;
    var ft :- t;
    Some(Branch(cc, ft))
  }

  function Branch2Of(c: Option<seq<byte>>, t: Option<Flow>, e: Option<Flow>): Option<Flow> {
    var cc :- c;
    var ft :- t;
    var fe :- e;
    Some(Branch2(cc, ft, fe))
  }

  /** IF: the condition, a jump, the THEN part; the jump is patched at its end. */
  lemma {:induction false} BranchPlaced(p: Progress, c: Option<seq<byte>>, t: Option<Flow>, h: nat, k: nat, loc: nat)
    requires var p1 := Put(p, WithJump(c, [0x18, 0, 0])); p1.At? ==> loc + 2 == |p1.out|
    ensures Checked(Patched(Placed(Put(p, WithJump(c, [0x18, 0, 0])), t, h, k), loc)) == Placed(p, BranchOf(c, t), h, k)
  {
    hide Open, Bytes;
    var p1 := Put(p, WithJump(c, [0x18, 0, 0]));
    var p2 := Placed(p1, t, h, k);
    PutLaid(p, WithJump(c, [0x18, 0, 0]));
    PlacedLaid(p1, t, h, k);
    LaidTwice(p, p1, p2, WithJump(c, [0x18, 0, 0]), true, OpenOf(t), t.Some? && ExitsFit(t.value, h, k));
    if c.Some? && t.Some? {
      var cc, ct := c.value, Open(t.value);
      assert cc + [0x18, 0, 0] + ct == (cc + [0x18]) + [0, 0] + ct;
      PatchedLaid(p, p2, cc + [0x18], 0, 0, ct, loc, ExitsFit(t.value, h, k));
      IfOpen(cc, t.value);
    }
    LaidChecked(p, Patched(p2, loc), BranchOf(c, t), h, k);
  }

  lemma {:induction false} IfOpen(cc: seq<byte>, t: Flow)
    ensures Open(Branch(cc, t)) == (cc + [0x18]) + Bytes(Wrap(Size(t) + 2)) + Open(t)
  {
    hide Bytes, Wrap, Open, Size;
    BranchUnfolds(cc, t, 0, 0);
    assert cc + ([0x18] + Bytes(Wrap(Size(t) + 2))) + Open(t) == (cc + [0x18]) + Bytes(Wrap(Size(t) + 2)) + Open(t);
  }

  /** IF with an ELSE part: a second jump, over the ELSE part, is patched at its end. */
  lemma {:induction false} Branch2Placed(p: Progress, c: Option<seq<byte>>, t: Option<Flow>, e: Option<Flow>, h: nat, k: nat, k2: nat, loc: nat, loc2: nat)
    requires var p1 := Put(p, WithJump(c, [0x18, 0, 0])); p1.At? ==> loc + 2 == |p1.out|
    requires var p3 := Put(Placed(Put(p, WithJump(c, [0x18, 0, 0])), t, h, k), Some([0x19, 0, 0])); p3.At? ==> loc2 + 2 == |p3.out|
    requires t.Some? ==> k2 == k + HoleCount(t.value)
    ensures var p3 := Put(Placed(Put(p, WithJump(c, [0x18, 0, 0])), t, h, k), Some([0x19, 0, 0]));
            Checked(Patched(Placed(Patched(p3, loc), e, h, k2), loc2)) == Placed(p, Branch2Of(c, t, e), h, k)
  {
    hide Open, Bytes, ExitsFit, Checked, Placed, Laid, Put, Patched;
    var p3 := Put(Placed(Put(p, WithJump(c, [0x18, 0, 0])), t, h, k), Some([0x19, 0, 0]));
    var p4 := Patched(p3, loc);
    var ok1, ok2 := t.Some? && ExitsFit(t.value, h, k), e.Some? && ExitsFit(e.value, h, k2);
    ThenLaid(p, c, t, h, k, loc);
    PlacedLaid(p4, e, h, k2);
    LaidTwice(p, p4, Placed(p4, e, h, k2), FrontOf(c, t), ok1, OpenOf(e), ok2);
    if c.Some? && t.Some? && e.Some? {
      ElseLocated(p, p4, c.value, t.value, e, h, k2, loc2, ok1);
      ElsePatched(p, Placed(p4, e, h, k2), c.value, t.value, e.value, loc2, ok1 && ok2);
    } else {
      NothingLaid(p, Placed(p4, e, h, k2), loc2, Joined(FrontOf(c, t), OpenOf(e)), ok1 && ok2);
    }
    Branch2Fit(c, t, e, h, k, k2);
    LaidChecked(p, Patched(Placed(p4, e, h, k2), loc2), Branch2Of(c, t, e), h, k);
  }

  /** The THEN part with the jump over the ELSE part, once its condition's jump has been patched. */
  function FrontOf(c: Option<seq<byte>>, t: Option<Flow>): Option<seq<byte>> {
    var cc :- c;
    var f :- t;
    Some((cc + [0x18]) + Bytes(Wrap(Size(f) + 5)) + (Open(f) + [0x19, 0, 0]))
  }

  lemma {:induction false} ThenLaid(p: Progress, c: Option<seq<byte>>, t: Option<Flow>, h: nat, k: nat, loc: nat)
    requires var p1 := Put(p, WithJump(c, [0x18, 0, 0])); p1.At? ==> loc + 2 == |p1.out|
    ensures var p3 := Put(Placed(Put(p, WithJump(c, [0x18, 0, 0])), t, h, k), Some([0x19, 0, 0]));
            Laid(p, Patched(p3, loc), FrontOf(c, t), t.Some? && ExitsFit(t.value, h, k))
  {
    hide Open, Bytes, ExitsFit, Placed, Wrap, Assemble, Put, Laid, Size, Patched, HoleCount;
    var jump, skip: seq<byte> := [0x18, 0, 0], [0x19, 0, 0];
    var p1 := Put(p, WithJump(c, jump));
    var p2 := Placed(p1, t, h, k);
    var p3, ok1 := Put(p2, Some(skip)), t.Some? && ExitsFit(t.value, h, k);
    PutLaid(p, WithJump(c, jump));
    PlacedLaid(p1, t, h, k);
    LaidTwice(p, p1, p2, WithJump(c, jump), true, OpenOf(t), ok1);
    PutLaid(p2, Some(skip));
    LaidTwice(p, p2, p3, Joined(WithJump(c, jump), OpenOf(t)), ok1, Some(skip), true);
    if c.Some? && t.Some? {
      var cc, ct := c.value, Open(t.value);
      assert (cc + jump + ct) + skip == (cc + [0x18]) + [0, 0] + (ct + skip);
      PatchedLaid(p, p3, cc + [0x18], 0, 0, ct + skip, loc, ok1);
    }
  }

  lemma {:induction false} ElseLocated(p: Progress, p4: Progress, cc: seq<byte>, t: Flow, e: Option<Flow>, h: nat, k2: nat, loc2: nat, ok: bool)
    requires Laid(p, p4, FrontOf(Some(cc), Some(t)), ok) && (p4.At? ==> loc2 + 2 == |p4.out|)
    ensures Placed(p4, e, h, k2).At? ==> loc2 + 2 == |p.out| + |cc| + 6 + Size(t)
  {
    hide Open, Bytes, ExitsFit;
  }

  lemma {:induction false} NothingLaid(a: Progress, b: Progress, loc: nat, o: Option<seq<byte>>, ok: bool)
    requires Laid(a, b, o, ok) && o == None
    ensures Laid(a, Patched(b, loc), None, ok)
  {
  }

  lemma {:induction false} Branch2Fit(c: Option<seq<byte>>, t: Option<Flow>, e: Option<Flow>, h: nat, k: nat, k2: nat)
    requires t.Some? ==> k2 == k + HoleCount(t.value)
    ensures Branch2Of(c, t, e).Some? ==>
              ExitsFit(Branch2Of(c, t, e).value, h, k) == (ExitsFit(t.value, h, k) && ExitsFit(e.value, h, k2))
  {
  }

  lemma {:induction false} ElsePatched(p: Progress, b: Progress, cc: seq<byte>, t: Flow, e: Flow, loc: nat, ok: bool)
    requires Laid(p, b, Some((cc + [0x18]) + Bytes(Wrap(Size(t) + 5)) + (Open(t) + [0x19, 0, 0]) + Open(e)), ok)
    requires b.At? ==> loc + 2 == |p.out| + |cc| + 6 + Size(t)
    ensures Laid(p, Patched(b, loc), Some(Open(Branch2(cc, t, e))), ok)
  {
    hide Bytes, Laid;
    OpenBranch2(cc, t, e);
    hide Open;
    var w, ct, ce := Bytes(Wrap(Size(t) + 5)), Open(t), Open(e);
    var c := cc + [0x18] + w + ct + [0x19];
    assert (cc + [0x18]) + w + (ct + [0x19, 0, 0]) + ce == c + [0, 0] + ce;
    PatchedLaid(p, b, c, 0, 0, ce, loc, ok);
    assert c + Bytes(Wrap(Size(e) + 2)) + ce == cc + ([0x18] + w) + ct + ([0x19] + Bytes(Wrap(Size(e) + 2))) + ce;
  }

  lemma {:induction false} OpenBranch2(cc: seq<byte>, t: Flow, e: Flow)
    ensures Open(Branch2(cc, t, e))
         == cc + ([0x18] + Bytes(Wrap(Size(t) + 5))) + Open(t) + ([0x19] + Bytes(Wrap(Size(e) + 2))) + Open(e)
  {
    Branch2Unfolds(cc, t, e, 0);
    hide Bytes, Wrap, Size, Open;
  }

  function ChainOf(a: Option<Flow>, b: Option<Flow>): Option<Flow> {
    var fa :- a;
    var fb :- b;
    Some(Chain(fa, fb))
  }

  lemma {:induction false} ChainPlaced(p: Progress, a: Option<Flow>, b: Option<Flow>, h: nat, k: nat, k2: nat)
    requires a.Some? ==> k2 == k + HoleCount(a.value)
    ensures Placed(Placed(p, a, h, k), b, h, k2) == Placed(p, ChainOf(a, b), h, k)
  {
    if p.At? && a.Some? && b.Some? {
      assert p.out + Open(a.value) + Open(b.value) == p.out + (Open(a.value) + Open(b.value));
    }
  }

  function StraightOf(c: Option<seq<byte>>): Option<Flow> {
    var cc :- c;
    Some(Straight(cc))
  }

  lemma {:induction false} StraightPlaced(p: Progress, c: Option<seq<byte>>, h: nat, k: nat)
    ensures Checked(Put(p, c)) == Placed(p, StraightOf(c), h, k)
  {
  }

  /** EXIT, when it is recorded. */
  lemma {:induction false} LeavePlaced(p: Progress, h: nat, k: nat)
    requires h > 0 && k < NOF_EXITS
    ensures Checked(Put(p, Some([0x19, 0, 0]))) == Placed(p, Some(Leave), h, k)
  {
  }

  function UntilOf(b: Option<Flow>, c: Option<seq<byte>>): Option<Flow> {
    var fb :- b;
    var cc :- c;
    Some(Until(fb, cc))
  }

  lemma {:induction false} UntilPlaced(p: Progress, b: Option<Flow>, c: Option<seq<byte>>, jump: seq<byte>, h: nat, k: nat)
    requires b.Some? && c.Some? ==> jump == BackJump(0x1C, 0x18, Size(b.value) + |c.value|)
    ensures Checked(Put(Placed(p, b, h, k), WithJump(c, jump))) == Placed(p, UntilOf(b, c), h, k)
  {
    hide BackJump;
    if p.At? && b.Some? && c.Some? {
      assert p.out + Open(b.value) + (c.value + jump) == p.out + (Open(b.value) + c.value + jump);
    }
  }

  function ForeverOf(b: Option<Flow>): Option<Flow> {
    var fb :- b;
    Some(Forever(fb))
  }

  /** All open exits of a body lead to the end of the code. */
  function Closed(a: Progress, hs: seq<nat>): Progress
    requires a.At? ==> forall i :: 0 <= i < |hs| ==> hs[i] + 1 < |a.out|
  {
    if a.Stopped? then Stopped else At(PatchDown(a.out, hs, |a.out|), a.sp)
  }

  /** LOOP: the body with its exits open, the jump back, and all exits patched to the end. */
  lemma {:induction false} ForeverPlaced(p: Progress, b: Option<Flow>, jump: seq<byte>, h: nat, k: nat)
    requires b.Some? ==> jump == BackJump(0x1D, 0x19, Size(b.value))
    requires p.At? && b.Some?
    ensures var p2, hs := Put(Placed(p, b, h + 1, k), Some(jump)), Holes(b.value, |p.out|);
            && (p2.At? ==> forall i :: 0 <= i < |hs| ==> hs[i] + 1 < |p2.out|)
            && Checked(Closed(p2, hs)) == Placed(p, ForeverOf(b), h, k)
  {
    hide Wrap, Assemble, Bytes, ExitsFit, Holes, Open, Size, HoleCount, Placed, PatchDown, Put, Laid, Closed, Checked;
    OpenForever(b.value);
    hide BackJump, PatchDown, Open, Assemble, Holes, Size, HoleCount, ExitsFit;
    var f, at := b.value, |p.out|;
    var p1 := Placed(p, b, h + 1, k);
    var p2 := Put(p1, Some(jump));
    PlacedLaid(p, b, h + 1, k);
    PutLaid(p1, Some(jump));
    LaidTwice(p, p1, p2, OpenOf(b), ExitsFit(f, h + 1, k), Some(jump), true);
    BodyCloses(p.out, f, jump);
    ForeverFit(f, h, k);
    hide Put, Placed;
    ForeverCloses(p, p2, f, jump, h, k);
  }

  /** The code laid with open exits, closed at its own end. */
  lemma {:induction false} ForeverCloses(p: Progress, p2: Progress, f: Flow, jump: seq<byte>, h: nat, k: nat)
    requires p.At? && Laid(p, p2, Some(Open(f) + jump), ExitsFit(f, h + 1, k)) && ExitsFit(Forever(f), h, k) == ExitsFit(f, h + 1, k)
    requires Open(Forever(f)) == Assemble(f, Size(f) + |jump|) + jump && Size(Forever(f)) == Size(f) + |jump|
    requires var c, hs := p.out + Open(f) + jump, Holes(f, |p.out|);
             && (forall i :: 0 <= i < |hs| ==> hs[i] + 1 < |c|)
             && PatchDown(c, hs, |c|) == p.out + Assemble(f, Size(f) + |jump|) + jump
    ensures var hs := Holes(f, |p.out|);
            && (p2.At? ==> forall i :: 0 <= i < |hs| ==> hs[i] + 1 < |p2.out|)
            && Checked(Closed(p2, hs)) == Placed(p, Some(Forever(f)), h, k)
  {
    hide PatchDown, Open, Assemble, Holes, Size, ExitsFit;
    if p2.At? {
      assert p2.out == p.out + Open(f) + jump;
      assert p.out + Assemble(f, Size(f) + |jump|) + jump == p.out + Open(Forever(f));
    }
  }

  lemma {:induction false} ForeverFit(b: Flow, h: nat, k: nat)
    ensures ExitsFit(Forever(b), h, k) == ExitsFit(b, h + 1, k)
  {
  }

  lemma {:induction false} BodyCloses(pre: seq<byte>, f: Flow, post: seq<byte>)
    ensures var c, hs := pre + Open(f) + post, Holes(f, |pre|);
            && (forall i :: 0 <= i < |hs| ==> hs[i] + 1 < |c|)
            && PatchDown(c, hs, |c|) == pre + Assemble(f, Size(f) + |post|) + post
  {
    hide PatchDown, Open, Assemble, Holes, Size;
    var target := |pre| + Size(f) + |post|;
    OpenResolves(f, |pre|, target);
    ResolvesIn(Open(f), Assemble(f, Size(f) + |post|), Holes(f, |pre|), |pre|, target, pre, post);
  }

  lemma {:induction false} OpenForever(b: Flow)
    ensures var jump := BackJump(0x1D, 0x19, Size(b));
            Open(Forever(b)) == Assemble(b, Size(b) + |jump|) + jump && Size(Forever(b)) == Size(b) + |jump|
  {
    hide BackJump;
  }

  // ---------------------------------------------------------------------- FOR

  function CountOf(head: Option<seq<byte>>, step: int, b: Option<Flow>): Option<Flow> {
    var hd :- head;
    var fb :- b;
    if step == 0 then None else Some(Count(hd, step, fb))
  }

  /** FOR1 with its displacement still open. */
  function OpenFront(step: int): Option<seq<byte>> {
    if step == 0 then None else Some([0xC0, if step > 0 then 0 else 1] + [0, 0])
  }

  lemma {:induction false} CountPlaced(p: Progress, head: Option<seq<byte>>, step: int, b: Option<Flow>, h: nat, k: nat, loc: nat)
    requires var p1 := Put(p, Joined(head, OpenFront(step))); p1.At? ==> loc + 2 == |p1.out|
    ensures var p2 := Placed(Put(p, Joined(head, OpenFront(step))), b, h, k);
            b.Some? ==> Checked(Patched(Put(p2, Some(ForBack(step, Size(b.value)))), loc)) == Placed(p, CountOf(head, step, b), h, k)
    ensures b == None ==> Placed(Put(p, Joined(head, OpenFront(step))), b, h, k).Stopped?
  {
    hide Open, Bytes, Wrap, ForBack, Checked;
    var o := Joined(head, OpenFront(step));
    var p1 := Put(p, o);
    var p2 := Placed(p1, b, h, k);
    PutLaid(p, o);
    PlacedLaid(p1, b, h, k);
    if b.Some? {
      var ok, back, cb := ExitsFit(b.value, h, k), ForBack(step, Size(b.value)), Open(b.value);
      var p3 := Put(p2, Some(back));
      LaidTwice(p, p1, p2, o, true, OpenOf(b), ok);
      PutLaid(p2, Some(back));
      LaidTwice(p, p2, p3, Joined(o, OpenOf(b)), ok, Some(back), true);
      if head.Some? && step != 0 {
        var front: seq<byte> := [0xC0, if step > 0 then 0 else 1];
        assert head.value + (front + [0, 0]) + cb + back == (head.value + front) + [0, 0] + (cb + back);
        PatchedLaid(p, p3, head.value + front, 0, 0, cb + back, loc, ok);
        CountOpen(head.value, step, b.value);
      }
      LaidChecked(p, Patched(p3, loc), CountOf(head, step, b), h, k);
    }
  }

  lemma {:induction false} CountOpen(head: seq<byte>, step: int, b: Flow)
    ensures var front: seq<byte> := [0xC0, if step > 0 then 0 else 1];
            Open(Count(head, step, b)) == (head + front) + Bytes(Wrap(Size(b) + 4 + 2)) + (Open(b) + ForBack(step, Size(b)))
  {
    hide Bytes, Wrap, ForBack;
    var front: seq<byte> := [0xC0, if step > 0 then 0 else 1];
    var w, cb, back := Bytes(Wrap(Size(b) + 6)), Open(b), ForBack(step, Size(b));
    assert head + (front + w) + cb + back == (head + front) + w + (cb + back);
  }

  // -------------------------------------------------------------------- WHILE

  function GuardOf(c: Option<seq<byte>>, b: Option<Flow>, back: nat): Option<seq<byte>> {
    var cc :- c;
    var fb :- b;
    Some(GuardCode(cc, Open(fb), back))
  }

  /** One guard of a WHILE that starts `back` bytes before it. */
  lemma {:induction false} GuardLaid(p: Progress, c: Option<seq<byte>>, b: Option<Flow>, jump: seq<byte>, back: nat, h: nat, k: nat, loc: nat)
    requires var p1 := Put(p, WithJump(c, [0x18, 0, 0])); p1.At? ==> loc + 2 == |p1.out|
    requires c.Some? && b.Some? ==> jump == BackJump(0x1D, 0x19, back + |c.value| + 3 + Size(b.value))
    ensures var p3 := Put(Placed(Put(p, WithJump(c, [0x18, 0, 0])), b, h, k), Some(jump));
            Laid(p, Patched(p3, loc), GuardOf(c, b, back), b.Some? && ExitsFit(b.value, h, k))
  {
    hide Open, Bytes, Wrap, BackJump, FarJump, Size, GuardLen, ExitsFit, Assemble, Placed, Put, Laid, Patched, HoleCount;
    var first: seq<byte> := [0x18, 0, 0];
    var p1 := Put(p, WithJump(c, first));
    var p2 := Placed(p1, b, h, k);
    var p3 := Put(p2, Some(jump));
    var ok := b.Some? && ExitsFit(b.value, h, k);
    PutLaid(p, WithJump(c, first));
    PlacedLaid(p1, b, h, k);
    LaidTwice(p, p1, p2, WithJump(c, first), true, OpenOf(b), ok);
    PutLaid(p2, Some(jump));
    LaidTwice(p, p2, p3, Joined(WithJump(c, first), OpenOf(b)), ok, Some(jump), true);
    if c.Some? && b.Some? {
      var cc, cb := c.value, Open(b.value);
      assert cc + first + cb + jump == (cc + [0x18]) + [0, 0] + (cb + jump);
      PatchedLaid(p, p3, cc + [0x18], 0, 0, cb + jump, loc, ok);
      JumpInside(cc, |cb| + |jump| + 2, cb, jump);
    }
  }

  lemma {:induction false} JumpInside(a: seq<byte>, d: nat, b: seq<byte>, c: seq<byte>)
    ensures (a + [0x18]) + Bytes(Wrap(d)) + (b + c) == a + FarJump(0x18, d) + b + c
  {
    hide Bytes, Wrap;
  }

  function OpenGuardsOf(g: Option<FlowGuards>, back: nat): Option<seq<byte>> {
    var fg :- g;
    Some(OpenGuards(fg, back))
  }

  function RoundsOf(g: Option<FlowGuards>): Option<Flow> {
    var fg :- g;
    Some(Rounds(fg))
  }

  // --------------------------------------------------------------------- CASE

  function ChoiceOf(ce: Option<seq<byte>>, arms: Option<FlowArms>, d: Option<FlowDefault>, tab: Option<seq<Entry>>): Option<Flow> {
    var c :- ce;
    var fa :- arms;
    var fd :- d;
    var t :- tab;
    Some(Choice(c, fa, fd, t))
  }

  function OpenArmsOf(arms: Option<FlowArms>, tab: Option<seq<Entry>>): Option<seq<byte>> {
    var fa :- arms;
    var t :- tab;
    Some(OpenArms(fa))
  }

  function OpenDefaultOf(d: Option<FlowDefault>): Option<seq<byte>> {
    var fd :- d;
    Some(OpenDefault(fd))
  }

  /** Arms and ELSE part laid, the jump to the table patched, and the table behind it. */
  lemma {:induction false} ChoicePlaced(p: Progress, ce: Option<seq<byte>>, p2: Progress, arms: Option<FlowArms>, tab: Option<seq<Entry>>, p3: Progress,
                     d: Option<FlowDefault>, table: seq<byte>, h: nat, k: nat, k2: nat, loc: nat)
    requires var p1 := Put(p, WithJump(ce, [0xC2, 0, 0]));
             && (p1.At? ==> loc + 2 == |p1.out|)
             && Laid(p1, p2, OpenArmsOf(arms, tab), arms.Some? && ArmExitsFit(arms.value, h, k))
    requires Laid(p2, p3, OpenDefaultOf(d), d.Some? && DefaultExitsFit(d.value, h, k2))
    requires arms.Some? ==> k2 == k + ArmHoleCount(arms.value)
    requires arms.Some? && d.Some? && tab.Some? ==>
               table == TableCode(tab.value, ArmsSize(arms.value), ArmsSize(arms.value) + DefaultSize(d.value))
    ensures Checked(Put(Patched(p3, loc), Some(table))) == Placed(p, ChoiceOf(ce, arms, d, tab), h, k)
  {
    hide Open, OpenArms, OpenDefault, Bytes, Wrap, TableCode, ArmExitsFit, DefaultExitsFit, Assemble, ExitsFit, Size, Placed, Put, Patched,
         Checked;
    var first: seq<byte> := [0xC2, 0, 0];
    var p1 := Put(p, WithJump(ce, first));
    var ok1, ok2 := arms.Some? && ArmExitsFit(arms.value, h, k), d.Some? && DefaultExitsFit(d.value, h, k2);
    PutLaid(p, WithJump(ce, first));
    LaidTwice(p, p1, p2, WithJump(ce, first), true, OpenArmsOf(arms, tab), ok1);
    LaidTwice(p, p2, p3, Joined(WithJump(ce, first), OpenArmsOf(arms, tab)), ok1, OpenDefaultOf(d), ok2);
    PutLaid(Patched(p3, loc), Some(table));
    hide Patched, Put, Size;
    if ce.Some? && arms.Some? && d.Some? && tab.Some? {
      TablePatched(p, p3, ce.value, arms.value, d.value, tab.value, loc, ok1 && ok2);
      ChoiceFit(ce.value, arms.value, d.value, tab.value, h, k);
    }
    LaidChecked(p, Put(Patched(p3, loc), Some(table)), ChoiceOf(ce, arms, d, tab), h, k);
  }

  lemma {:induction false} TablePatched(p: Progress, b: Progress, c: seq<byte>, arms: FlowArms, d: FlowDefault, tab: seq<Entry>, loc: nat, ok: bool)
    requires Laid(p, b, Some(c + [0xC2, 0, 0] + OpenArms(arms) + OpenDefault(d)), ok)
    requires b.At? ==> loc == |p.out| + |c| + 1
    ensures var table := TableCode(tab, ArmsSize(arms), ArmsSize(arms) + DefaultSize(d));
            Laid(p, Put(Patched(b, loc), Some(table)), Some(Open(Choice(c, arms, d, tab))), ok)
  {
    hide Open, OpenArms, OpenDefault, Bytes, Wrap, TableCode, Laid;
    var ca, cd := OpenArms(arms), OpenDefault(d);
    var table := TableCode(tab, |ca|, |ca| + |cd|);
    assert c + [0xC2, 0, 0] + ca + cd == (c + [0xC2]) + [0, 0] + (ca + cd);
    PatchedLaid(p, b, c + [0xC2], 0, 0, ca + cd, loc, ok);
    PutLaid(Patched(b, loc), Some(table));
    LaidTwice(p, Patched(b, loc), Put(Patched(b, loc), Some(table)),
              Some((c + [0xC2]) + Bytes(Wrap(|ca + cd| + 2)) + (ca + cd)), ok, Some(table), true);
    ChoiceOpen(c, arms, d, tab);
  }

  lemma {:induction false} ChoiceOpen(c: seq<byte>, arms: FlowArms, d: FlowDefault, tab: seq<Entry>)
    ensures var pos := ArmsSize(arms) + DefaultSize(d);
            var front := (c + [0xC2]) + Bytes(Wrap(pos + 2));
            Open(Choice(c, arms, d, tab)) == front + (OpenArms(arms) + OpenDefault(d)) + TableCode(tab, ArmsSize(arms), pos)
  {
    hide OpenArms, OpenDefault, Bytes, Wrap, TableCode, Assemble, Size, ArmsSize, DefaultSize, Jumps, OpenGuards, IfElseCode;
    var pos := ArmsSize(arms) + DefaultSize(d);
    var ca, cd, w, t := OpenArms(arms), OpenDefault(d), Bytes(Wrap(pos + 2)), TableCode(tab, ArmsSize(arms), pos);
    assert c + ([0xC2] + w) + ca + cd + t == (c + [0xC2]) + w + (ca + cd) + t;
  }

  lemma {:induction false} ChoiceFit(c: seq<byte>, arms: FlowArms, d: FlowDefault, tab: seq<Entry>, h: nat, k: nat)
    ensures ExitsFit(Choice(c, arms, d, tab), h, k) == (ArmExitsFit(arms, h, k) && DefaultExitsFit(d, h, k + ArmHoleCount(arms)))
  {
  }

  // -------------------------------------------------------- outside all LOOPs

  lemma {:induction false} NoHoles(f: Flow, k: nat)
    requires ExitsFit(f, 0, k)
    ensures HoleCount(f) == 0
    decreases f
  {
    hide Size, Open;
    match f
    case Straight(_) =>
    case Chain(a, b) => NoHoles(a, k); NoHoles(b, k + HoleCount(a));
    case Branch(_, t) => NoHoles(t, k);
    case Branch2(_, t, e) => NoHoles(t, k); NoHoles(e, k + HoleCount(t));
    case Rounds(g) => NoGuardHoles(g, k);
    case Until(b, _) => NoHoles(b, k);
    case Forever(_) =>
    case Leave =>
    case Count(_, _, b) => NoHoles(b, k);
    case Choice(_, arms, d, _) =>
      NoArmHoles(arms, k);
      if d.ElseHere? {
        NoHoles(d.body, k + ArmHoleCount(arms));
      }
  }

  lemma {:induction false} NoGuardHoles(g: FlowGuards, k: nat)
    requires GuardExitsFit(g, 0, k)
    ensures GuardHoleCount(g) == 0
    decreases g
  {
    NoHoles(g.body, k);
    if g.MoreGuards? {
      NoGuardHoles(g.rest, k + HoleCount(g.body));
    }
  }

  lemma {:induction false} NoArmHoles(a: FlowArms, k: nat)
    requires ArmExitsFit(a, 0, k)
    ensures ArmHoleCount(a) == 0
    decreases a
  {
    if a.FlowArm? {
      NoHoles(a.body, k);
      NoArmHoles(a.rest, k + HoleCount(a.body));
    }
  }

  /** Outside all LOOPs accepted code has no open jumps: it is the resolved code. */
  lemma {:induction false} AcceptedIsResolved(f: Flow, k: nat)
    requires ExitsFit(f, 0, k)
    ensures Open(f) == Assemble(f, 0)
  {
    hide Open, Assemble, Holes, HoleCount, ExitsFit, Resolves, Size;
    NoHoles(f, k);
    CountHoles(f, 0);
    OpenResolves(f, 0, 0);
    ResolvesIn(Open(f), Assemble(f, 0), Holes(f, 0), 0, 0, [], []);
    assert [] + Open(f) + [] == Open(f) && [] + Assemble(f, 0) + [] == Assemble(f, 0);
  }
}
