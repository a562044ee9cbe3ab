/** EXIT jumps are emitted with an open displacement and patched when their LOOP ends. Code with
    open jumps, patched at all of them, is the code with the jumps resolved. */
module Exits {
  import opened Words
  import opened Options
  import opened Lang
  import opened StmtLang
  import opened ExprGen
  import opened StmtGen
  import opened Emitter

  /** Jump operands stored at the positions hs, last one first, all leading to `target`. */
  function PatchDown(c: seq<byte>, hs: seq<nat>, target: nat): (r: seq<byte>)
    requires forall i :: 0 <= i < |hs| ==> hs[i] + 1 < |c|
    ensures |r| == |c|
    decreases |hs|
  {
    if hs == [] then c
    else
      var last := hs[|hs| - 1];
      PatchDown(Patch(c, last, target - last), hs[..|hs| - 1], target)
  }

  // ------------------------------------------------------- open statement code

  /** The bytes of a statement before the LOOP around it has ended. */
  function Open(f: Flow): (c: seq<byte>)
    ensures |c| == Size(f)
    decreases f
  {
    match f
    case Straight(c) => c
    case Chain(a, b) => Open(a) + Open(b)
    case Branch(cc, t) => IfCode(cc, Open(t))
    case Branch2(cc, t, e) => IfElseCode(cc, Open(t), Open(e))
    case Rounds(g) => OpenGuards(g, 0)
    case Until(b, cc) => RepeatCode(Open(b), cc)
    case Forever(b) => LoopCode(Assemble(b, LoopLen(Size(b))))
    case Leave => [0x19, 0, 0]
    case Count(head, step, b) => ForCode(head, step, Open(b))
    case Choice(ce, arms, d, tab) => CaseCode(ce, OpenArms(arms), OpenDefault(d), tab)
  }

  function OpenGuards(g: FlowGuards, back: nat): (c: seq<byte>)
    ensures |c| == GuardsSize(g, back)
    decreases g
  {
    var round := GuardCode(g.cond, Open(g.body), back);
    if g.LastGuard? then round else round + OpenGuards(g.rest, back + |round|)
  }

  function OpenArms(a: FlowArms): (c: seq<byte>)
    ensures |c| == ArmsSize(a)
    decreases a
  {
    if a.NoFlowArms? then [] else Open(a.body) + [0xC3] + OpenArms(a.rest)
  }

  function OpenDefault(d: FlowDefault): (c: seq<byte>)
    ensures |c| == DefaultSize(d)
    decreases d
  {
    if d.TrapHere? then TRAP_CODE else Open(d.body) + [0xC3]
  }

  // ------------------------------------------------- where the open jumps are

  /** Positions of the open jump operands of a statement that starts at `at`. */
  function Holes(f: Flow, at: nat): seq<nat>
    decreases f
  {
    match f
    case Straight(_) => []
    case Chain(a, b) => Holes(a, at) + Holes(b, at + Size(a))
    case Branch(cc, t) => Holes(t, at + |cc| + 3)
    case Branch2(cc, t, e) => Holes(t, at + |cc| + 3) + Holes(e, at + |cc| + 6 + Size(t))
    case Rounds(g) => GuardHoles(g, at, 0)
    case Until(b, _) => Holes(b, at)
    case Forever(_) => []
    case Leave => [at + 1]
    case Count(head, _, b) => Holes(b, at + |head| + 4)
    case Choice(ce, arms, d, _) => ArmHoles(arms, at + |ce| + 3) + DefaultHoles(d, at + |ce| + 3 + ArmsSize(arms))
  }

  function GuardHoles(g: FlowGuards, at: nat, back: nat): seq<nat>
    decreases g
  {
    var k := GuardLen(|g.cond|, Size(g.body), back);
    if g.LastGuard? then Holes(g.body, at + |g.cond| + 3)
    else Holes(g.body, at + |g.cond| + 3) + GuardHoles(g.rest, at + k, back + k)
  }

  function ArmHoles(a: FlowArms, at: nat): seq<nat>
    decreases a
  {
    if a.NoFlowArms? then [] else Holes(a.body, at) + ArmHoles(a.rest, at + Size(a.body) + 1)
  }

  function DefaultHoles(d: FlowDefault, at: nat): seq<nat>
    decreases d
  {
    if d.TrapHere? then [] else Holes(d.body, at)
  }

  // ------------------------------------------------------------------ patching

  /** All positions of hs are operands inside the `size` bytes from `at` on. */
  predicate Within(hs: seq<nat>, at: nat, size: nat) {
    forall i :: 0 <= i < |hs| ==> at <= hs[i] && hs[i] + 1 < at + size
  }

  lemma {:induction false} PatchSplit(c: seq<byte>, a: seq<nat>, b: seq<nat>, target: nat)
    requires forall i :: 0 <= i < |a| ==> a[i] + 1 < |c|
    requires forall i :: 0 <= i < |b| ==> b[i] + 1 < |c|
    ensures forall i :: 0 <= i < |a + b| ==> (a + b)[i] + 1 < |c|
    ensures PatchDown(c, a + b, target) == PatchDown(PatchDown(c, b, target), a, target)
    decreases |b|
  {
    if b == [] {
      assert a + b == a;
    } else {
      var last, init := b[|b| - 1], b[..|b| - 1];
      assert (a + b)[|a + b| - 1] == last && (a + b)[..|a + b| - 1] == a + init;
      PatchSplit(Patch(c, last, target - last), a, init, target);
    }
  }

  /** Code c with open jumps at hs becomes d when they are patched, wherever it lies. */
  ghost predicate Resolves(c: seq<byte>, d: seq<byte>, hs: seq<nat>, at: nat, target: nat) {
    && |c| == |d| && Within(hs, at, |c|)
    && forall pre: seq<byte>, post: seq<byte> {:trigger pre + c + post} ::
         |pre| == at ==> PatchDown(pre + c + post, hs, target) == pre + d + post
  }

  lemma {:induction false} ResolvesIn(c: seq<byte>, d: seq<byte>, hs: seq<nat>, at: nat, target: nat, pre: seq<byte>, post: seq<byte>)
    requires Resolves(c, d, hs, at, target) && |pre| == at
    ensures PatchDown(pre + c + post, hs, target) == pre + d + post
  {
  }

  /** Two pieces of code with open jumps, with closed code around them. */
  lemma {:induction false} ResolvesTwo(a: seq<byte>, c1: seq<byte>, d1: seq<byte>, h1: seq<nat>, b: seq<byte>,
                    c2: seq<byte>, d2: seq<byte>, h2: seq<nat>, e: seq<byte>, at: nat, target: nat)
    requires Resolves(c1, d1, h1, at + |a|, target) && Resolves(c2, d2, h2, at + |a| + |c1| + |b|, target)
    ensures Resolves(a + c1 + b + c2 + e, a + d1 + b + d2 + e, h1 + h2, at, target)
  {
    hide PatchDown;
    var c, d := a + c1 + b + c2 + e, a + d1 + b + d2 + e;
    forall pre: seq<byte>, post: seq<byte> {:trigger pre + c + post} | |pre| == at
      ensures PatchDown(pre + c + post, h1 + h2, target) == pre + d + post
    {
      var all := pre + c + post;
      assert all == (pre + a + c1 + b) + c2 + (e + post);
      PatchSplit(all, h1, h2, target);
      ResolvesIn(c2, d2, h2, at + |a| + |c1| + |b|, target, pre + a + c1 + b, e + post);
      assert (pre + a + c1 + b) + d2 + (e + post) == (pre + a) + c1 + (b + d2 + e + post);
      ResolvesIn(c1, d1, h1, at + |a|, target, pre + a, b + d2 + e + post);
      assert (pre + a) + d1 + (b + d2 + e + post) == pre + d + post;
    }
  }

  lemma {:induction false} ResolvesNone(c: seq<byte>, at: nat, target: nat)
    ensures Resolves(c, c, [], at, target)
  {
  }

  /** One piece of code with open jumps, with closed code around it. */
  lemma {:induction false} ResolvesOne(a: seq<byte>, c: seq<byte>, d: seq<byte>, hs: seq<nat>, b: seq<byte>, at: nat, target: nat)
    requires Resolves(c, d, hs, at + |a|, target)
    ensures Resolves(a + c + b, a + d + b, hs, at, target)
  {
    ResolvesNone([], at + |a| + |c| + |b|, target);
    ResolvesTwo(a, c, d, hs, b, [], [], [], [], at, target);
    assert a + c + b + [] + [] == a + c + b && a + d + b + [] + [] == a + d + b && hs + [] == hs;
  }

  /** Patching the open EXITs of a statement resolves them, and only them. */
  lemma {:induction false} OpenResolves(f: Flow, at: nat, target: nat)
    ensures Resolves(Open(f), Assemble(f, target - at), Holes(f, at), at, target)
    decreases f
  {
    hide Resolves, IfCode, IfElseCode, RepeatCode, LoopCode, ForCode, CaseCode, GuardCode, GuardLen, FarJump, BackJump, TableLen;
    match f
    case Straight(c) => ResolvesNone(c, at, target);
    case Chain(a, b) =>
      OpenResolves(a, at, target);
      OpenResolves(b, at + Size(a), target);
      Together(Open(a), Assemble(a, target - at), Holes(a, at), Open(b), Assemble(b, target - at - Size(a)),
               Holes(b, at + Size(a)), at, target);
    case Branch(cc, t) =>
      OpenResolves(t, at + |cc| + 3, target);
      BranchResolves(cc, t, at, target);
    case Branch2(cc, t, e) =>
      OpenResolves(t, at + |cc| + 3, target);
      OpenResolves(e, at + |cc| + 6 + Size(t), target);
      Branch2Resolves(cc, t, e, at, target);
    case Rounds(g) => GuardsResolve(g, at, 0, target);
    case Until(b, cc) =>
      OpenResolves(b, at, target);
      UntilResolves(b, cc, at, target);
    case Forever(b) => ResolvesNone(LoopCode(Assemble(b, LoopLen(Size(b)))), at, target);
    case Leave => LeaveResolves(at, target);
    case Count(head, step, b) =>
      OpenResolves(b, at + |head| + 4, target);
      CountResolves(head, step, b, at, target);
    case Choice(ce, arms, d, tab) =>
      ArmsResolve(arms, at + |ce| + 3, target);
      DefaultResolves(d, at + |ce| + 3 + ArmsSize(arms), target);
      ChoiceResolves(ce, arms, d, tab, at, target);
  }

  lemma {:induction false} Together(c1: seq<byte>, d1: seq<byte>, h1: seq<nat>, c2: seq<byte>, d2: seq<byte>, h2: seq<nat>, at: nat, target: nat)
    requires Resolves(c1, d1, h1, at, target) && Resolves(c2, d2, h2, at + |c1|, target)
    ensures Resolves(c1 + c2, d1 + d2, h1 + h2, at, target)
  {
    hide Resolves;
    ResolvesTwo([], c1, d1, h1, [], c2, d2, h2, [], at, target);
    assert [] + c1 + [] + c2 + [] == c1 + c2 && [] + d1 + [] + d2 + [] == d1 + d2;
  }

  lemma {:induction false} LeaveResolves(at: nat, target: nat)
    ensures Resolves([0x19, 0, 0], FarJump(0x19, target - at - 1), [at + 1], at, target)
  {
    var c: seq<byte>, d := [0x19, 0, 0], FarJump(0x19, target - at - 1);
    forall pre: seq<byte>, post: seq<byte> {:trigger pre + c + post} | |pre| == at
      ensures PatchDown(pre + c + post, [at + 1], target) == pre + d + post
    {
      var all, hs := pre + c + post, [at + 1];
      assert hs[..|hs| - 1] == [];
      assert PatchDown(all, hs, target) == Patch(all, at + 1, target - (at + 1));
      assert Patch(all, at + 1, target - (at + 1)) == pre + d + post;
    }
  }

  lemma {:induction false} BranchResolves(cc: seq<byte>, t: Flow, at: nat, target: nat)
    requires Resolves(Open(t), Assemble(t, target - at - |cc| - 3), Holes(t, at + |cc| + 3), at + |cc| + 3, target)
    ensures Resolves(Open(Branch(cc, t)), Assemble(Branch(cc, t), target - at), Holes(Branch(cc, t), at), at, target)
  {
    BranchUnfolds(cc, t, target - at, at);
    hide Resolves, FarJump, Open, Assemble, Holes, Size;
    var jump, c, d := FarJump(0x18, Size(t) + 2), Open(t), Assemble(t, target - at - |cc| - 3);
    ResolvesOne(cc + jump, c, d, Holes(t, at + |cc| + 3), [], at, target);
    assert (cc + jump) + c + [] == cc + jump + c && (cc + jump) + d + [] == cc + jump + d;
  }

  /** Statements with one part, by their parts. */
  lemma {:induction false} BranchUnfolds(cc: seq<byte>, t: Flow, exit: int, at: nat)
    ensures Open(Branch(cc, t)) == IfCode(cc, Open(t)) && Holes(Branch(cc, t), at) == Holes(t, at + |cc| + 3)
    ensures Assemble(Branch(cc, t), exit) == IfCode(cc, Assemble(t, exit - |cc| - 3))
  {
    hide IfCode, Wrap, Bytes, Size, AssembleGuards, GuardHoles, CaseCode, OpenGuards, AssembleArms, IfElseCode, AssembleDefault;
  }

  lemma {:induction false} UntilUnfolds(b: Flow, cc: seq<byte>, exit: int, at: nat)
    ensures Open(Until(b, cc)) == RepeatCode(Open(b), cc) && Holes(Until(b, cc), at) == Holes(b, at)
    ensures Assemble(Until(b, cc), exit) == RepeatCode(Assemble(b, exit), cc)
  {
    hide RepeatCode;
  }

  lemma {:induction false} CountUnfolds(head: seq<byte>, step: int, b: Flow, exit: int, at: nat)
    ensures Open(Count(head, step, b)) == ForCode(head, step, Open(b)) && Holes(Count(head, step, b), at) == Holes(b, at + |head| + 4)
    ensures Assemble(Count(head, step, b), exit) == ForCode(head, step, Assemble(b, exit - |head| - 4))
  {
    hide ForCode, Wrap, Bytes, Size, AssembleGuards, GuardHoles, CaseCode, OpenGuards, AssembleArms, IfElseCode, AssembleDefault;
  }

  lemma {:induction false} Branch2Resolves(cc: seq<byte>, t: Flow, e: Flow, at: nat, target: nat)
    requires Resolves(Open(t), Assemble(t, target - at - |cc| - 3), Holes(t, at + |cc| + 3), at + |cc| + 3, target)
    requires Resolves(Open(e), Assemble(e, target - at - |cc| - 6 - Size(t)), Holes(e, at + |cc| + 6 + Size(t)),
                      at + |cc| + 6 + Size(t), target)
    ensures Resolves(Open(Branch2(cc, t, e)), Assemble(Branch2(cc, t, e), target - at), Holes(Branch2(cc, t, e), at), at, target)
  {
    hide Resolves, FarJump, Size;
    Branch2Unfolds(cc, t, e, target - at);
    hide Open, Assemble, Holes;
    var jump, skip := FarJump(0x18, Size(t) + 5), FarJump(0x19, Size(e) + 2);
    var c1, d1, c2, d2 := Open(t), Assemble(t, target - at - |cc| - 3), Open(e), Assemble(e, target - at - |cc| - 6 - Size(t));
    ResolvesTwo(cc + jump, c1, d1, Holes(t, at + |cc| + 3), skip, c2, d2, Holes(e, at + |cc| + 6 + Size(t)), [], at, target);
    assert (cc + jump) + c1 + skip + c2 + [] == cc + jump + c1 + skip + c2;
    assert (cc + jump) + d1 + skip + d2 + [] == cc + jump + d1 + skip + d2;
    HolesUnfold(cc, t, e, at);
  }

  lemma {:induction false} Branch2Unfolds(cc: seq<byte>, t: Flow, e: Flow, exit: int)
    ensures Open(Branch2(cc, t, e)) == IfElseCode(cc, Open(t), Open(e))
    ensures Assemble(Branch2(cc, t, e), exit) == IfElseCode(cc, Assemble(t, exit - |cc| - 3), Assemble(e, exit - |cc| - 6 - Size(t)))
  {
    hide IfElseCode, IfCode, GuardCode, RepeatCode, LoopCode, ForCode, CaseCode, FarJump, BackJump, TableCode, TableLen, LoopLen, Size, AssembleGuards, AssembleArms, AssembleDefault, OpenGuards, OpenArms, OpenDefault;
  }

  lemma {:induction false} HolesUnfold(cc: seq<byte>, t: Flow, e: Flow, at: nat)
    ensures Holes(Branch2(cc, t, e), at) == Holes(t, at + |cc| + 3) + Holes(e, at + |cc| + 6 + Size(t))
  {
    hide Size;
  }

  lemma {:induction false} UntilResolves(b: Flow, cc: seq<byte>, at: nat, target: nat)
    requires Resolves(Open(b), Assemble(b, target - at), Holes(b, at), at, target)
    ensures Resolves(Open(Until(b, cc)), Assemble(Until(b, cc), target - at), Holes(Until(b, cc), at), at, target)
  {
    UntilUnfolds(b, cc, target - at, at);
    hide Resolves, BackJump, Open, Assemble, Holes, Size;
    var bj, c, d := BackJump(0x1C, 0x18, Size(b) + |cc|), Open(b), Assemble(b, target - at);
    ResolvesOne([], c, d, Holes(b, at), cc + bj, at, target);
    assert [] + c + (cc + bj) == c + cc + bj && [] + d + (cc + bj) == d + cc + bj;
  }

  lemma {:induction false} CountResolves(head: seq<byte>, step: int, b: Flow, at: nat, target: nat)
    requires Resolves(Open(b), Assemble(b, target - at - |head| - 4), Holes(b, at + |head| + 4), at + |head| + 4, target)
    ensures Resolves(Open(Count(head, step, b)), Assemble(Count(head, step, b), target - at), Holes(Count(head, step, b), at), at, target)
  {
    CountUnfolds(head, step, b, target - at, at);
    hide Resolves, ForFront, ForBack, Open, Assemble, Holes, Size;
    var front, back, c, d := ForFront(step, Size(b)), ForBack(step, Size(b)), Open(b), Assemble(b, target - at - |head| - 4);
    ResolvesOne(head + front, c, d, Holes(b, at + |head| + 4), back, at, target);
  }

  lemma {:induction false} ChoiceResolves(ce: seq<byte>, arms: FlowArms, d: FlowDefault, tab: seq<Entry>, at: nat, target: nat)
    requires Resolves(OpenArms(arms), AssembleArms(arms, target - at - |ce| - 3), ArmHoles(arms, at + |ce| + 3), at + |ce| + 3, target)
    requires Resolves(OpenDefault(d), AssembleDefault(d, target - at - |ce| - 3 - ArmsSize(arms)),
                      DefaultHoles(d, at + |ce| + 3 + ArmsSize(arms)), at + |ce| + 3 + ArmsSize(arms), target)
    ensures Resolves(Open(Choice(ce, arms, d, tab)), Assemble(Choice(ce, arms, d, tab), target - at),
                     Holes(Choice(ce, arms, d, tab), at), at, target)
  {
    ChoiceUnfolds(ce, arms, d, tab, target - at);
    HolesOfChoice(ce, arms, d, tab, at);
    hide Resolves, FarJump, TableCode, Open, OpenArms, OpenDefault, Assemble, AssembleArms, AssembleDefault, Holes, ArmHoles,
         DefaultHoles, ArmsSize, DefaultSize;
    var pos := ArmsSize(arms) + DefaultSize(d);
    var jump, table := FarJump(0xC2, pos + 2), TableCode(tab, ArmsSize(arms), pos);
    var c1, d1 := OpenArms(arms), AssembleArms(arms, target - at - |ce| - 3);
    var c2, d2 := OpenDefault(d), AssembleDefault(d, target - at - |ce| - 3 - ArmsSize(arms));
    ResolvesTwo(ce + jump, c1, d1, ArmHoles(arms, at + |ce| + 3), [], c2, d2,
                DefaultHoles(d, at + |ce| + 3 + ArmsSize(arms)), table, at, target);
    assert (ce + jump) + c1 + [] + c2 + table == ce + jump + c1 + c2 + table;
    assert (ce + jump) + d1 + [] + d2 + table == ce + jump + d1 + d2 + table;
  }

  lemma {:induction false} ChoiceUnfolds(ce: seq<byte>, arms: FlowArms, d: FlowDefault, tab: seq<Entry>, exit: int)
    ensures Open(Choice(ce, arms, d, tab)) == CaseCode(ce, OpenArms(arms), OpenDefault(d), tab)
    ensures Assemble(Choice(ce, arms, d, tab), exit)
         == CaseCode(ce, AssembleArms(arms, exit - |ce| - 3), AssembleDefault(d, exit - |ce| - 3 - ArmsSize(arms)), tab)
  {
    hide CaseCode;
  }

  lemma {:induction false} HolesOfChoice(ce: seq<byte>, arms: FlowArms, d: FlowDefault, tab: seq<Entry>, at: nat)
    ensures Holes(Choice(ce, arms, d, tab), at)
         == ArmHoles(arms, at + |ce| + 3) + DefaultHoles(d, at + |ce| + 3 + ArmsSize(arms))
  {
    hide Size, ArmsSize, DefaultSize, ArmHoles, DefaultHoles, TableLen, GuardHoles;
  }

  lemma {:induction false} GuardsResolve(g: FlowGuards, at: nat, back: nat, target: nat)
    ensures Resolves(OpenGuards(g, back), AssembleGuards(g, target - at, back), GuardHoles(g, at, back), at, target)
    decreases g
  {
    hide Resolves, Open, Assemble, Holes, GuardCode, GuardLen;
    OpenResolves(g.body, at + |g.cond| + 3, target);
    GuardResolves(g.cond, g.body, at, back, target);
    if g.MoreGuards? {
      var k := GuardLen(|g.cond|, Size(g.body), back);
      var c, d := GuardCode(g.cond, Open(g.body), back), GuardCode(g.cond, Assemble(g.body, target - at - |g.cond| - 3), back);
      GuardsResolve(g.rest, at + k, back + k, target);
      Together(c, d, Holes(g.body, at + |g.cond| + 3), OpenGuards(g.rest, back + k),
               AssembleGuards(g.rest, target - at - k, back + k), GuardHoles(g.rest, at + k, back + k), at, target);
    }
  }

  lemma {:induction false} GuardResolves(cc: seq<byte>, b: Flow, at: nat, back: nat, target: nat)
    requires Resolves(Open(b), Assemble(b, target - at - |cc| - 3), Holes(b, at + |cc| + 3), at + |cc| + 3, target)
    ensures Resolves(GuardCode(cc, Open(b), back), GuardCode(cc, Assemble(b, target - at - |cc| - 3), back),
                     Holes(b, at + |cc| + 3), at, target)
  {
    hide Resolves, FarJump, BackJump, Wrap, Assemble, Bytes, Holes, Open, Size, AssembleGuards, PatchDown, GuardHoles, CaseCode;
    var bj := BackJump(0x1D, 0x19, back + |cc| + 3 + Size(b));
    var jump, c, d := FarJump(0x18, Size(b) + |bj| + 2), Open(b), Assemble(b, target - at - |cc| - 3);
    ResolvesOne(cc + jump, c, d, Holes(b, at + |cc| + 3), bj, at, target);
  }

  lemma {:induction false} ArmsResolve(a: FlowArms, at: nat, target: nat)
    ensures Resolves(OpenArms(a), AssembleArms(a, target - at), ArmHoles(a, at), at, target)
    decreases a
  {
    hide Resolves, Open, Assemble, Holes, Size;
    if a.NoFlowArms? {
      ResolvesNone([], at, target);
    } else {
      OpenResolves(a.body, at, target);
      ArmsResolve(a.rest, at + Size(a.body) + 1, target);
      var c1, d1, c2, d2 := Open(a.body), Assemble(a.body, target - at), OpenArms(a.rest), AssembleArms(a.rest, target - at - Size(a.body) - 1);
      ArmResolves(c1, d1, Holes(a.body, at), c2, d2, ArmHoles(a.rest, at + Size(a.body) + 1), at, target);
    }
  }

  lemma {:induction false} ArmResolves(c1: seq<byte>, d1: seq<byte>, h1: seq<nat>, c2: seq<byte>, d2: seq<byte>, h2: seq<nat>, at: nat, target: nat)
    requires Resolves(c1, d1, h1, at, target) && Resolves(c2, d2, h2, at + |c1| + 1, target)
    ensures Resolves(c1 + [0xC3] + c2, d1 + [0xC3] + d2, h1 + h2, at, target)
  {
    hide Resolves;
    ResolvesTwo([], c1, d1, h1, [0xC3], c2, d2, h2, [], at, target);
    assert [] + c1 + [0xC3] + c2 + [] == c1 + [0xC3] + c2 && [] + d1 + [0xC3] + d2 + [] == d1 + [0xC3] + d2;
  }

  lemma {:induction false} DefaultResolves(d: FlowDefault, at: nat, target: nat)
    ensures Resolves(OpenDefault(d), AssembleDefault(d, target - at), DefaultHoles(d, at), at, target)
    decreases d
  {
    hide Resolves;
    if d.TrapHere? {
      ResolvesNone(TRAP_CODE, at, target);
    } else {
      OpenResolves(d.body, at, target);
      ResolvesOne([], Open(d.body), Assemble(d.body, target - at), Holes(d.body, at), [0xC3], at, target);
      assert [] + Open(d.body) == Open(d.body) && [] + Assemble(d.body, target - at) == Assemble(d.body, target - at);
    }
  }
}
