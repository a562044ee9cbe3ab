/** The simulation: compiled statements do exactly what the source statements do, including
    EXIT, faults and not terminating. */
module StmtRun {
  import opened Words
  import opened Options
  import opened MCode
  import opened Machines
  import opened Runs
  import opened Lang
  import opened StmtLang
  import opened ExprMeaning
  import opened ExprProof
  import opened Blocks
  import opened StmtGen
  import opened StmtProof
  import opened StmtParts
  import opened CaseTable
  import opened Nested
  import opened CaseProof
  import G = ExprGen

  /** A state at the same boundary with another program counter. */
  lemma {:induction false} JumpTo(p: seq<Module>, env: Env, s: Store, st: State, n: nat, m: nat, pc: word)
    requires Boundary()(env, s, st, n) && m <= n
    ensures Moved()(env, st, s, st.(pc := pc)) && Boundary()(env, s, st.(pc := pc), m)
  {
    StaysPut(env, s, st, n, pc);
    NewBoundary(env, s, st, s, st.(pc := pc), n, m);
  }

  lemma {:induction false} StmtRuns(p: seq<Module>, env: Env, s: Store, st: State, n: nat, stmt: Stmt, free: bool, f: Flow,
                                    fuel: nat, exit: int)
    requires Boundary()(env, s, st, n) && Compiled()(env, stmt, free, f) && StackWords(stmt) <= n
    requires Ready(p, st, Assemble(f, exit)) && (free ==> 0 < st.pc + exit < 0x1_0000)
    ensures Simulates(p)(env, st, Perform(stmt, s, fuel), fuel, st.pc + Size(f), st.pc + exit)
    decreases fuel, stmt, 2
  {
    hide CodeAt, Decode, Exec, Eval, G.GenExpr, WellLaid, Machine, Ready, FarJump, BackJump;
    match stmt
    case Empty => EmptyRuns(p, env, s, st, n, free, f, fuel, exit);
    case Seq(a, b) => SeqRuns(p, env, s, st, n, a, b, free, f, fuel, exit);
    case Assign(v, e) =>
      AssignCompiled(env, v, e, free, f);
      AssignSimulates(p, env, s, st, n, v, e, f.code, fuel, st.pc + exit);
    case If(c, t) => IfRuns(p, env, s, st, n, c, t, free, f, fuel, exit);
    case IfElse(c, t, e) => IfElseRuns(p, env, s, st, n, c, t, e, free, f, fuel, exit);
    case While(g) => WhileRuns(p, env, s, st, n, g, free, f, fuel, exit);
    case Repeat(b, c) => RepeatRuns(p, env, s, st, n, b, c, free, f, fuel, exit);
    case Loop(b) => LoopRuns(p, env, s, st, n, b, free, f, fuel, exit);
    case Exit => ExitRuns(p, env, s, st, n, free, f, fuel, exit);
    case For(_, _, _, _, _) => ForRuns(p, env, s, st, n, stmt, free, f, fuel, exit);
    case Case(e, a, d) => CaseRuns(p, env, s, st, n, e, a, d, free, f, fuel, exit);
  }

  lemma {:induction false} EmptyRuns(p: seq<Module>, env: Env, s: Store, st: State, n: nat, free: bool, f: Flow, fuel: nat, exit: int)
    requires Boundary()(env, s, st, n) && Compiled()(env, Empty, free, f)
    ensures Simulates(p)(env, st, Done(s), fuel, st.pc + Size(f), st.pc + exit)
  {
    EmptyParts(env, free, f);
    StaysPut(env, s, st, n, st.pc);
    Stay(Machine(p), st);
    assert LeadsTo(p, st, Some(st));
    ArriveDone(p, env, st, s, st, fuel, st.pc, st.pc + exit);
  }

  lemma {:induction false} SeqUnfolds(a: Stmt, b: Stmt, s: Store, fuel: nat, f: Flow, exit: int)
    ensures Perform(Seq(a, b), s, fuel)
         == match Perform(a, s, fuel) case Done(t) => Perform(b, t, fuel) case other => other
    ensures StackWords(a) <= StackWords(Seq(a, b)) && StackWords(b) <= StackWords(Seq(a, b))
    ensures f.Chain? ==> Size(f) == Size(f.first) + Size(f.second)
    ensures f.Chain? ==> Assemble(f, exit) == Assemble(f.first, exit) + Assemble(f.second, exit - Size(f.first))
  {
  }

  lemma {:induction false} SeqRuns(p: seq<Module>, env: Env, s: Store, st: State, n: nat, a: Stmt, b: Stmt, free: bool, f: Flow,
                                   fuel: nat, exit: int)
    requires Boundary()(env, s, st, n) && Compiled()(env, Seq(a, b), free, f) && StackWords(Seq(a, b)) <= n
    requires Ready(p, st, Assemble(f, exit)) && (free ==> 0 < st.pc + exit < 0x1_0000)
    ensures Simulates(p)(env, st, Perform(Seq(a, b), s, fuel), fuel, st.pc + Size(f), st.pc + exit)
    decreases fuel, Seq(a, b), 0
  {
    hide *;
    SeqUnfolds(a, b, s, fuel, f, exit);
    hide Perform, Size, Assemble, StackWords, Ready, WellLaid;
    var fa, fb := SeqParts(env, a, b, free, f);
    ReadyParts(p, st, Assemble(fa, exit), Assemble(fb, exit - Size(fa)));
    StmtRuns(p, env, s, st, n, a, free, fa, fuel, exit);
    var o := Perform(a, s, fuel);
    if o.Done? {
      var mid := DoneState(p, env, st, o.s, fuel, st.pc + Size(fa), st.pc + exit);
      NewBoundary(env, s, st, o.s, mid, n, n);
      SamePlace(p, st.(pc := mid.pc), mid, Assemble(fb, exit - Size(fa)));
      StmtRuns(p, env, o.s, mid, n, b, free, fb, fuel, exit - Size(fa));
      Resume(p, env, st, o.s, mid, Perform(b, o.s, fuel), fuel, st.pc + Size(f), st.pc + exit);
    } else {
      OtherEnd(p, env, st, o, fuel, st.pc + Size(fa), st.pc + exit, st.pc + Size(f));
    }
  }

  lemma {:induction false} ExitRuns(p: seq<Module>, env: Env, s: Store, st: State, n: nat, free: bool, f: Flow, fuel: nat, exit: int)
    requires Boundary()(env, s, st, n) && Compiled()(env, Exit, free, f)
    requires Ready(p, st, Assemble(f, exit)) && (free ==> 0 < st.pc + exit < 0x1_0000)
    ensures Simulates(p)(env, st, Exited(s), fuel, st.pc + Size(f), st.pc + exit)
  {
    ExitParts(env, free, f);
    WrapJump(st.pc + 1, exit - 1);
    FarJumpStep(p, st, exit - 1, st.pc + exit);
    JumpTo(p, env, s, st, n, n, st.pc + exit);
    ArriveExited(p, env, st, s, st.(pc := st.pc + exit), fuel, st.pc + Size(f), st.pc + exit);
  }

  lemma {:induction false} WrapJump(x: int, d: int)
    requires 0 <= x + d < 0x1_0000
    ensures Wrap(x + Wrap(d)) == x + d
  {
    var q := d / 0x1_0000;
    assert Wrap(d) == d - 0x1_0000 * q;
    WrapShift(x + d, -q);
  }

  lemma {:induction false} IfRuns(p: seq<Module>, env: Env, s: Store, st: State, n: nat, c: Expr, t: Stmt, free: bool, f: Flow,
                                  fuel: nat, exit: int)
    requires Boundary()(env, s, st, n) && Compiled()(env, If(c, t), free, f) && StackWords(If(c, t)) <= n
    requires Ready(p, st, Assemble(f, exit)) && (free ==> 0 < st.pc + exit < 0x1_0000)
    ensures Simulates(p)(env, st, Perform(If(c, t), s, fuel), fuel, st.pc + Size(f), st.pc + exit)
    decreases fuel, If(c, t), 0
  {
    hide CodeAt, Decode, Exec, Eval, G.GenExpr, WellLaid, Machine, Ready, FarJump, BackJump, Wrap, Apply, Sketch, ExecUnary, ExecBinary;
    var cc, ft := IfParts(env, c, t, free, f);
    var ct := Assemble(ft, exit - |cc| - 3);
    ReadyParts(p, st, cc + FarJump(0x18, |ct| + 2), ct);
    BranchRuns(p, env, s, st, n, c, cc, |ct| + 2);
    var end := st.pc + Size(f);
    if Eval(c, s) == None {
      ArriveTrapped(p, env, st, fuel, end, st.pc + exit);
    } else if Eval(c, s) == Some(B(true)) {
      var inner := st.(pc := st.pc + |cc| + 3);
      JumpTo(p, env, s, st, n, n, inner.pc);
      StmtRuns(p, env, s, inner, n, t, free, ft, fuel, exit - |cc| - 3);
      Resume(p, env, st, s, inner, Perform(t, s, fuel), fuel, end, st.pc + exit);
    } else {
      JumpTo(p, env, s, st, n, n, end);
      ArriveDone(p, env, st, s, st.(pc := end), fuel, end, st.pc + exit);
    }
  }

  lemma {:induction false} IfElseRuns(p: seq<Module>, env: Env, s: Store, st: State, n: nat, c: Expr, t: Stmt, u: Stmt, free: bool,
                                      f: Flow, fuel: nat, exit: int)
    requires Boundary()(env, s, st, n) && Compiled()(env, IfElse(c, t, u), free, f) && StackWords(IfElse(c, t, u)) <= n
    requires Ready(p, st, Assemble(f, exit)) && (free ==> 0 < st.pc + exit < 0x1_0000)
    ensures Simulates(p)(env, st, Perform(IfElse(c, t, u), s, fuel), fuel, st.pc + Size(f), st.pc + exit)
    decreases fuel, IfElse(c, t, u), 0
  {
    hide CodeAt, Decode, Exec, Eval, G.GenExpr, WellLaid, Machine, Ready, FarJump, BackJump, Perform, Size, Assemble, StackWords, IfElseCode;
    var cc, ft, fu := IfElseParts(env, c, t, u, free, f);
    IfElseUnfolds(c, t, u, s, fuel, f, exit);
    var ct, cu := Assemble(ft, exit - |cc| - 3), Assemble(fu, exit - |cc| - 6 - Size(ft));
    IfElseLayout(p, st, cc, ct, cu);
    BranchRuns(p, env, s, st, n, c, cc, |ct| + 5);
    var end := st.pc + Size(f);
    if Eval(c, s) == None {
      ArriveTrapped(p, env, st, fuel, end, st.pc + exit);
    } else if Eval(c, s) == Some(B(true)) {
      var inner := st.(pc := st.pc + |cc| + 3);
      JumpTo(p, env, s, st, n, n, inner.pc);
      ThenRuns(p, env, s, inner, n, t, free, ft, fuel, exit - |cc| - 3, |cu|);
      Resume(p, env, st, s, inner, Perform(t, s, fuel), fuel, end, st.pc + exit);
    } else {
      var inner := st.(pc := st.pc + |cc| + 6 + |ct|);
      JumpTo(p, env, s, st, n, n, inner.pc);
      StmtRuns(p, env, s, inner, n, u, free, fu, fuel, exit - |cc| - 6 - Size(ft));
      Resume(p, env, st, s, inner, Perform(u, s, fuel), fuel, end, st.pc + exit);
    }
  }

  lemma {:induction false} IfElseUnfolds(c: Expr, t: Stmt, u: Stmt, s: Store, fuel: nat, f: Flow, exit: int)
    requires f.Branch2?
    ensures Perform(IfElse(c, t, u), s, fuel)
         == match Eval(c, s)
            case Some(x) => if x == B(true) then Perform(t, s, fuel) else Perform(u, s, fuel)
            case None => Trapped
    ensures StackWords(t) <= StackWords(IfElse(c, t, u)) && StackWords(u) <= StackWords(IfElse(c, t, u))
    ensures Size(f) == |f.cond| + 6 + Size(f.thn) + Size(f.els)
    ensures Assemble(f, exit) == IfElseCode(f.cond, Assemble(f.thn, exit - |f.cond| - 3), Assemble(f.els, exit - |f.cond| - 6 - Size(f.thn)))
  {
    hide Eval, IfElseCode;
  }

  lemma {:induction false} IfElseLayout(p: seq<Module>, st: State, cc: seq<byte>, ct: seq<byte>, cu: seq<byte>)
    requires Ready(p, st, IfElseCode(cc, ct, cu))
    ensures st.pc + |cc| + 6 + |ct| + |cu| < 0x1_0000
    ensures Ready(p, st, cc + FarJump(0x18, |ct| + 5))
    ensures Ready(p, st.(pc := st.pc + |cc| + 3), ct)
    ensures Ready(p, st.(pc := st.pc + |cc| + 3 + |ct|), FarJump(0x19, |cu| + 2))
    ensures Ready(p, st.(pc := st.pc + |cc| + 6 + |ct|), cu)
  {
    var head := cc + FarJump(0x18, |ct| + 5);
    var skip := FarJump(0x19, |cu| + 2);
    ReadyParts(p, st, head + ct + skip, cu);
    ReadyParts(p, st, head + ct, skip);
    ReadyParts(p, st, head, ct);
  }

  /** The THEN part and the jump over the k bytes of the ELSE part. */
  lemma {:induction false} ThenRuns(p: seq<Module>, env: Env, s: Store, st: State, n: nat, t: Stmt, free: bool, f: Flow,
                                    fuel: nat, exit: int, k: nat)
    requires Boundary()(env, s, st, n) && Compiled()(env, t, free, f) && StackWords(t) <= n
    requires Ready(p, st, Assemble(f, exit)) && (free ==> 0 < st.pc + exit < 0x1_0000)
    requires st.pc + Size(f) + 3 + k < 0x1_0000 && Ready(p, st.(pc := st.pc + Size(f)), FarJump(0x19, k + 2))
    ensures Simulates(p)(env, st, Perform(t, s, fuel), fuel, st.pc + Size(f) + 3 + k, st.pc + exit)
    decreases fuel, t, 3
  {
    hide CodeAt, Decode, Exec, Eval, G.GenExpr, WellLaid, Machine, Ready, FarJump, BackJump;
    SamePlace(p, st, st, Assemble(f, exit));
    StmtRuns(p, env, s, st, n, t, free, f, fuel, exit);
    ThenSkips(p, env, s, st, n, Perform(t, s, fuel), fuel, st.pc + Size(f), k, st.pc + Size(f) + 3 + k, st.pc + exit);
  }

  /** Code followed by a jump over k bytes ends behind those bytes. */
  lemma {:induction false} ThenSkips(p: seq<Module>, env: Env, s: Store, st: State, n: nat, o: Outcome, fuel: nat, mid: int, k: nat, end: int, exit: int)
    requires Boundary()(env, s, st, n) && Simulates(p)(env, st, o, fuel, mid, exit)
    requires 0 < mid && mid + 3 + k < 0x1_0000 && end == mid + 3 + k
    requires Ready(p, st.(pc := mid), FarJump(0x19, k + 2))
    ensures Simulates(p)(env, st, o, fuel, end, exit)
  {
    if o.Done? {
      var b := DoneState(p, env, st, o.s, fuel, mid, exit);
      NewBoundary(env, s, st, o.s, b, n, n);
      FarJumpStep(p, b, k + 2, end);
      JumpTo(p, env, o.s, b, n, n, end);
      LeadsOn(p, st, b, Some(b.(pc := end)));
      MovedOn(env, st, o.s, b, o.s, b.(pc := end));
      ArriveDone(p, env, st, o.s, b.(pc := end), fuel, end, exit);
    } else {
      OtherEnd(p, env, st, o, fuel, mid, exit, end);
    }
  }

  // -------------------------------------------------------------------- loops

  lemma {:induction false} LoopUnfolds(b: Stmt, s: Store, fuel: nat, f: Flow, exit: int)
    ensures Perform(Loop(b), s, fuel)
         == match Perform(b, s, fuel)
            case Done(t) => if fuel == 0 then Running else Perform(Loop(b), t, fuel - 1)
            case Exited(t) => Done(t)
            case other => other
    ensures StackWords(Loop(b)) == StackWords(b)
    ensures f.Forever? ==>
              var k := Size(f.body);
              && Size(f) == k + |BackJump(0x1D, 0x19, k)|
              && Assemble(f, exit) == Assemble(f.body, Size(f)) + BackJump(0x1D, 0x19, k)
  {
  }

  lemma {:induction false} LoopRuns(p: seq<Module>, env: Env, s: Store, st: State, n: nat, b: Stmt, free: bool, f: Flow,
                                    fuel: nat, exit: int)
    requires Boundary()(env, s, st, n) && Compiled()(env, Loop(b), free, f) && StackWords(Loop(b)) <= n
    requires Ready(p, st, Assemble(f, exit))
    ensures Simulates(p)(env, st, Perform(Loop(b), s, fuel), fuel, st.pc + Size(f), st.pc + exit)
    decreases fuel, Loop(b), 0
  {
    hide *;
    LoopUnfolds(b, s, fuel, f, exit);
    hide Perform, Size, Assemble, StackWords, LoopLen, CodeAt, Eval, WellLaid, Ready, FarJump, BackJump;
    var fb := LoopParts(env, b, free, f);
    var k := Size(f);
    var cb, bj := Assemble(fb, k), BackJump(0x1D, 0x19, Size(fb));
    ReadyParts(p, st, cb, bj);
    ReadyParts(p, st, cb + bj, []) by { assert (cb + bj) + [] == cb + bj; }
    StmtRuns(p, env, s, st, n, b, true, fb, fuel, k);
    var o := Perform(b, s, fuel);
    var end := st.pc + k;
    match o {
      case Done(t) =>
        if fuel == 0 {
          OutOfFuel(p, env, st, end, st.pc + exit);
        } else {
          var again := BackToStart(p, env, s, st, n, t, Size(fb), fuel, end);
          SamePlace(p, st, again.1, Assemble(f, exit));
          LoopRuns(p, env, t, again.1, n, b, free, f, fuel - 1, exit);
          ResumeByStep(p, env, st, again.0, t, again.1, Perform(Loop(b), t, fuel - 1), fuel - 1, end, st.pc + exit);
        }
      case Exited(t) =>
        var out := ExitedState(p, env, st, t, fuel, st.pc + Size(fb), end);
        ArriveDone(p, env, st, t, out, fuel, end, st.pc + exit);
      case _ =>
        OtherEnd(p, env, st, o, fuel, st.pc + Size(fb), end, end);
        OtherExit(p, env, st, o, fuel, end, end, st.pc + exit);
    }
  }

  /** After a round of k bytes the backward jump returns to where the round started. */
  lemma {:induction false} BackToStart(p: seq<Module>, env: Env, s: Store, st: State, n: nat, t: Store, k: nat, fuel: nat, exit: int)
    returns (r: (State, State))
    requires Boundary()(env, s, st, n) && Simulates(p)(env, st, Done(t), fuel, st.pc + k, exit)
    requires 0 < st.pc && st.pc + k < 0x1_0000 && Ready(p, st.(pc := st.pc + k), BackJump(0x1D, 0x19, k))
    ensures Leads(p)(st, Some(r.0)) && Machine(p)(r.0) == Some(r.1) && Moved()(env, st, t, r.1)
    ensures r.1 == st.(mem := r.1.mem) && Boundary()(env, t, r.1, n)
  {
    var b := DoneState(p, env, st, t, fuel, st.pc + k, exit);
    NewBoundary(env, s, st, t, b, n, n);
    BackJumpStep(p, b, k);
    JumpTo(p, env, t, b, n, n, st.pc);
    MovedOn(env, st, t, b, t, b.(pc := st.pc));
    r := (b, b.(pc := st.pc));
  }

  lemma {:induction false} RepeatRuns(p: seq<Module>, env: Env, s: Store, st: State, n: nat, b: Stmt, c: Expr, free: bool, f: Flow,
                                      fuel: nat, exit: int)
    requires Boundary()(env, s, st, n) && Compiled()(env, Repeat(b, c), free, f) && StackWords(Repeat(b, c)) <= n
    requires Ready(p, st, Assemble(f, exit)) && (free ==> 0 < st.pc + exit < 0x1_0000)
    ensures Simulates(p)(env, st, Perform(Repeat(b, c), s, fuel), fuel, st.pc + Size(f), st.pc + exit)
    decreases fuel, Repeat(b, c), 0
  {
    hide CodeAt, Decode, Exec, Eval, G.GenExpr, WellLaid, Machine, Ready, FarJump, BackJump, Perform, Size, Assemble, StackWords;
    var fb, cc := RepeatParts(env, b, c, free, f);
    RepeatUnfolds(b, c, s, fuel, f, exit);
    var cb, bj := Assemble(fb, exit), BackJump(0x1C, 0x18, Size(fb) + |cc|);
    ReadyParts(p, st, cb + cc, bj);
    ReadyParts(p, st, cb, cc);
    StmtRuns(p, env, s, st, n, b, free, fb, fuel, exit);
    var o := Perform(b, s, fuel);
    var end := st.pc + Size(f);
    if o.Done? {
      var mid := DoneState(p, env, st, o.s, fuel, st.pc + Size(fb), st.pc + exit);
      NewBoundary(env, s, st, o.s, mid, n, n);
      CondRuns(p, env, o.s, mid, n, c, cc);
      var v := Eval(c, o.s);
      if v == None {
        ArriveTrapped(p, env, mid, fuel, end, st.pc + exit);
        Resume(p, env, st, o.s, mid, Trapped, fuel, end, st.pc + exit);
      } else {
        var r := UntilJump(p, env, o.s, st, mid, n, Size(fb), cc, v.value.b);
        if v.value.b {
          ArriveDone(p, env, st, o.s, r.1, fuel, end, st.pc + exit);
        } else if fuel == 0 {
          OutOfFuel(p, env, st, end, st.pc + exit);
        } else {
          SamePlace(p, st, r.1, Assemble(f, exit));
          RepeatRuns(p, env, o.s, r.1, n, b, c, free, f, fuel - 1, exit);
          ResumeByStep(p, env, st, r.0, o.s, r.1, Perform(Repeat(b, c), o.s, fuel - 1), fuel - 1, end, st.pc + exit);
        }
      }
    } else {
      OtherEnd(p, env, st, o, fuel, st.pc + Size(fb), st.pc + exit, end);
    }
  }

  lemma {:induction false} RepeatUnfolds(b: Stmt, c: Expr, s: Store, fuel: nat, f: Flow, exit: int)
    requires f.Until?
    ensures Perform(Repeat(b, c), s, fuel)
         == match Perform(b, s, fuel)
            case Done(t) =>
              (match Eval(c, t)
               case Some(x) => if x == B(true) then Done(t) else if fuel == 0 then Running else Perform(Repeat(b, c), t, fuel - 1)
               case None => Trapped)
            case other => other
    ensures StackWords(Repeat(b, c)) == StackWords(b)
    ensures var k := Size(f.body) + |f.cond|;
            && Size(f) == k + |BackJump(0x1C, 0x18, k)|
            && Assemble(f, exit) == Assemble(f.body, exit) + f.cond + BackJump(0x1C, 0x18, k)
  {
    hide Eval;
  }

  /** After k bytes of body and the condition, UNTIL goes on or back to the start. */
  lemma {:induction false} UntilJump(p: seq<Module>, env: Env, t: Store, st: State, mid: State, n: nat, k: nat, cc: seq<byte>, v: bool)
    returns (r: (State, State))
    requires Leads(p)(st, Some(mid)) && Moved()(env, st, t, mid) && Boundary()(env, t, mid, n)
    requires st.pc + k < 0x1_0000 && mid == st.(pc := st.pc + k, mem := mid.mem) && mid.es == [] && 0 < st.pc
    requires Yields(p, mid, |cc|, Some(Encode(B(v))))
    requires Ready(p, Skip(mid, |cc|), BackJump(0x1C, 0x18, k + |cc|))
    ensures Leads(p)(st, Some(r.0)) && Machine(p)(r.0) == Some(r.1) && Leads(p)(st, Some(r.1))
    ensures Moved()(env, st, t, r.1) && Boundary()(env, t, r.1, n)
    ensures r.1 == st.(pc := r.1.pc, mem := r.1.mem)
    ensures r.1.pc == if v then st.pc + k + |cc| + |BackJump(0x1C, 0x18, k + |cc|)| else st.pc
  {
    var one := Pushed(mid, |cc|, Encode(B(v)));
    CondBackStep(p, one, k + |cc|, Encode(B(v)));
    var to := if v then st.pc + k + |cc| + |BackJump(0x1C, 0x18, k + |cc|)| else st.pc;
    LeadsOn(p, st, mid, Some(one));
    var two := mid.(pc := to);
    assert two == one.(pc := to, es := []);
    LeadsOn(p, st, one, Some(two));
    JumpTo(p, env, t, mid, n, n, to);
    MovedOn(env, st, t, mid, t, two);
    r := (one, two);
  }

  lemma {:induction false} WhileRuns(p: seq<Module>, env: Env, s: Store, st: State, n: nat, g: Guards, free: bool, f: Flow,
                                     fuel: nat, exit: int)
    requires Boundary()(env, s, st, n) && Compiled()(env, While(g), free, f) && StackWords(While(g)) <= n
    requires Ready(p, st, Assemble(f, exit)) && (free ==> 0 < st.pc + exit < 0x1_0000)
    ensures Simulates(p)(env, st, Perform(While(g), s, fuel), fuel, st.pc + Size(f), st.pc + exit)
    decreases fuel, While(g), 0
  {
    hide CodeAt, Decode, Exec, Eval, G.GenExpr, WellLaid, Machine, Ready, FarJump, BackJump;
    var fg := WhileParts(env, g, free, f);
    EnterLoop(p, st, fg, exit, free);
    GuardsRun(p, env, s, st, st, n, g, g, free, fg, fg, fuel, exit);
  }

  lemma {:induction false} GuardLength(c: nat, b: nat, back: nat)
    ensures GuardLen(c, b, back) == c + 3 + b + |BackJump(0x1D, 0x19, back + c + 3 + b)|
    ensures |BackJump(0x1D, 0x19, back + c + 3 + b)| >= 2
  {
  }

  lemma {:induction false} GuardNeeds(g: Guards)
    ensures StackWords(g.body) <= GuardWords(g)
  {
    hide StackWords;
  }

  lemma {:induction false} GuardLayout(p: seq<Module>, st: State, cc: seq<byte>, cb: seq<byte>, back: nat, rest: seq<byte>)
    requires Ready(p, st, GuardCode(cc, cb, back) + rest)
    ensures var k := back + |cc| + 3 + |cb|;
            var bj := BackJump(0x1D, 0x19, k);
            && st.pc + GuardLen(|cc|, |cb|, back) + |rest| < 0x1_0000
            && Ready(p, st, cc + FarJump(0x18, |cb| + |bj| + 2))
            && Ready(p, st.(pc := st.pc + |cc| + 3), cb)
            && Ready(p, st.(pc := st.pc + |cc| + 3 + |cb|), bj)
            && Ready(p, st.(pc := st.pc + GuardLen(|cc|, |cb|, back)), rest)
  {
    hide Ready, CodeAt, FarJump, BackJump;
    var bj := BackJump(0x1D, 0x19, back + |cc| + 3 + |cb|);
    var head := cc + FarJump(0x18, |cb| + |bj| + 2);
    ReadyParts(p, st, GuardCode(cc, cb, back), rest);
    ReadyParts(p, st, head + cb, bj);
    ReadyParts(p, st, head, cb);
  }

  /** The code of the guards behind the first one. */
  function RestCode(fg: FlowGuards, exit: int, back: nat): seq<byte> {
    if fg.LastGuard? then [] else AssembleGuards(fg.rest, exit - GuardLen(|fg.cond|, Size(fg.body), back),
                                                 back + GuardLen(|fg.cond|, Size(fg.body), back))
  }

  lemma {:induction false} GuardsSplit(fg: FlowGuards, exit: int, back: nat)
    ensures AssembleGuards(fg, exit, back)
         == GuardCode(fg.cond, Assemble(fg.body, exit - |fg.cond| - 3), back) + RestCode(fg, exit, back)
    ensures GuardsSize(fg, back) == GuardLen(|fg.cond|, Size(fg.body), back) + |RestCode(fg, exit, back)|
  {
    hide GuardCode, GuardLen, Assemble, Size, FarJump, BackJump;
    if fg.LastGuard? {
      assert AssembleGuards(fg, exit, back) + [] == AssembleGuards(fg, exit, back);
    }
  }

  /** Where in its loop a guard stands: start is the state at the beginning of the loop. */
  ghost predicate InLoop(p: seq<Module>, start: State, st: State, fall: FlowGuards, fg: FlowGuards, exit: int, free: bool) {
    && start == st.(pc := start.pc) && 0 < start.pc <= st.pc
    && Ready(p, start, AssembleGuards(fall, exit, 0))
    && Ready(p, st, AssembleGuards(fg, exit - (st.pc - start.pc), st.pc - start.pc))
    && st.pc - start.pc + GuardsSize(fg, st.pc - start.pc) == GuardsSize(fall, 0)
    && (free ==> 0 < start.pc + exit < 0x1_0000)
  }

  /** `InLoop`, exposed to the solver one instance at a time. */
  ghost function Inside(p: seq<Module>): (f: (State, State, FlowGuards, FlowGuards, int, bool) -> bool)
    ensures forall a, b, x, y, e, r {:trigger InLoop(p, a, b, x, y, e, r)} :: f(a, b, x, y, e, r) == InLoop(p, a, b, x, y, e, r)
  {
    assert InsideGraph((a, b, x, y, e, r) => InLoop(p, a, b, x, y, e, r), p);
    var f: (State, State, FlowGuards, FlowGuards, int, bool) -> bool :| InsideGraph(f, p);
    f
  }

  ghost predicate InsideGraph(f: (State, State, FlowGuards, FlowGuards, int, bool) -> bool, p: seq<Module>) {
    forall a, b, x, y, e, r {:trigger InLoop(p, a, b, x, y, e, r)} :: f(a, b, x, y, e, r) == InLoop(p, a, b, x, y, e, r)
  }

  lemma {:induction false} EnterLoop(p: seq<Module>, st: State, fall: FlowGuards, exit: int, free: bool)
    requires Ready(p, st, AssembleGuards(fall, exit, 0)) && (free ==> 0 < st.pc + exit < 0x1_0000)
    ensures Inside(p)(st, st, fall, fall, exit, free)
  {
    assert InLoop(p, st, st, fall, fall, exit, free);
  }

  lemma {:induction false} AgainInside(p: seq<Module>, start: State, st: State, fall: FlowGuards, fg: FlowGuards, exit: int, free: bool, again: State)
    requires Inside(p)(start, st, fall, fg, exit, free) && again == start.(mem := again.mem)
    ensures Inside(p)(again, again, fall, fall, exit, free)
  {
    assert InLoop(p, start, st, fall, fg, exit, free);
    assert InLoop(p, again, again, fall, fall, exit, free);
  }

  lemma {:induction false} NextInside(p: seq<Module>, start: State, st: State, fall: FlowGuards, fg: FlowGuards, exit: int, free: bool, next: State)
    requires Inside(p)(start, st, fall, fg, exit, free) && start.pc <= st.pc && fg.MoreGuards?
    requires next == st.(pc := next.pc) && next.pc == st.pc + GuardLen(|fg.cond|, Size(fg.body), st.pc - start.pc)
    requires Ready(p, next, RestCode(fg, exit - (st.pc - start.pc), st.pc - start.pc))
    ensures Inside(p)(start, next, fall, fg.rest, exit, free)
  {
    hide CodeAt, Decode, Exec, Eval, G.GenExpr, WellLaid, Machine, Ready, FarJump, BackJump, GuardLen, AssembleGuards, GuardsSize, Size, RestCode;
    assert InLoop(p, start, st, fall, fg, exit, free);
    RestOfGuards(fg, exit, st.pc - start.pc, next.pc - start.pc);
    assert InLoop(p, start, next, fall, fg.rest, exit, free);
  }

  lemma {:induction false} InsideFacts(p: seq<Module>, start: State, st: State, fall: FlowGuards, fg: FlowGuards, exit: int, free: bool)
    requires Inside(p)(start, st, fall, fg, exit, free)
    ensures start == st.(pc := start.pc) && 0 < start.pc <= st.pc
    ensures Ready(p, st, AssembleGuards(fg, exit - (st.pc - start.pc), st.pc - start.pc))
    ensures fg.LastGuard? ==> st.pc + GuardLen(|fg.cond|, Size(fg.body), st.pc - start.pc) == start.pc + GuardsSize(fall, 0)
    ensures free ==> 0 < start.pc + exit < 0x1_0000
  {
    assert InLoop(p, start, st, fall, fg, exit, free);
  }

  /** Running the condition of a guard: to its body, behind its code, or into a fault. */
  lemma {:induction false} GuardFront(p: seq<Module>, env: Env, s: Store, st: State, n: nat, g: Guards, free: bool, fg: FlowGuards,
                   x: int, back: nat)
    requires Boundary()(env, s, st, n) && Guarded()(env, g, free, fg)
    requires Ready(p, st, AssembleGuards(fg, x, back))
    ensures Eval(g.cond, s).Some? ==> Eval(g.cond, s).value.B?
    ensures var k := GuardLen(|fg.cond|, Size(fg.body), back);
            && st.pc + k < 0x1_0000
            && Leads(p)(st, match Eval(g.cond, s)
                            case None => None
                            case Some(v) => Some(st.(pc := st.pc + if v.b then |fg.cond| + 3 else k)))
            && Ready(p, st.(pc := st.pc + k), RestCode(fg, x, back))
  {
    hide *;
    GuardLength(|fg.cond|, Size(fg.body), back);
    GuardParts(env, g, free, fg);
    GuardsSplit(fg, x, back);
    var cb := Assemble(fg.body, x - |fg.cond| - 3);
    GuardLayout(p, st, fg.cond, cb, back, RestCode(fg, x, back));
    BranchRuns(p, env, s, st, n, g.cond, fg.cond, |cb| + |BackJump(0x1D, 0x19, back + |fg.cond| + 3 + |cb|)| + 2);
  }

  lemma {:induction false} GuardInside(p: seq<Module>, st: State, fg: FlowGuards, x: int, back: nat)
    requires Ready(p, st, AssembleGuards(fg, x, back))
    ensures var inner, k := st.pc + |fg.cond| + 3, Size(fg.body);
            && inner + k < 0x1_0000
            && Ready(p, st.(pc := inner), Assemble(fg.body, x - |fg.cond| - 3))
            && Ready(p, st.(pc := inner + k), BackJump(0x1D, 0x19, back + |fg.cond| + 3 + k))
  {
    hide CodeAt, Bytes, FarJump, BackJump, Ready;
    GuardsSplit(fg, x, back);
    GuardLayout(p, st, fg.cond, Assemble(fg.body, x - |fg.cond| - 3), back, RestCode(fg, x, back));
  }

  lemma {:induction false} GuardsRun(p: seq<Module>, env: Env, s: Store, start: State, st: State, n: nat, all: Guards, g: Guards,
                                     free: bool, fall: FlowGuards, fg: FlowGuards, fuel: nat, exit: int)
    requires Boundary()(env, s, st, n) && GuardWords(all) <= n && GuardWords(g) <= n
    requires Guarded()(env, all, free, fall) && Guarded()(env, g, free, fg)
    requires Inside(p)(start, st, fall, fg, exit, free)
    ensures Simulates(p)(env, st, PerformGuards(all, g, s, fuel), fuel, start.pc + GuardsSize(fall, 0), start.pc + exit)
    decreases fuel, g, 4
  {
    if Eval(g.cond, s) == Some(B(true)) {
      GuardHolds(p, env, s, start, st, n, all, g, free, fall, fg, fuel, exit);
    } else {
      GuardFails(p, env, s, start, st, n, all, g, free, fall, fg, fuel, exit);
    }
  }

  lemma {:induction false} RestOfGuards(fg: FlowGuards, exit: int, back: nat, next: nat)
    requires fg.MoreGuards? && next == back + GuardLen(|fg.cond|, Size(fg.body), back)
    ensures RestCode(fg, exit - back, back) == AssembleGuards(fg.rest, exit - next, next)
    ensures back + GuardsSize(fg, back) == next + GuardsSize(fg.rest, next)
  {
    assert exit - back - GuardLen(|fg.cond|, Size(fg.body), back) == exit - next;
  }

  lemma {:induction false} GuardFails(p: seq<Module>, env: Env, s: Store, start: State, st: State, n: nat, all: Guards, g: Guards,
                                      free: bool, fall: FlowGuards, fg: FlowGuards, fuel: nat, exit: int)
    requires Boundary()(env, s, st, n) && GuardWords(all) <= n && GuardWords(g) <= n
    requires Guarded()(env, all, free, fall) && Guarded()(env, g, free, fg)
    requires Inside(p)(start, st, fall, fg, exit, free) && Eval(g.cond, s) != Some(B(true))
    ensures Simulates(p)(env, st, PerformGuards(all, g, s, fuel), fuel, start.pc + GuardsSize(fall, 0), start.pc + exit)
    decreases fuel, g, 3
  {
    hide CodeAt, Decode, Exec, Eval, G.GenExpr, WellLaid, Machine, Ready, FarJump, BackJump;
    var end := start.pc + GuardsSize(fall, 0);
    var next := GuardSkipped(p, env, s, start, st, n, g, free, fall, fg, exit);
    if Eval(g.cond, s) == None {
      ArriveTrapped(p, env, st, fuel, end, start.pc + exit);
    } else if g.More? {
      GuardsRun(p, env, s, start, next, n, all, g.rest, free, fall, fg.rest, fuel, exit);
      Resume(p, env, st, s, next, PerformGuards(all, g.rest, s, fuel), fuel, end, start.pc + exit);
    } else {
      ArriveDone(p, env, st, s, next, fuel, end, start.pc + exit);
    }
  }

  /** A condition that does not hold leads behind the guard's code, or into a fault. */
  lemma {:induction false} GuardSkipped(p: seq<Module>, env: Env, s: Store, start: State, st: State, n: nat, g: Guards, free: bool,
                     fall: FlowGuards, fg: FlowGuards, exit: int) returns (next: State)
    requires Boundary()(env, s, st, n) && Guarded()(env, g, free, fg)
    requires Inside(p)(start, st, fall, fg, exit, free) && Eval(g.cond, s) != Some(B(true))
    ensures Leads(p)(st, if Eval(g.cond, s) == None then None else Some(next))
    ensures Moved()(env, st, s, next) && Boundary()(env, s, next, n) && g.Last? == fg.LastGuard?
    ensures g.Last? ==> next.pc == start.pc + GuardsSize(fall, 0)
    ensures g.More? ==> Guarded()(env, g.rest, free, fg.rest) && Inside(p)(start, next, fall, fg.rest, exit, free)
  {
    hide *;
    InsideFacts(p, start, st, fall, fg, exit, free);
    var back := st.pc - start.pc;
    GuardFront(p, env, s, st, n, g, free, fg, exit - back, back);
    GuardParts(env, g, free, fg);
    next := st.(pc := st.pc + GuardLen(|fg.cond|, Size(fg.body), back));
    JumpTo(p, env, s, st, n, n, next.pc);
    if g.More? {
      NextInside(p, start, st, fall, fg, exit, free, next);
    }
  }

  lemma {:induction false} GuardHolds(p: seq<Module>, env: Env, s: Store, start: State, st: State, n: nat, all: Guards, g: Guards,
                                      free: bool, fall: FlowGuards, fg: FlowGuards, fuel: nat, exit: int)
    requires Boundary()(env, s, st, n) && GuardWords(all) <= n && GuardWords(g) <= n
    requires Guarded()(env, all, free, fall) && Guarded()(env, g, free, fg)
    requires Inside(p)(start, st, fall, fg, exit, free) && Eval(g.cond, s) == Some(B(true))
    ensures Simulates(p)(env, st, PerformGuards(all, g, s, fuel), fuel, start.pc + GuardsSize(fall, 0), start.pc + exit)
    decreases fuel, g, 3
  {
    hide CodeAt, Decode, Exec, Eval, G.GenExpr, WellLaid, Machine, Ready, FarJump, BackJump;
    var o, k, end := Perform(g.body, s, fuel), Size(fg.body), start.pc + GuardsSize(fall, 0);
    var inner := GuardBodyRuns(p, env, s, start, st, n, all, g, free, fall, fg, fuel, exit);
    if !o.Done? {
      OtherEnd(p, env, inner, o, fuel, inner.pc + k, start.pc + exit, end);
      Resume(p, env, st, s, inner, o, fuel, end, start.pc + exit);
    } else if fuel == 0 {
      OutOfFuel(p, env, st, end, start.pc + exit);
    } else {
      var b, again := GuardAgain(p, env, s, start, st, inner, n, o.s, k, fuel, start.pc + exit);
      AgainInside(p, start, st, fall, fg, exit, free, again);
      NextRound(p, env, o.s, st, b, again, n, all, free, fall, fuel, exit);
    }
  }

  lemma {:induction false} GuardBodyRuns(p: seq<Module>, env: Env, s: Store, start: State, st: State, n: nat, all: Guards, g: Guards,
                                         free: bool, fall: FlowGuards, fg: FlowGuards, fuel: nat, exit: int) returns (inner: State)
    requires Boundary()(env, s, st, n) && GuardWords(g) <= n
    requires Guarded()(env, g, free, fg)
    requires Inside(p)(start, st, fall, fg, exit, free) && Eval(g.cond, s) == Some(B(true))
    ensures Leads(p)(st, Some(inner)) && Moved()(env, st, s, inner) && Boundary()(env, s, inner, n)
    ensures start == inner.(pc := start.pc) && 0 < start.pc <= inner.pc && inner.pc + Size(fg.body) < 0x1_0000
    ensures Simulates(p)(env, inner, Perform(g.body, s, fuel), fuel, inner.pc + Size(fg.body), start.pc + exit)
    ensures Ready(p, inner.(pc := inner.pc + Size(fg.body)), BackJump(0x1D, 0x19, inner.pc + Size(fg.body) - start.pc))
    decreases fuel, g, 2
  {
    hide *;
    GuardNeeds(g);
    InsideFacts(p, start, st, fall, fg, exit, free);
    var back := st.pc - start.pc;
    GuardInside(p, st, fg, exit - back, back);
    inner := st.(pc := st.pc + |fg.cond| + 3);
    GuardEntered(p, env, s, st, n, g, free, fg, exit - back, back, inner);
    StmtRuns(p, env, s, inner, n, g.body, free, fg.body, fuel, exit - back - |fg.cond| - 3);
  }

  lemma {:induction false} NextRound(p: seq<Module>, env: Env, s: Store, st: State, b: State, again: State, n: nat, all: Guards,
                                     free: bool, fall: FlowGuards, fuel: nat, exit: int)
    requires Boundary()(env, s, again, n) && GuardWords(all) <= n && Guarded()(env, all, free, fall)
    requires Inside(p)(again, again, fall, fall, exit, free) && fuel > 0
    requires Leads(p)(st, Some(b)) && Machine(p)(b) == Some(again) && Moved()(env, st, s, again)
    ensures Simulates(p)(env, st, PerformGuards(all, all, s, fuel - 1), fuel, again.pc + GuardsSize(fall, 0), again.pc + exit)
    decreases fuel - 1, all, 5
  {
    hide *;
    GuardsRun(p, env, s, again, again, n, all, all, free, fall, fall, fuel - 1, exit);
    ResumeByStep(p, env, st, b, s, again, PerformGuards(all, all, s, fuel - 1), fuel - 1,
                 again.pc + GuardsSize(fall, 0), again.pc + exit);
  }

  lemma {:induction false} GuardEntered(p: seq<Module>, env: Env, s: Store, st: State, n: nat, g: Guards, free: bool, fg: FlowGuards,
                     x: int, back: nat, inner: State)
    requires Boundary()(env, s, st, n) && Guarded()(env, g, free, fg)
    requires Ready(p, st, AssembleGuards(fg, x, back)) && Eval(g.cond, s) == Some(B(true))
    requires inner == st.(pc := inner.pc) && inner.pc == st.pc + |fg.cond| + 3
    ensures Leads(p)(st, Some(inner)) && Moved()(env, st, s, inner) && Boundary()(env, s, inner, n)
    ensures Compiled()(env, g.body, free, fg.body) && Ready(p, inner, Assemble(fg.body, x - |fg.cond| - 3))
    ensures inner.pc + Size(fg.body) < 0x1_0000
    ensures Ready(p, inner.(pc := inner.pc + Size(fg.body)), BackJump(0x1D, 0x19, back + |fg.cond| + 3 + Size(fg.body)))
  {
    hide CodeAt, Bytes, FarJump, BackJump, Ready, Assemble, Size, WellLaid;
    GuardFront(p, env, s, st, n, g, free, fg, x, back);
    GuardInside(p, st, fg, x, back);
    GuardParts(env, g, free, fg);
    JumpTo(p, env, s, st, n, n, inner.pc);
  }

  /** The body of a guard has run; the jump behind it starts the next round. */
  lemma {:induction false} GuardAgain(p: seq<Module>, env: Env, s: Store, start: State, st: State, inner: State, n: nat, t: Store, k: nat,
                   fuel: nat, exit: int) returns (b: State, again: State)
    requires Boundary()(env, s, inner, n) && Leads(p)(st, Some(inner)) && Moved()(env, st, s, inner)
    requires start == inner.(pc := start.pc) && 0 < start.pc <= inner.pc && inner.pc + k < 0x1_0000
    requires Simulates(p)(env, inner, Done(t), fuel, inner.pc + k, exit)
    requires Ready(p, inner.(pc := inner.pc + k), BackJump(0x1D, 0x19, inner.pc + k - start.pc))
    ensures Leads(p)(st, Some(b)) && Machine(p)(b) == Some(again) && Moved()(env, st, t, again)
    ensures again == start.(mem := again.mem) && Boundary()(env, t, again, n)
  {
    b := DoneState(p, env, inner, t, fuel, inner.pc + k, exit);
    NewBoundary(env, s, inner, t, b, n, n);
    BackJumpStep(p, b, inner.pc + k - start.pc);
    again := b.(pc := start.pc);
    LeadsOn(p, st, inner, Some(b));
    JumpTo(p, env, t, b, n, n, start.pc);
    MovedOn(env, inner, t, b, t, again);
    MovedOn(env, st, s, inner, t, again);
  }

  // ---------------------------------------------------------------------- FOR

  lemma {:induction false} ForLayout(p: seq<Module>, st: State, head: seq<byte>, step: int, cb: seq<byte>)
    requires Ready(p, st, ForCode(head, step, cb))
    ensures st.pc + |head| + 8 + |cb| < 0x1_0000
    ensures Ready(p, st, head)
    ensures Ready(p, st.(pc := st.pc + |head|), ForFront(step, |cb|))
    ensures Ready(p, st.(pc := st.pc + |head| + 4), cb)
    ensures Ready(p, st.(pc := st.pc + |head| + 4 + |cb|), ForBack(step, |cb|))
  {
    hide CodeAt, ForFront, ForBack;
    var one, two := ForFront(step, |cb|), ForBack(step, |cb|);
    ReadyParts(p, st, head + one + cb, two);
    ReadyParts(p, st, head + one, cb);
    ReadyParts(p, st, head, one);
  }

  /** What a FOR does, in terms of its evaluated limits. */
  lemma {:induction false} ForUnfolds(f: Stmt, s: Store, fuel: nat)
    requires f.For?
    ensures Perform(f, s, fuel)
         == match (AssignedTo(f.v.typ, f.low, s), LimitValue(f.v, f.high, s))
            case (Some(x), Some(hi)) =>
              if (if f.step > 0 then Signed(Encode(x)) <= Signed(hi) else Signed(Encode(x)) >= Signed(hi)) then
                PerformFor(f.v, Signed(hi), f.step, f.body, s[f.v := x], fuel)
              else Done(s)
            case _ => Trapped
  {
  }

  lemma {:induction false} ForRuns(p: seq<Module>, env: Env, s: Store, st: State, n: nat, stmt: Stmt, free: bool, f: Flow,
                                   fuel: nat, exit: int)
    requires stmt.For? && Boundary()(env, s, st, n) && Compiled()(env, stmt, free, f) && StackWords(stmt) <= n
    requires Ready(p, st, Assemble(f, exit))
    ensures Simulates(p)(env, st, Perform(stmt, s, fuel), fuel, st.pc + Size(f), st.pc + exit)
    decreases fuel, stmt, 0
  {
    hide CodeAt, Eval, WellLaid, Ready, ForCode, ExprFits, ForHead, LimitValue, Bytes, Wrap, Exec, Perform, Apply, Sketch, ExecUnary,
         G.GenExpr, ExecBinary;
    ForParts(env, stmt, free, f);
    var end, v, cb := st.pc + Size(f), stmt.v, Assemble(f.body, exit - |f.head| - 4);
    ForLayout(p, st, f.head, stmt.step, cb);
    VarPlace(env, s, st, n, v);
    HeadRuns(p, env, s, st, n, v, stmt.low, stmt.high, f.head);
    ForUnfolds(stmt, s, fuel);
    var lo, hi := AssignedTo(v.typ, stmt.low, s), LimitValue(v, stmt.high, s);
    if lo == None || hi == None {
      ArriveTrapped(p, env, st, fuel, end, st.pc + exit);
    } else {
      ConvertedWord(Eval(stmt.low, s).value, v.typ);
      ForGoes(p, env, s, st, n, stmt, f.body, st.pc + |f.head|, exit - |f.head| - 4, lo.value, hi.value, fuel, st.pc + exit);
    }
  }

  /** Behind the head of a FOR, with address, initial value and limit on the stack. */
  lemma {:induction false} ForGoes(p: seq<Module>, env: Env, s: Store, st: State, n: nat, f: Stmt, fb: Flow, at: word, x: int,
                                   lo: Value, hi: word, fuel: nat, exit: int)
    requires f.For? && f.step != 0 && -0x80 <= f.step < 0x80 && StackWords(f) <= n && f.v.typ != Bool
    requires Boundary()(env, s, st, n) && Compiled()(env, f.body, false, fb) && f.v in env.vars && TypOf(lo) == f.v.typ
    requires f.v.lev < |env.bases| && Address(env, f.v) < MEM_SIZE && at + 8 + Size(fb) < 0x1_0000
    requires Leads(p)(st, Some(st.(pc := at, es := [Address(env, f.v), Encode(lo), hi])))
    requires Ready(p, st.(pc := at), ForFront(f.step, Size(fb)))
    requires Ready(p, st.(pc := at + 4), Assemble(fb, x))
    requires Ready(p, st.(pc := at + 4 + Size(fb)), ForBack(f.step, Size(fb)))
    ensures Simulates(p)(env, st,
              if (if f.step > 0 then Signed(Encode(lo)) <= Signed(hi) else Signed(Encode(lo)) >= Signed(hi)) then
                PerformFor(f.v, Signed(hi), f.step, f.body, s[f.v := lo], fuel)
              else Done(s),
              fuel, at + 8 + Size(fb), exit)
    decreases fuel, f.body, 4
  {
    hide CodeAt, WellLaid, Ready, Bytes, Wrap, Perform, PerformFor, Assemble, Size, Held, Exec, Decode, ForFront, ForBack, Machine, Sketch,
         Represents, Leads, Eval, Signed, AtBoundary, PerformGuards;
    BoundaryFacts(env, s, st, n);
    var adr: word, k := Address(env, f.v), Size(fb);
    var one := st.(pc := at, es := [adr, Encode(lo), hi]);
    SamePlace(p, st.(pc := at), one, ForFront(f.step, k));
    EnterForRuns(p, one, f.step, k, adr, Encode(lo), hi);
    if if f.step > 0 then Signed(Encode(lo)) <= Signed(hi) else Signed(Encode(lo)) >= Signed(hi) {
      var two := st.(pc := at + 4, s := st.s + 2, mem := st.mem[adr := Encode(lo)][st.s := adr][st.s + 1 := hi]);
      LeadsOn(p, st, one, Some(two));
      ForEntered(env, s, st, n, f.v, lo, hi, two);
      SamePlace(p, st.(pc := at + 4), two, Assemble(fb, x));
      SamePlace(p, st.(pc := at + 4 + k), two.(pc := at + 4 + k), ForBack(f.step, k));
      ForRounds(p, env, s, st, n, s[f.v := lo], two, f.v, hi, f.step, f.body, fb, x, fuel);
      Entered(p, env, st, two, PerformFor(f.v, Signed(hi), f.step, f.body, s[f.v := lo], fuel), fuel, at + 8 + k, exit);
    } else {
      LeadsOn(p, st, one, Some(st.(pc := at + 8 + k)));
      StaysPut(env, s, st, n, at + 8 + k);
      ArriveDone(p, env, st, s, st.(pc := at + 8 + k), fuel, at + 8 + k, exit);
    }
  }

  lemma {:induction false} ForRounds(p: seq<Module>, env: Env, s0: Store, a: State, n: nat, s: Store, st: State, v: Var, hi: word,
                                     step: int, b: Stmt, fb: Flow, x: int, fuel: nat)
    requires Boundary()(env, s0, a, n) && 2 + StackWords(b) <= n && v in env.vars && v.typ != Bool && -0x80 <= step < 0x80
    requires v.lev < |env.bases| && Address(env, v) < MEM_SIZE && Held(env, a, s, st, [Address(env, v), hi])
    requires Compiled()(env, b, false, fb) && Ready(p, st, Assemble(fb, x)) && st.pc + Size(fb) + 4 < 0x1_0000
    requires Ready(p, st.(pc := st.pc + Size(fb)), ForBack(step, Size(fb)))
    ensures Continues(p, env, a, st, PerformFor(v, Signed(hi), step, b, s, fuel), fuel, st.pc + Size(fb) + 4)
    decreases fuel, b, 3
  {
    hide CodeAt, WellLaid, Ready, Bytes, Wrap, Perform, Assemble, Size, Held, Exec, Decode;
    var ws, k := [Address(env, v) as word, hi], Size(fb);
    HeldBoundary(env, s0, a, n, s, st, ws);
    StmtRuns(p, env, s, st, n - 2, b, false, fb, fuel, x);
    var o := Perform(b, s, fuel);
    NoExit(env, b, fb, s, fuel);
    if o.Done? {
      var c := DoneState(p, env, st, o.s, fuel, st.pc + k, st.pc + x);
      HeldAfter(env, s0, a, n, s, st, ws, o.s, c);
      SamePlace(p, st.(pc := c.pc), c, ForBack(step, k));
      ForAgain(p, env, s0, a, n, s, st, c, o.s, v, hi, step, b, fb, x, fuel);
    } else {
      BodyDecides(p, env, a, st, o, fuel, st.pc + k, st.pc + x, st.pc + k + 4);
    }
  }

  lemma {:induction false} NoExit(env: Env, b: Stmt, fb: Flow, s: Store, fuel: nat)
    requires Compiled()(env, b, false, fb)
    ensures !Perform(b, s, fuel).Exited?
  {
    assert StmtCompiled(env, b, false, fb);
    NeverExits(b, s, fuel);
  }

  /** The body has run from st to c; the rest of the FOR follows. */
  lemma {:induction false} ForAgain(p: seq<Module>, env: Env, s0: Store, a: State, n: nat, s: Store, st: State, c: State, t: Store,
                                    v: Var, hi: word, step: int, b: Stmt, fb: Flow, x: int, fuel: nat)
    requires Boundary()(env, s0, a, n) && 2 + StackWords(b) <= n && v in env.vars && v.typ != Bool && -0x80 <= step < 0x80
    requires v.lev < |env.bases| && Address(env, v) < MEM_SIZE && Held(env, a, t, c, [Address(env, v), hi])
    requires Compiled()(env, b, false, fb) && Ready(p, st, Assemble(fb, x)) && st.pc + Size(fb) + 4 < 0x1_0000
    requires c == st.(pc := st.pc + Size(fb), mem := c.mem) && Leads(p)(st, Some(c)) && Perform(b, s, fuel) == Done(t)
    requires Ready(p, c, ForBack(step, Size(fb)))
    ensures Continues(p, env, a, st, PerformFor(v, Signed(hi), step, b, s, fuel), fuel, st.pc + Size(fb) + 4)
    decreases fuel, b, 2
  {
    hide CodeAt, WellLaid, Ready, Bytes, Assemble, Size, Held, Exec, Decode, Perform, StackWords, FromWord, Wrap, Signed, Beyond;
    var k, end := Size(fb), st.pc + Size(fb) + 4;
    SamePlace(p, st, st, Assemble(fb, x));
    var d := ForSteps(p, env, s0, a, n, v, hi, step, k, t, c);
    RoundUnfolds(v, Signed(hi), step, b, s, t, fuel);
    var i := Wrap(Encode(t[v]) + step);
    if Beyond(Signed(i), Signed(hi), step) {
      LeadsOn(p, st, c, Some(d));
    } else if fuel > 0 {
      HeldPlace(env, a, t[v := FromWord(v.typ, i)], d, t, c, [Address(env, v), hi]);
      SamePlace(p, st, d, Assemble(fb, x));
      SamePlace(p, c, d.(pc := c.pc), ForBack(step, k));
      ForRounds(p, env, s0, a, n, t[v := FromWord(v.typ, i)], d, v, hi, step, b, fb, x, fuel - 1);
      RoundContinues(p, env, a, st, c, d, PerformFor(v, Signed(hi), step, b, t[v := FromWord(v.typ, i)], fuel - 1), fuel - 1, end);
    }
  }

  lemma {:induction false} RoundUnfolds(v: Var, limit: int, step: int, b: Stmt, s: Store, t: Store, fuel: nat)
    requires Perform(b, s, fuel) == Done(t) && v in t
    ensures PerformFor(v, limit, step, b, s, fuel)
         == var i := Wrap(Encode(t[v]) + step);
            if Beyond(Signed(i), limit, step) then Done(t)
            else if fuel == 0 then Running
            else PerformFor(v, limit, step, b, t[v := FromWord(v.typ, i)], fuel - 1)
  {
  }

  lemma {:induction false} HeldPlace(env: Env, a: State, s: Store, b: State, t: Store, c: State, ws: seq<word>)
    requires Held(env, a, s, b, ws) && Held(env, a, t, c, ws)
    ensures b == c.(pc := b.pc, mem := b.mem)
  {
  }

  // --------------------------------------------------------------------- CASE

  lemma {:induction false} CaseUnfolds(e: Expr, a: Arms, d: Default, s: Store, fuel: nat)
    ensures Perform(Case(e, a, d), s, fuel)
         == match Eval(e, s)
            case None => Trapped
            case Some(x) =>
              match Select(a, Ordinal(x))
              case Some(b) => Perform(b, s, fuel)
              case None => if d.Else? then Perform(d.body, s, fuel) else Trapped
  {
  }

  lemma {:induction false} ChoiceUnfolds(f: Flow, exit: int)
    requires f.Choice?
    ensures var ca, cd := AssembleArms(f.arms, exit - |f.sel| - 3), AssembleDefault(f.default, exit - |f.sel| - 3 - ArmsSize(f.arms));
            && Assemble(f, exit) == CaseCode(f.sel, ca, cd, f.tab)
            && Size(f) == |f.sel| + 3 + |ca| + |cd| + TableLen(f.tab)
  {
    hide CaseCode, IfCode, IfElseCode, RepeatCode, LoopCode, ForCode, GuardCode, FarJump, BackJump, TableLen, TableCode;
  }

  lemma {:induction false} CaseRuns(p: seq<Module>, env: Env, s: Store, st: State, n: nat, e: Expr, a: Arms, d: Default,
                                    free: bool, f: Flow, fuel: nat, exit: int)
    requires Boundary()(env, s, st, n) && Compiled()(env, Case(e, a, d), free, f) && StackWords(Case(e, a, d)) <= n
    requires Ready(p, st, Assemble(f, exit))
    ensures Simulates(p)(env, st, Perform(Case(e, a, d), s, fuel), fuel, st.pc + Size(f), st.pc + exit)
    decreases fuel, Case(e, a, d), 1
  {
    hide *;
    CaseWords(e, a, d);
    CaseUnfolds(e, a, d, s, fuel);
    CaseParts(env, e, a, d, free, f);
    ChoiceUnfolds(f, exit);
    BoundaryFacts(env, s, st, n);
    var origin, end, x := st.pc + |f.sel| + 3, st.pc + Size(f), exit - |f.sel| - 3;
    var ca, cd := AssembleArms(f.arms, x), AssembleDefault(f.default, x - ArmsSize(f.arms));
    CaseLayout(p, st, f.sel, ca, cd, f.tab);
    if Eval(e, s) == None {
      TableMeaning(env, a, f.arms, f.tab, C(0), |ca|);
      SelectorRuns(p, env, s, st, n, e, f.sel, f.tab, |ca|, |ca| + |cd|);
      ArriveTrapped(p, env, st, fuel, end, st.pc + exit);
    } else {
      SamePlace(p, st, st, f.sel);
      ArmsRun(p, env, s, st, n, e, a, d, f, x, ca, cd, end, fuel, st.pc + exit);
    }
  }

  /** The words of a CASE on the memory stack: one, and those of its widest part. */
  lemma {:induction false} CaseWords(e: Expr, a: Arms, d: Default)
    ensures StackWords(Case(e, a, d)) >= 1 + ArmWords(a)
    ensures StackWords(Case(e, a, d)) >= 1 + if d.Else? then StackWords(d.body) else 0
  {
  }

  /** The selector has a value: the jump through the table, and the arm or the ELSE part. */
  lemma {:induction false} ArmsRun(p: seq<Module>, env: Env, s: Store, st: State, n: nat, e: Expr, a: Arms, d: Default, f: Flow,
                                   x: int, ca: seq<byte>, cd: seq<byte>, end: word, fuel: nat, exit: int)
    requires Boundary()(env, s, st, n) && StackWords(Case(e, a, d)) <= n && st.s + 1 < MEM_SIZE && 0 < st.pc
    requires f.Choice? && Prepared()(env, e, 0, f.sel) && Armed()(env, a, f.arms) && ArmTable(a, f.arms, 0, []) == Some(f.tab)
    requires d.Trapping? == f.default.TrapHere? && (d.Else? ==> Compiled()(env, d.body, false, f.default.body))
    requires ca == AssembleArms(f.arms, x) && cd == AssembleDefault(f.default, x - ArmsSize(f.arms)) && Eval(e, s).Some?
    requires end == st.pc + |f.sel| + 3 + |ca| + |cd| + TableLen(f.tab) && Ready(p, st, f.sel)
    requires Ready(p, st.(pc := st.pc + |f.sel|), FarJump(0xC2, |ca| + |cd| + 2))
    requires Ready(p, st.(pc := st.pc + |f.sel| + 3), ca) && Ready(p, st.(pc := st.pc + |f.sel| + 3 + |ca|), cd)
    requires CodeAt(p[st.modn].code, st.pc + |f.sel| + 3 + (|ca| + |cd|), TableCode(f.tab, |ca|, |ca| + |cd|))
    ensures Simulates(p)(env, st,
              match Select(a, Ordinal(Eval(e, s).value))
              case Some(b) => Perform(b, s, fuel)
              case None => if d.Else? then Perform(d.body, s, fuel) else Trapped,
              fuel, end, exit)
    decreases fuel, Case(e, a, d), 0
  {
    hide *;
    CaseWords(e, a, d);
    var v, origin := Eval(e, s).value, st.pc + |f.sel| + 3;
    TableMeaning(env, a, f.arms, f.tab, v, |ca|);
    var b := ArmFound(p, env, st, origin, a, f.arms, 0, Encode(v), x);
    SelectorRuns(p, env, s, st, n, e, f.sel, f.tab, |ca|, |ca| + |cd|);
    if Select(a, Ordinal(v)).Some? {
      SelectSmaller(a, Ordinal(v));
      ArmRuns(p, env, s, st, n, b, origin, end, fuel, exit);
    } else {
      DefaultRuns(p, env, s, st, n, d, f.default, x - ArmsSize(f.arms), origin + |ca|, end, fuel, exit);
    }
  }

  lemma {:induction false} ArmRuns(p: seq<Module>, env: Env, s: Store, st: State, n: nat, b: Place, origin: int, end: word,
                                   fuel: nat, exit: int)
    requires Boundary()(env, s, st, n) && 1 + StackWords(b.body) <= n && st.s + 1 < MEM_SIZE
    requires ArmLies(p, env, st, origin, b) && Leads(p)(st, Some(ArmStart(st, origin + b.at, end)))
    ensures Simulates(p)(env, st, Perform(b.body, s, fuel), fuel, end, exit)
    decreases fuel, b.body, 3
  {
    hide CodeAt, WellLaid, Ready, Assemble, Size, Perform, StackWords, Represents;
    var inner, mid := ArmStart(st, origin + b.at, end), origin + b.at + Size(b.flow);
    Hold(env, s, st, n, inner, [end]);
    HeldBoundary(env, s, st, n, s, inner, [end]);
    ReadyParts(p, st.(pc := inner.pc), Assemble(b.flow, b.exit), [0xC3]);
    SamePlace(p, st.(pc := inner.pc), inner, Assemble(b.flow, b.exit));
    StmtRuns(p, env, s, inner, n - 1, b.body, false, b.flow, fuel, b.exit);
    NoExit(env, b.body, b.flow, s, fuel);
    LeaveCase(p, env, s, st, n, inner.pc, end, Perform(b.body, s, fuel), fuel, mid, inner.pc + b.exit, exit);
  }

  /** Where no label matches and there is no ELSE, the machine comes to a TRAP with 4 on top of its stack:
      the number that is reported. */
  lemma {:induction false} CaseTraps(p: seq<Module>, env: Env, s: Store, st: State, n: nat, e: Expr, a: Arms, free: bool, f: Flow, exit: int)
    returns (q: State)
    requires Boundary()(env, s, st, n) && Compiled()(env, Case(e, a, Trapping), free, f) && StackWords(Case(e, a, Trapping)) <= n
    requires Ready(p, st, Assemble(f, exit)) && Eval(e, s).Some? && Select(a, Ordinal(Eval(e, s).value)).None?
    ensures Leads(p)(st, Some(q)) && AtTrap(p, q, 4)
  {
    hide *;
    CaseWords(e, a, Trapping);
    CaseParts(env, e, a, Trapping, free, f);
    ChoiceUnfolds(f, exit);
    BoundaryFacts(env, s, st, n);
    var origin, end, x, v := st.pc + |f.sel| + 3, st.pc + Size(f), exit - |f.sel| - 3, Eval(e, s).value;
    var ca, cd := AssembleArms(f.arms, x), AssembleDefault(f.default, x - ArmsSize(f.arms));
    CaseLayout(p, st, f.sel, ca, cd, f.tab);
    SamePlace(p, st, st, f.sel);
    TableMeaning(env, a, f.arms, f.tab, v, |ca|);
    var _ := ArmFound(p, env, st, origin, a, f.arms, 0, Encode(v), x);
    SelectorRuns(p, env, s, st, n, e, f.sel, f.tab, |ca|, |ca| + |cd|);
    q := TrapComes(p, st, f.default, x - ArmsSize(f.arms), origin + |ca|, end);
  }

  /** TRAP is next, with its number on the stack. */
  predicate AtTrap(p: seq<Module>, st: State, number: word) {
    && st.modn < |p| && st.es == [number]
    && Decode(p[st.modn].code, st.pc).Some? && Decode(p[st.modn].code, st.pc).value.instr == Instr.Trap
  }

  lemma {:induction false} TrapComes(p: seq<Module>, st: State, fd: FlowDefault, x: int, at: word, end: word) returns (q: State)
    requires fd.TrapHere? && st.es == [] && st.s + 1 < MEM_SIZE
    requires Ready(p, st.(pc := at), AssembleDefault(fd, x)) && Leads(p)(st, Some(ArmStart(st, at, end)))
    ensures Leads(p)(st, Some(q)) && AtTrap(p, q, 4)
  {
    hide Leads, Decode;
    var inner := ArmStart(st, at, end);
    SamePlace(p, st.(pc := at), inner, TRAP_CODE);
    q := TrapNumbered(p, inner);
    LeadsOn(p, st, inner, Some(q));
  }

  lemma {:induction false} TrapNumbered(p: seq<Module>, st: State) returns (q: State)
    requires Ready(p, st, TRAP_CODE) && st.es == []
    ensures Leads(p)(st, Some(q)) && AtTrap(p, q, 4)
  {
    hide Decode, DecodePlain, DecodeByte, CodeAt, Leads;
    assert TRAP_CODE == [4] + [0xC4];
    CodeAtParts(p[st.modn].code, st.pc, [4], [0xC4]);
    assert [4] == G.LitCode(4);
    PushLit(p, st, 4);
    q := Pushed(st, 1, 4);
    TrapEffect(p, Skip(q, 1));
    Op1(p, q, 0xC4, Instr.Trap);
  }

  lemma {:induction false} DefaultRuns(p: seq<Module>, env: Env, s: Store, st: State, n: nat, d: Default, fd: FlowDefault, x: int,
                                       at: word, end: word, fuel: nat, exit: int)
    requires Boundary()(env, s, st, n) && 1 + (if d.Else? then StackWords(d.body) else 0) <= n && st.s + 1 < MEM_SIZE
    requires d.Trapping? == fd.TrapHere? && (d.Else? ==> Compiled()(env, d.body, false, fd.body))
    requires Ready(p, st.(pc := at), AssembleDefault(fd, x)) && Leads(p)(st, Some(ArmStart(st, at, end)))
    ensures Simulates(p)(env, st, if d.Else? then Perform(d.body, s, fuel) else Trapped, fuel, end, exit)
    decreases fuel, d, 3
  {
    BoundaryFacts(env, s, st, n);
    if d.Trapping? {
      var inner := ArmStart(st, at, end);
      SamePlace(p, st.(pc := at), inner, TRAP_CODE);
      TrapRuns(p, inner);
      LeadsOn(p, st, inner, None);
      ArriveTrapped(p, env, st, fuel, end, exit);
    } else {
      var b := Place(d.body, fd.body, x, at);
      assert Ready(p, st.(pc := at), Assemble(fd.body, x) + [0xC3]);
      assert ArmLies(p, env, st, 0, b);
      ArmRuns(p, env, s, st, n, b, 0, end, fuel, exit);
    }
  }
}
