/** The compiler and the emulator together: a body compiled in one pass into the buffer, loaded, and
    run by the fetch-execute loop, does what its source says. */
module EndToEnd {
  import opened Words
  import opened Options
  import opened MCode
  import opened Machines
  import opened Runs
  import opened Lang
  import opened StmtLang
  import opened ExprProof
  import opened Blocks
  import opened StmtGen
  import opened StmtProof
  import opened StmtParts
  import opened Programs
  import opened Emitter
  import opened Loops
  import opened Statements
  import opened Placing
  import opened AcceptedStmts
  import R = CodeRoom
  import opened Emulator

  /** A source program within the machine's limits, and a state that represents its first store. */
  ghost predicate FirstState(p: seq<Module>, env: Env, s: Store, st: State, stmt: Stmt) {
    && WellTyped(stmt, env.vars) && Fits(stmt, env) && ExitsStayInside(stmt, false)
    && WellLaid(env) && AtBoundary(env, s, st, StackWords(stmt)) && Outermost(p, env, st)
    && 0 < st.pc && st.modn < |p|
  }

  /** The program with the buffer's code in its module m. */
  function Loading(p: seq<Module>, m: nat, code: seq<byte>): seq<Module>
    requires m < |p|
  {
    p[m := p[m].(code := code)]
  }

  /** Where a run of the machine has come to says how the source program goes. */
  lemma {:induction false} EndMeaning(p: seq<Module>, env: Env, s: Store, st: State, stmt: Stmt, code: seq<byte>, b: State)
    requires Launched(p, env, s, st, stmt, code) && HaltsIn(p, st, b)
    ensures !Traps(stmt, s) && !Diverges(stmt, s) && exists t :: Finishes(stmt, s, t) && InMemory(env, t, b.mem)
  {
    hide AtBoundary, Ready, Perform, Fits, WellTyped, ExitsStayInside, Outermost, Finishes, Traps, Diverges;
    ProgramMeaning(p, env, s, st, stmt, code);
    HaltIsFinal(p, st, b);
    var f := Sketch(stmt, env.lev).value;
    IsLoaded(p, env, s, st, stmt, code);
    OneOfThree(p, env, s, st, stmt, f);
    var t :| Finishes(stmt, s, t);
    var c :| HaltsIn(p, st, c) && InMemory(env, t, c.mem);
    assert c == b;
  }

  lemma {:induction false} IsLoaded(p: seq<Module>, env: Env, s: Store, st: State, stmt: Stmt, code: seq<byte>)
    requires Launched(p, env, s, st, stmt, code)
    ensures Sketch(stmt, env.lev).Some? && Programs.Loaded(p, env, s, st, stmt, Sketch(stmt, env.lev).value)
  {
  }

  /** The code that has been appended lies in the loaded module where the first state points to. */
  lemma {:induction false} Launches(p: seq<Module>, env: Env, s: Store, st: State, stmt: Stmt, before: seq<byte>, code: seq<byte>)
    requires FirstState(p, env, s, st, stmt) && BodyCode(stmt, env.lev) == Some(code) && st.pc == |before| && |before + code| < 0x1_0000
    ensures Launched(Loading(p, st.modn, before + code), env, s, st, stmt, code)
  {
    hide AtBoundary, Fits, WellTyped, ExitsStayInside, BodyCode, WellLaid;
    assert (before + code)[|before|..|before| + |code|] == code;
  }

  /** Compile a body behind what the buffer holds, load the buffer into a module, and run it for at
      most `limit` instructions. An error is reported exactly when the body is not acceptable, one of
      its EXITs is not held, or its code is too long; else a machine that comes to a halt has the
      variables as the source program leaves them, a machine that gets stuck runs a source program
      that traps, and one that runs a diverging source program does neither. */
  method CompileAndRun(g: Generator, l: LoopStack, stmt: Stmt, p: seq<Module>, first: State, limit: nat, ghost env: Env, ghost s: Store)
    returns (cpu: Processor?, n: nat)
    requires Steady(g, l) && VarsVisible(stmt, g.curLev) && LoopDepth(stmt) <= LOOP_LEVELS && l.h == 0 && l.k == 0 && !g.failed
    requires env.lev == g.curLev && FirstState(p, env, s, first, stmt) && first.pc == g.pc
    requires forall m :: 0 <= m < |p| ==> |p[m].code| < 0x1_0000
    modifies g, g.code, l, l.index, l.exits
    ensures cpu == null <==> !(Acceptable(stmt, g.curLev) && ExitsHeld(stmt, 0, 0)
                               && BodyCode(stmt, g.curLev).Some? && old(g.pc) + |BodyCode(stmt, g.curLev).value| <= 11001)
    ensures Acceptable(stmt, g.curLev) && ExitsHeld(stmt, 0, 0) && old(g.pc) + R.Room(stmt) <= 11000 ==> cpu != null
    ensures cpu != null ==>
              && cpu.Valid() && n <= limit && (n < limit ==> cpu.stuck || cpu.pc == 0)
              && (cpu.stuck ==> Traps(stmt, s))
              && (!cpu.stuck && cpu.pc == 0 ==> exists t :: Finishes(stmt, s, t) && InMemory(env, t, cpu.mem[..]))
              && (Diverges(stmt, s) ==> n == limit && !cpu.stuck && cpu.pc != 0)
  {
    hide AtBoundary, Ready, Perform, Fits, WellTyped, ExitsStayInside, Outermost, Finishes, Traps, Diverges, VarsVisible, LoopDepth,
         BodyCode, Accepted, InMemory, WellLaid, Acceptable, ExitsHeld, R.Room;
    assert Typable(stmt) by {
      assert WellTyped(stmt, env.vars);
    }
    assert |first.es| == 0 by {
      NothingWaits(env, s, first, StackWords(stmt));
    }
    cpu, n := null, 0;
    ghost var before := g.Out();
    CompileBody(g, l, stmt);
    if !g.failed {
      ghost var code := BodyCode(stmt, g.curLev).value;
      var loaded := Loading(p, first.modn, g.code[..g.pc]);
      Launches(p, env, s, first, stmt, before, code);
      cpu := new Processor(loaded, first);
      n := cpu.Execute(limit);
      RunMeaning(loaded, env, s, first, stmt, code, n);
    }
  }

  lemma {:induction false} NothingWaits(env: Env, s: Store, st: State, n: nat)
    requires AtBoundary(env, s, st, n)
    ensures st.es == []
  {
  }

  /** What a fault or a halt after n instructions says about the source program. */
  lemma {:induction false} RunMeaning(p: seq<Module>, env: Env, s: Store, st: State, stmt: Stmt, code: seq<byte>, n: nat)
    requires Launched(p, env, s, st, stmt, code)
    ensures var o := Run(Machine(p), n, st);
            && (o.Some? && o.value.pc == 0 ==>
                  !Diverges(stmt, s) && exists t :: Finishes(stmt, s, t) && InMemory(env, t, o.value.mem))
            && (o == None ==> !Diverges(stmt, s))
    ensures Faults(Machine(p), Halted, st) ==> Traps(stmt, s)
  {
    hide AtBoundary, Ready, Perform, Fits, WellTyped, ExitsStayInside, Outermost, Finishes, Traps, Diverges, Run;
    ProgramMeaning(p, env, s, st, stmt, code);
    var o := Run(Machine(p), n, st);
    if o.Some? && o.value.pc == 0 {
      assert Reaches(Machine(p), st, o.value);
      EndMeaning(p, env, s, st, stmt, code, o.value);
    }
    if o == None {
      assert !RunsFor(Machine(p), st, n);
    }
  }
}
