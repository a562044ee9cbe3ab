/** Whole programs: a compiled body followed by RTN halts, faults or runs for ever exactly when
    the source program does, and halts with exactly its final store in memory. */
module Programs {
  import opened Words
  import opened Options
  import opened MCode
  import opened Machines
  import opened Runs
  import opened Lang
  import opened StmtLang
  import opened ExprProof
  import opened Blocks
  import opened StmtGen
  import opened StmtProof
  import opened StmtParts
  import opened StmtRun

  // --------------------------------------------------------------- the source

  ghost predicate Finishes(stmt: Stmt, s: Store, t: Store) {
    exists fuel: nat :: Perform(stmt, s, fuel) == Done(t)
  }

  ghost predicate Traps(stmt: Stmt, s: Store) {
    exists fuel: nat :: Perform(stmt, s, fuel) == Trapped
  }

  ghost predicate Diverges(stmt: Stmt, s: Store) {
    forall fuel: nat :: Perform(stmt, s, fuel) == Running
  }

  // -------------------------------------------------------------- the machine

  ghost predicate HaltsIn(p: seq<Module>, a: State, b: State) {
    Reaches(Machine(p), a, b) && Halted(b)
  }

  ghost predicate RunsForEver(p: seq<Module>, a: State) {
    forall n: nat :: RunsFor(Machine(p), a, n)
  }

  /** The variables in memory hold the values of store t. */
  ghost predicate InMemory(env: Env, t: Store, mem: memory)
    requires WellLaid(env)
  {
    && t.Keys == env.vars && Typed(t)
    && forall v :: v in env.vars ==> mem[Address(env, v)] == Encode(t[v])
  }

  /** The frame words of the outermost activation: no variables, and a return address of 0. */
  ghost predicate Outermost(p: seq<Module>, env: Env, st: State)
    requires WellLaid(env)
  {
    && st.cs + 2 < st.s && (forall k: int :: st.cs <= k < st.cs + 3 ==> !VarCell(env, k))
    && (st.mem[st.cs] >= 0x100 || st.mem[st.cs] < |p|)
    && st.mem[st.cs + 2] == 0
  }

  /** A compiled program about to run. */
  ghost predicate Loaded(p: seq<Module>, env: Env, s: Store, st: State, stmt: Stmt, f: Flow) {
    && WellLaid(env) && AtBoundary(env, s, st, StackWords(stmt)) && StmtCompiled(env, stmt, false, f)
    && Ready(p, st, Assemble(f, 0) + [0xEC]) && Outermost(p, env, st)
  }

  lemma {:induction false} RtnRuns(p: seq<Module>, st: State)
    requires Ready(p, st, [0xEC]) && st.cs + 2 < MEM_SIZE && st.mem[st.cs + 2] == 0
    requires st.mem[st.cs] >= 0x100 || st.mem[st.cs] < |p|
    ensures exists b :: Leads(p)(st, Some(b)) && Halted(b) && b.mem == st.mem
  {
    Op1(p, st, 0xEC, Return);
    var next := Skip(st, 1);
    assert Exec(p, next, Return) == ReturnFrom(p, next);
    var b := ReturnFrom(p, next).value;
    Take(p, st, Return, 1, Some(b));
  }

  /** What the source program does with some fuel, the machine does. */
  lemma {:induction false} OutcomeRuns(p: seq<Module>, env: Env, s: Store, st: State, stmt: Stmt, f: Flow, fuel: nat)
    requires Loaded(p, env, s, st, stmt, f)
    ensures match Perform(stmt, s, fuel)
            case Done(t) => exists b :: HaltsIn(p, st, b) && InMemory(env, t, b.mem)
            case Exited(_) => false
            case Trapped => Faults(Machine(p), Halted, st)
            case Running => RunsFor(Machine(p), st, fuel)
  {
    hide Ready, Decode, Exec, CodeAt, Assemble, InMemory, Outermost, HaltsIn, Perform, Size, StmtCompiled;
    var code, o, end := Assemble(f, 0), Perform(stmt, s, fuel), st.pc + Size(f);
    ReadyParts(p, st, code, [0xEC]);
    StmtRuns(p, env, s, st, StackWords(stmt), stmt, false, f, fuel, 0);
    NoExit(env, stmt, f, s, fuel);
    assert SimulatesAll(p, env, st, o, fuel, end, st.pc);
    if o.Done? {
      var c := DoneState(p, env, st, o.s, fuel, end, st.pc);
      DoneHalts(p, env, st, o.s, c);
    } else if o.Trapped? {
      assert LeadsTo(p, st, None);
    }
  }

  /** The body has run from st to c; RTN halts the machine. */
  lemma {:induction false} DoneHalts(p: seq<Module>, env: Env, st: State, t: Store, c: State)
    requires WellLaid(env) && Outermost(p, env, st) && Leads(p)(st, Some(c)) && Moved()(env, st, t, c)
    requires Ready(p, st.(pc := c.pc), [0xEC])
    ensures exists b :: HaltsIn(p, st, b) && InMemory(env, t, b.mem)
  {
    hide Ready, Decode, Exec, CodeAt;
    assert MovedTo(env, st, t, c);
    FrameKept(env, st, t, c);
    SamePlace(p, st.(pc := c.pc), c, [0xEC]);
    RtnRuns(p, c);
    var b :| Leads(p)(c, Some(b)) && Halted(b) && b.mem == c.mem;
    LeadsOn(p, st, c, Some(b));
    assert LeadsTo(p, st, Some(b));
    assert HaltsIn(p, st, b) && InMemory(env, t, b.mem);
  }

  lemma {:induction false} FrameKept(env: Env, st: State, s: Store, c: State)
    requires MovedTo(env, st, s, c) && st.cs + 2 < st.s && forall k: int :: st.cs <= k < st.cs + 3 ==> !VarCell(env, k)
    ensures c.cs == st.cs && c.mem[c.cs] == st.mem[st.cs] && c.mem[c.cs + 2] == st.mem[st.cs + 2]
  {
  }

  // ------------------------------------------------------- exactly one of three

  lemma {:induction false} HaltIsFinal(p: seq<Module>, a: State, b: State)
    requires HaltsIn(p, a, b)
    ensures !Faults(Machine(p), Halted, a) && !RunsForEver(p, a)
    ensures forall c :: HaltsIn(p, a, c) ==> c == b
  {
    assert Step(p, b) == None;
    forall c | Reaches(Machine(p), a, c) && Machine(p)(c) == None
      ensures c == b
    {
      StuckIsFinal(Machine(p), a, b, c);
    }
    StuckIsFinal(Machine(p), a, b, b);
    forall c | HaltsIn(p, a, c)
      ensures c == b
    {
      assert Step(p, c) == None;
    }
  }

  lemma {:induction false} FaultIsFinal(p: seq<Module>, a: State)
    requires Faults(Machine(p), Halted, a)
    ensures !RunsForEver(p, a) && forall b :: !HaltsIn(p, a, b)
  {
    var c :| Reaches(Machine(p), a, c) && Machine(p)(c) == None && !Halted(c);
    StuckIsFinal(Machine(p), a, c, c);
    forall b
      ensures !HaltsIn(p, a, b)
    {
      if HaltsIn(p, a, b) {
        assert Step(p, b) == None;
        StuckIsFinal(Machine(p), a, c, b);
      }
    }
  }

  /** A program that neither finishes nor traps with any fuel goes on for ever. */
  lemma {:induction false} OneOfThree(p: seq<Module>, env: Env, s: Store, st: State, stmt: Stmt, f: Flow)
    requires Loaded(p, env, s, st, stmt, f)
    ensures (exists t :: Finishes(stmt, s, t)) || Traps(stmt, s) || Diverges(stmt, s)
    ensures Diverges(stmt, s) ==> RunsForEver(p, st)
  {
    hide Exec, Decode, Wrap, Perform, Sketch, Assemble, WellLaid, Ready, Leads;
    if !Diverges(stmt, s) {
      var fuel: nat :| Perform(stmt, s, fuel) != Running;
      OutcomeRuns(p, env, s, st, stmt, f, fuel);
      var o := Perform(stmt, s, fuel);
      if o.Done? {
        assert Finishes(stmt, s, o.s);
      }
    } else {
      forall n: nat
        ensures RunsFor(Machine(p), st, n)
      {
        assert Perform(stmt, s, n) == Running;
        OutcomeRuns(p, env, s, st, stmt, f, n);
      }
    }
  }

  lemma {:induction false} LoadedMeaning(p: seq<Module>, env: Env, s: Store, st: State, stmt: Stmt, f: Flow)
    requires Loaded(p, env, s, st, stmt, f)
    ensures forall t :: Finishes(stmt, s, t) <==> exists b :: HaltsIn(p, st, b) && InMemory(env, t, b.mem)
    ensures Traps(stmt, s) <==> Faults(Machine(p), Halted, st)
    ensures Diverges(stmt, s) <==> RunsForEver(p, st)
  {
    hide AtBoundary, StmtCompiled, Ready, Perform, RunsFor, Halted;
    OneOfThree(p, env, s, st, stmt, f);
    if Traps(stmt, s) {
      TrapMeaning(p, env, s, st, stmt, f);
    } else if t :| Finishes(stmt, s, t) {
      FinishMeaning(p, env, s, st, stmt, f, t);
    } else {
      DivergeMeaning(p, env, s, st, stmt, f);
    }
  }

  lemma {:induction false} TrapMeaning(p: seq<Module>, env: Env, s: Store, st: State, stmt: Stmt, f: Flow)
    requires Loaded(p, env, s, st, stmt, f) && Traps(stmt, s)
    ensures Faults(Machine(p), Halted, st) && !RunsForEver(p, st) && !Diverges(stmt, s)
    ensures forall b :: !HaltsIn(p, st, b)
    ensures forall t :: !Finishes(stmt, s, t)
  {
    hide Exec, Decode, Wrap, Perform, Apply, Sketch, ExecUnary, WellLaid, Ready, ExecBinary;
    var fuel: nat :| Perform(stmt, s, fuel) == Trapped;
    OutcomeRuns(p, env, s, st, stmt, f, fuel);
    FaultIsFinal(p, st);
    forall t
      ensures !Finishes(stmt, s, t)
    {
      if Finishes(stmt, s, t) {
        var k: nat :| Perform(stmt, s, k) == Done(t);
        OutcomeRuns(p, env, s, st, stmt, f, k);
      }
    }
  }

  lemma {:induction false} FinishMeaning(p: seq<Module>, env: Env, s: Store, st: State, stmt: Stmt, f: Flow, t: Store)
    requires Loaded(p, env, s, st, stmt, f) && Finishes(stmt, s, t)
    ensures !Faults(Machine(p), Halted, st) && !RunsForEver(p, st) && !Diverges(stmt, s) && !Traps(stmt, s)
    ensures forall u :: Finishes(stmt, s, u) <==> exists b :: HaltsIn(p, st, b) && InMemory(env, u, b.mem)
  {
    hide AtBoundary, StmtCompiled, Ready, Perform, Halted, RunsForEver, Faults;
    FinishHalts(p, env, s, st, stmt, f, t);
    var b :| HaltsIn(p, st, b) && InMemory(env, t, b.mem);
    HaltIsFinal(p, st, b);
    if Traps(stmt, s) {
      TrapMeaning(p, env, s, st, stmt, f);
    }
    forall u
      ensures Finishes(stmt, s, u) <==> exists c :: HaltsIn(p, st, c) && InMemory(env, u, c.mem)
    {
      OnlyStore(p, env, st, t, b, u);
      FinishHalts(p, env, s, st, stmt, f, u);
    }
  }

  lemma {:induction false} OnlyStore(p: seq<Module>, env: Env, st: State, t: Store, b: State, u: Store)
    requires WellLaid(env) && InMemory(env, t, b.mem) && HaltsIn(p, st, b)
    ensures (exists c :: HaltsIn(p, st, c) && InMemory(env, u, c.mem)) ==> u == t
  {
    hide WellLaid;
    if c :| HaltsIn(p, st, c) && InMemory(env, u, c.mem) {
      HaltIsFinal(p, st, b);
      SameStore(env, t, u, b.mem);
    }
  }

  lemma {:induction false} FinishHalts(p: seq<Module>, env: Env, s: Store, st: State, stmt: Stmt, f: Flow, t: Store)
    requires Loaded(p, env, s, st, stmt, f)
    ensures Finishes(stmt, s, t) ==> exists b :: HaltsIn(p, st, b) && InMemory(env, t, b.mem)
  {
    hide Exec, Decode, Wrap, Perform, Sketch, Assemble, WellLaid, Ready, Leads;
    if Finishes(stmt, s, t) {
      var fuel: nat :| Perform(stmt, s, fuel) == Done(t);
      OutcomeRuns(p, env, s, st, stmt, f, fuel);
    }
  }

  lemma {:induction false} DivergeMeaning(p: seq<Module>, env: Env, s: Store, st: State, stmt: Stmt, f: Flow)
    requires Loaded(p, env, s, st, stmt, f) && Diverges(stmt, s)
    ensures RunsForEver(p, st) && !Faults(Machine(p), Halted, st) && !Traps(stmt, s)
    ensures forall b :: !HaltsIn(p, st, b)
    ensures forall t :: !Finishes(stmt, s, t)
  {
    hide Exec, Decode, Perform, Sketch, WellLaid, Ready, Represents, CodeAt;
    OneOfThree(p, env, s, st, stmt, f);
    if Faults(Machine(p), Halted, st) {
      FaultIsFinal(p, st);
    }
    if b :| HaltsIn(p, st, b) {
      HaltIsFinal(p, st, b);
    }
  }

  /** A memory holds at most one typed store. */
  lemma {:induction false} SameStore(env: Env, t: Store, u: Store, mem: memory)
    requires WellLaid(env) && InMemory(env, t, mem) && InMemory(env, u, mem)
    ensures t == u
  {
    forall v | v in env.vars
      ensures t[v] == u[v]
    {
      SameWord(t[v], u[v]);
    }
    assert t.Keys == u.Keys;
  }

  lemma {:induction false} SameWord(x: Value, y: Value)
    requires TypOf(x) == TypOf(y) && Encode(x) == Encode(y)
    ensures x == y
  {
  }

  /** What the theorem asks of a program: it is well typed and within the machine's limits, no
      EXIT leaves a FOR or CASE, and its code lies at the program counter of a state that
      represents the initial store. */
  ghost predicate Launched(p: seq<Module>, env: Env, s: Store, st: State, stmt: Stmt, code: seq<byte>) {
    && BodyCode(stmt, env.lev) == Some(code) && WellTyped(stmt, env.vars) && Fits(stmt, env) && ExitsStayInside(stmt, false)
    && WellLaid(env) && AtBoundary(env, s, st, StackWords(stmt)) && Ready(p, st, code) && Outermost(p, env, st)
  }

  /** The compiled program halts with store t in memory if and only if the source program
      finishes with store t; it faults if and only if the source program traps; it runs for
      ever if and only if the source program does. */
  lemma {:induction false} ProgramMeaning(p: seq<Module>, env: Env, s: Store, st: State, stmt: Stmt, code: seq<byte>)
    requires Launched(p, env, s, st, stmt, code)
    ensures forall t :: Finishes(stmt, s, t) <==> exists b :: HaltsIn(p, st, b) && InMemory(env, t, b.mem)
    ensures Traps(stmt, s) <==> Faults(Machine(p), Halted, st)
    ensures Diverges(stmt, s) <==> RunsForEver(p, st)
  {
    hide AtBoundary, Ready, Perform, RunsFor, Halted, Assemble, Fits, WellTyped, ExitsStayInside, Outermost;
    LoadedMeaning(p, env, s, st, stmt, Sketch(stmt, env.lev).value);
  }
}
