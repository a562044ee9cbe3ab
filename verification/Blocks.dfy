/** Vocabulary for running statement code: states at statement boundaries, what a statement
    may change, and what it means for a run to simulate an outcome of the source program. */
module Blocks {
  import opened Words
  import opened Options
  import opened MCode
  import opened Machines
  import opened Runs
  import opened Lang
  import opened StmtLang
  import opened ExprProof

  ghost predicate VarCell(env: Env, k: int)
    requires WellLaid(env)
  {
    exists v :: v in env.vars && Address(env, v) == k
  }

  /** Variables and frame links lie below the stack pointer, and n words are free above it. */
  ghost predicate Room(env: Env, st: State, n: nat)
    requires WellLaid(env)
  {
    && (forall v :: v in env.vars ==> Address(env, v) < st.s)
    && (forall k :: 2 <= k <= env.lev ==> env.bases[k] + 1 < st.s as int)
    && st.s + n < MEM_SIZE
  }

  /** A state between two statements. */
  ghost predicate AtBoundary(env: Env, s: Store, st: State, n: nat) {
    WellLaid(env) && Represents(env, s, st) && st.es == [] && Room(env, st, n)
  }

  /** From a to b only the program counter, variables, and memory above the stack pointer
      changed, and b represents the store s. */
  ghost predicate MovedTo(env: Env, a: State, s: Store, b: State) {
    && WellLaid(env) && Represents(env, s, b)
    && b == a.(pc := b.pc, mem := b.mem)
    && forall k :: 0 <= k < a.s && !VarCell(env, k) ==> b.mem[k] == a.mem[k]
  }

  /** The run from a does what the outcome says: it arrives at the end or at the exit with the
      outcome's store, or faults, or goes on for at least `fuel` steps. */
  ghost predicate SimulatesAll(p: seq<Module>, env: Env, a: State, o: Outcome, fuel: nat, end: int, exit: int) {
    match o
    case Done(s) => exists b :: Leads(p)(a, Some(b)) && Moved()(env, a, s, b) && b.pc == end
    case Exited(s) => exists b :: Leads(p)(a, Some(b)) && Moved()(env, a, s, b) && b.pc == exit
    case Trapped => Leads(p)(a, None)
    case Running => RunsFor(Machine(p), a, fuel)
  }

  // these predicates, exposed to the solver one instance at a time

  ghost function Boundary(): (f: (Env, Store, State, nat) -> bool)
    ensures forall env, s, st, n: nat {:trigger AtBoundary(env, s, st, n)} :: f(env, s, st, n) == AtBoundary(env, s, st, n)
  {
    assert BoundaryGraph((env, s, st, n: nat) => AtBoundary(env, s, st, n));
    var f: (Env, Store, State, nat) -> bool :| BoundaryGraph(f);
    f
  }

  ghost predicate BoundaryGraph(f: (Env, Store, State, nat) -> bool) {
    forall env, s, st, n: nat {:trigger AtBoundary(env, s, st, n)} :: f(env, s, st, n) == AtBoundary(env, s, st, n)
  }

  ghost function Moved(): (f: (Env, State, Store, State) -> bool)
    ensures forall env, a, s, b {:trigger MovedTo(env, a, s, b)} :: f(env, a, s, b) == MovedTo(env, a, s, b)
  {
    assert MovedGraph((env, a, s, b) => MovedTo(env, a, s, b));
    var f: (Env, State, Store, State) -> bool :| MovedGraph(f);
    f
  }

  ghost predicate MovedGraph(f: (Env, State, Store, State) -> bool) {
    forall env, a, s, b {:trigger MovedTo(env, a, s, b)} :: f(env, a, s, b) == MovedTo(env, a, s, b)
  }

  ghost function Simulates(p: seq<Module>): (f: (Env, State, Outcome, nat, int, int) -> bool)
    ensures forall env, a, o, fuel: nat, end, exit {:trigger SimulatesAll(p, env, a, o, fuel, end, exit)} ::
              f(env, a, o, fuel, end, exit) == SimulatesAll(p, env, a, o, fuel, end, exit)
  {
    assert SimulatesGraph((env, a, o, fuel: nat, end, exit) => SimulatesAll(p, env, a, o, fuel, end, exit), p);
    var f: (Env, State, Outcome, nat, int, int) -> bool :| SimulatesGraph(f, p);
    f
  }

  ghost predicate SimulatesGraph(f: (Env, State, Outcome, nat, int, int) -> bool, p: seq<Module>) {
    forall env, a, o, fuel: nat, end, exit {:trigger SimulatesAll(p, env, a, o, fuel, end, exit)} ::
      f(env, a, o, fuel, end, exit) == SimulatesAll(p, env, a, o, fuel, end, exit)
  }

  // ------------------------------------------------------------ moving about

  lemma {:induction false} StaysPut(env: Env, s: Store, a: State, n: nat, pc: word)
    requires Boundary()(env, s, a, n)
    ensures Moved()(env, a, s, a.(pc := pc))
  {
    assert AtBoundary(env, s, a, n);
    assert MovedTo(env, a, s, a.(pc := pc));
  }

  lemma {:induction false} MovedOn(env: Env, a: State, s: Store, b: State, t: Store, c: State)
    requires Moved()(env, a, s, b) && Moved()(env, b, t, c)
    ensures Moved()(env, a, t, c)
  {
    assert MovedTo(env, a, s, b) && MovedTo(env, b, t, c);
    assert MovedTo(env, a, t, c);
  }

  lemma {:induction false} NewBoundary(env: Env, s: Store, a: State, t: Store, b: State, n: nat, m: nat)
    requires Boundary()(env, s, a, n) && Moved()(env, a, t, b) && m <= n
    ensures Boundary()(env, t, b, m)
  {
    assert AtBoundary(env, s, a, n) && MovedTo(env, a, t, b);
    assert AtBoundary(env, t, b, m);
  }

  lemma {:induction false} MovedFacts(env: Env, a: State, s: Store, b: State)
    requires Moved()(env, a, s, b)
    ensures b == a.(pc := b.pc, mem := b.mem)
  {
    assert MovedTo(env, a, s, b);
  }

  lemma {:induction false} BoundaryFacts(env: Env, s: Store, a: State, n: nat)
    requires Boundary()(env, s, a, n)
    ensures Goods()(Frame(env, s, a)) && a.es == [] && Typed(s) && s.Keys == env.vars && a.s + n < MEM_SIZE
  {
    assert AtBoundary(env, s, a, n);
    assert Good(Frame(env, s, a));
  }

  /** A run that gets from a to b and then simulates an outcome simulates it from a. */
  lemma {:induction false} Resume(p: seq<Module>, env: Env, a: State, s: Store, b: State, o: Outcome, fuel: nat, end: int, exit: int)
    requires Leads(p)(a, Some(b)) && Moved()(env, a, s, b)
    requires Simulates(p)(env, b, o, fuel, end, exit)
    ensures Simulates(p)(env, a, o, fuel, end, exit)
  {
    assert SimulatesAll(p, env, b, o, fuel, end, exit);
    match o {
      case Done(t) =>
        var c :| Leads(p)(b, Some(c)) && Moved()(env, b, t, c) && c.pc == end;
        LeadsOn(p, a, b, Some(c));
        MovedOn(env, a, s, b, t, c);
      case Exited(t) =>
        var c :| Leads(p)(b, Some(c)) && Moved()(env, b, t, c) && c.pc == exit;
        LeadsOn(p, a, b, Some(c));
        MovedOn(env, a, s, b, t, c);
      case Trapped =>
        LeadsOn(p, a, b, None);
      case Running =>
        assert LeadsTo(p, a, Some(b));
        ChainedRun(Machine(p), a, b, fuel);
    }
    assert SimulatesAll(p, env, a, o, fuel, end, exit);
  }

  /** One step back to the start of a loop uses up one unit of fuel. */
  lemma {:induction false} ResumeByStep(p: seq<Module>, env: Env, a: State, m: State, s: Store, b: State, o: Outcome, fuel: nat, end: int, exit: int)
    requires Leads(p)(a, Some(m)) && Machine(p)(m) == Some(b) && Moved()(env, a, s, b)
    requires Simulates(p)(env, b, o, fuel, end, exit)
    ensures Simulates(p)(env, a, o, fuel + 1, end, exit)
  {
    OneStep(Machine(p), m, b);
    assert LeadsTo(p, m, Some(b));
    assert LeadsTo(p, a, Some(m));
    LeadsOn(p, a, m, Some(b));
    if o == Running {
      assert SimulatesAll(p, env, b, o, fuel, end, exit);
      StepThenRun(Machine(p), m, b, fuel);
      ChainedRun(Machine(p), a, m, fuel + 1);
      assert SimulatesAll(p, env, a, o, fuel + 1, end, exit);
    } else {
      Resume(p, env, a, s, b, o, fuel, end, exit);
      assert SimulatesAll(p, env, a, o, fuel, end, exit);
      assert SimulatesAll(p, env, a, o, fuel + 1, end, exit);
    }
  }

  lemma {:induction false} ArriveDone(p: seq<Module>, env: Env, a: State, s: Store, b: State, fuel: nat, end: int, exit: int)
    requires Leads(p)(a, Some(b)) && Moved()(env, a, s, b) && b.pc == end
    ensures Simulates(p)(env, a, Done(s), fuel, end, exit)
  {
    assert SimulatesAll(p, env, a, Done(s), fuel, end, exit);
  }

  lemma {:induction false} ArriveExited(p: seq<Module>, env: Env, a: State, s: Store, b: State, fuel: nat, end: int, exit: int)
    requires Leads(p)(a, Some(b)) && Moved()(env, a, s, b) && b.pc == exit
    ensures Simulates(p)(env, a, Exited(s), fuel, end, exit)
  {
    assert SimulatesAll(p, env, a, Exited(s), fuel, end, exit);
  }

  lemma {:induction false} ArriveTrapped(p: seq<Module>, env: Env, a: State, fuel: nat, end: int, exit: int)
    requires Leads(p)(a, None)
    ensures Simulates(p)(env, a, Trapped, fuel, end, exit)
  {
    assert SimulatesAll(p, env, a, Trapped, fuel, end, exit);
  }

  /** With no fuel there is nothing to show for an unfinished run. */
  lemma {:induction false} OutOfFuel(p: seq<Module>, env: Env, a: State, end: int, exit: int)
    ensures Simulates(p)(env, a, Running, 0, end, exit)
  {
    assert SimulatesAll(p, env, a, Running, 0, end, exit);
  }

  lemma {:induction false} DoneState(p: seq<Module>, env: Env, a: State, s: Store, fuel: nat, end: int, exit: int) returns (b: State)
    requires Simulates(p)(env, a, Done(s), fuel, end, exit)
    ensures Leads(p)(a, Some(b)) && Moved()(env, a, s, b) && b.pc == end
    ensures b == a.(pc := b.pc, mem := b.mem)
  {
    assert SimulatesAll(p, env, a, Done(s), fuel, end, exit);
    b :| Leads(p)(a, Some(b)) && Moved()(env, a, s, b) && b.pc == end;
    MovedFacts(env, a, s, b);
  }

  lemma {:induction false} ExitedState(p: seq<Module>, env: Env, a: State, s: Store, fuel: nat, end: int, exit: int) returns (b: State)
    requires Simulates(p)(env, a, Exited(s), fuel, end, exit)
    ensures Leads(p)(a, Some(b)) && Moved()(env, a, s, b) && b.pc == exit
    ensures b == a.(pc := b.pc, mem := b.mem)
  {
    assert SimulatesAll(p, env, a, Exited(s), fuel, end, exit);
    b :| Leads(p)(a, Some(b)) && Moved()(env, a, s, b) && b.pc == exit;
    MovedFacts(env, a, s, b);
  }

  /** Outcomes other than Done do not care where the code ends. */
  lemma {:induction false} OtherEnd(p: seq<Module>, env: Env, a: State, o: Outcome, fuel: nat, end: int, exit: int, end': int)
    requires Simulates(p)(env, a, o, fuel, end, exit) && !o.Done?
    ensures Simulates(p)(env, a, o, fuel, end', exit)
  {
    assert SimulatesAll(p, env, a, o, fuel, end, exit);
    assert SimulatesAll(p, env, a, o, fuel, end', exit);
  }

  lemma {:induction false} OtherExit(p: seq<Module>, env: Env, a: State, o: Outcome, fuel: nat, end: int, exit: int, exit': int)
    requires Simulates(p)(env, a, o, fuel, end, exit) && !o.Exited?
    ensures Simulates(p)(env, a, o, fuel, end, exit')
  {
    assert SimulatesAll(p, env, a, o, fuel, end, exit);
    assert SimulatesAll(p, env, a, o, fuel, end, exit');
  }
}
