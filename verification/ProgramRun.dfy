/** The emulator at work on a loaded program: its start, and the run to its halt. */
module ProgramRun {
  import opened Words
  import opened Options
  import opened MCode
  import opened Machines
  import opened Runs
  import opened Programs
  import opened StartupRuns
  import opened ModuleFiles
  import opened ModuleBodies
  import opened Emulator
  import S = Startup
  import Closure

  /** `le_execute` before its loop: a frame at the first word above all data frames that returns to
      address 0 of the system module, and the registers for procedure 0 of module m. */
  method Begin(cpu: Processor, m: nat, top: word)
    requires cpu.Valid() && !cpu.stuck && m < |cpu.prog| && |cpu.prog[m].proc| > 0 && top + 4 < MEM_SIZE
    modifies cpu`pc, cpu`g, cpu`l, cpu`s, cpu`cs, cpu`modn, cpu`stuck, cpu.mem
    ensures cpu.Valid() && cpu.Now() == Some(Started(cpu.prog, old(cpu.mem[..]), top, m).(es := old(cpu.exs[..cpu.sp])))
  {
    cpu.pc, cpu.l, cpu.cs := 0, 0, 0;
    cpu.s := top;
    cpu.StkMark(ToExternal, 0);
    cpu.modn := m;
    cpu.g := cpu.prog[m].dataOfs;
    cpu.pc := cpu.prog[m].proc[0];
  }

  lemma {:induction false} StartFields(p: seq<Module>, mem: memory, base: nat, m: nat)
    requires m < |p| && |p[m].proc| > 0 && base + 4 < MEM_SIZE
    ensures var st := Started(p, mem, base, m); st.es == [] && st.(es := []) == st && st.pc == p[m].proc[0]
  {
  }

  /** The registers that the loader starts a program with are those of its first state. */
  lemma {:induction false} StartsAlike(p: seq<Module>, mem: memory, base: word, m: nat, e: Closure.Entry)
    requires m < |p| && |p[m].proc| > 0 && base + 4 < MEM_SIZE && e.dataOfs == p[m].dataOfs
    ensures var st := Started(p, mem, base, m);
            Closure.AtStart(e, p[m].proc[0], base, |st.es|) == Closure.Registers(st.g, st.s, st.l, st.cs, st.pc, 0)
  {
    WrapNothing(base + 4);
    hide Wrap;
  }

  lemma {:induction false} WrapNothing(x: int)
    requires 0 <= x < 0x1_0000
    ensures Wrap(x) == x
  {
  }

  lemma {:induction false} EntryAt(p: seq<Module>, es: seq<Entry>, inits: seq<S.Init>, base: nat, top: nat, m: nat)
    requires AllLinked(p, es, inits, base, top) && 0 < m < |p|
    ensures |p[m].proc| > 0 && p[m].proc[0] != 0
  {
    hide Linked, Compiles;
    var at := ModuleReady(p[m], es[m], inits[m], base, top);
  }

  /** How many steps a run takes. */
  ghost function Steps(p: seq<Module>, a: State, b: State): (n: nat)
    requires Leads(p)(a, Some(b))
    ensures Run(Machine(p), n, a) == Some(b)
  {
    assert LeadsTo(p, a, Some(b));
    var n: nat :| Run(Machine(p), n, a) == Some(b);
    n
  }

  /** A run of a machine that halts, broken off after n steps. */
  lemma {:induction false} ToTheEnd(p: seq<Module>, a: State, b: State, k: nat, n: nat)
    requires Run(Machine(p), k, a) == Some(b) && Halted(b)
    ensures !Faults(Machine(p), Halted, a)
    ensures var o := Run(Machine(p), n, a);
            o.Some? ==> n <= k && (o.value.pc == 0 ==> o.value == b) && (n == k ==> o.value == b)
  {
    assert HaltsIn(p, a, b) by {
      assert Reaches(Machine(p), a, b);
    }
    HaltIsFinal(p, a, b);
    var o := Run(Machine(p), n, a);
    if o.Some? && o.value.pc == 0 {
      assert Reaches(Machine(p), a, o.value);
      assert HaltsIn(p, a, o.value);
    }
    if n > k {
      RunAdd(Machine(p), k, n - k, a);
      assert Step(p, b) == None;
    }
  }

  /** A program whose modules were all compiled, written to files, loaded and relocated, run from any of
      them: the machine never gets stuck, and when it has come to its halt the data of all modules is
      what their sources end with on the walk over the imports. It does come to it: with some limit, and
      with every larger one. */
  method RunProgram(cpu: Processor, m: nat, limit: nat, ghost es: seq<Entry>, ghost inits: seq<S.Init>, base: word, ghost top: nat)
    returns (n: nat, ghost enough: nat)
    requires cpu.Valid() && !cpu.stuck && cpu.sp == 0 && forall k :: 0 <= k < |cpu.prog| ==> |cpu.prog[k].code| < 0x1_0000
    requires AllLinked(cpu.prog, es, inits, base, top) && |cpu.prog| <= 0x100 && base as int <= top <= 0xFE00 && S.Apart(inits, base)
    requires 0 < m < |cpu.prog| && S.Fresh(inits, cpu.mem[..base]) && base + 4 + 4 * |inits| <= top
    requires Separate(inits, Sources(es)) && AllHold(Sources(es), cpu.mem[..base])
    requires Finishing(inits, Sources(es), S.Visit(inits, S.Walk(cpu.mem[..base], [], []), m).starts)
    modifies cpu`sp, cpu`stuck, cpu`s, cpu`l, cpu`cs, cpu`modn, cpu`g, cpu`pc, cpu.mem, cpu.exs
    ensures cpu.Valid() && !cpu.stuck && n <= limit && (limit >= enough ==> cpu.pc == 0)
    ensures cpu.pc == 0 ==> cpu.mem[..base] == S.Visit(inits, S.Walk(old(cpu.mem[..base]), [], []), m).data
  {
    hide Leads, Separate, AllHold, Finishing, AllLinked, S.Visit, S.Apart, S.Fresh, Started, Step, Run, Sources;
    ghost var mem := cpu.mem[..];
    assert mem[..base] == cpu.mem[..base];
    ghost var end := FilesRun(cpu.prog, es, inits, base, top, mem, m);
    EntryAt(cpu.prog, es, inits, base, top, m);
    Begin(cpu, m, base);
    ghost var st := Started(cpu.prog, mem, base, m);
    StartFields(cpu.prog, mem, base, m);
    assert cpu.Abs() == st;
    enough := Steps(cpu.prog, st, end);
    n := cpu.Execute(limit);
    ToTheEnd(cpu.prog, st, end, enough, n);
    assert cpu.pc == 0 ==> cpu.Abs() == end && cpu.mem[..] == end.mem;
  }
}
