/** Compiled statements between the calls of a run: they are the moves that leave registers and frame
    words alone. */
module BodyMoves {
  import opened Words
  import opened Options
  import opened MCode
  import opened Machines
  import opened Lang
  import opened StmtLang
  import opened ExprProof
  import opened Blocks
  import opened StmtGen
  import opened StmtProof
  import opened StmtParts
  import opened StmtRun
  import opened Calls
  import ModuleBodies

  /** What lies above the frame words of the i-th activation: the next one, or what S leads to. */
  function Ceiling(stack: seq<Activation>, st: State, i: nat): word
    requires i < |stack|
  {
    if i + 1 < |stack| then stack[i + 1].base else st.s
  }

  /** Every variable lies below all activations, in the data of a module, or in one activation behind
      the words that the call has written. */
  ghost predicate Placed(env: Env, stack: seq<Activation>, st: State)
    requires WellLaid(env)
  {
    forall v :: v in env.vars ==>
      || (forall i :: 0 <= i < |stack| ==> Address(env, v) < stack[i].base)
      || exists i :: 0 <= i < |stack| && stack[i].base + 3 <= Address(env, v) < Ceiling(stack, st, i)
  }

  /** Activations lie one above the other. */
  lemma {:induction false} Above(p: seq<Module>, procs: seq<Proc>, st: State, stack: seq<Activation>, i: nat, j: nat)
    requires Live(p, procs, st, stack) && i < j < |stack|
    ensures stack[i].base + 4 <= stack[j].base
    decreases j
  {
    assert FrameHolds(p, procs, st.mem, stack, j);
    if i < j - 1 {
      Above(p, procs, st, stack, i, j - 1);
    }
  }

  lemma {:induction false} NotAFrameWord(p: seq<Module>, procs: seq<Proc>, st: State, stack: seq<Activation>, env: Env, k: int)
    requires Live(p, procs, st, stack) && WellLaid(env) && Placed(env, stack, st) && FrameWord(stack, k)
    ensures !VarCell(env, k) && k < st.s
  {
    hide Live;
    var j :| 0 <= j < |stack| && stack[j].base as int <= k <= stack[j].base as int + 2;
    BelowTop(p, procs, st, stack, j);
    if VarCell(env, k) {
      var v :| v in env.vars && Address(env, v) == k;
      var i :| 0 <= i < |stack| && stack[i].base + 3 <= Address(env, v) < Ceiling(stack, st, i);
      if i < j {
        Above(p, procs, st, stack, i, j);
        if i + 1 < j {
          Above(p, procs, st, stack, i + 1, j);
        }
      } else if j < i {
        Above(p, procs, st, stack, j, i);
      }
    }
  }

  /** Statements that have run have left the registers and every live frame alone. */
  lemma {:induction false} MovesAreWork(p: seq<Module>, procs: seq<Proc>, st: State, stack: seq<Activation>, env: Env, t: Store, b: State)
    requires Live(p, procs, st, stack) && WellLaid(env) && Placed(env, stack, st) && MovedTo(env, st, t, b)
    ensures Undisturbed(st, b, stack)
  {
    LiveTop(p, procs, st, stack);
    hide Live, Represents, WellLaid, VarCell, Placed, FrameWord;
    forall k: int | 0 <= k < MEM_SIZE && FrameWord(stack, k)
      ensures b.mem[k] == st.mem[k]
    {
      NotAFrameWord(p, procs, st, stack, env, k);
    }
  }

  lemma {:induction false} LiveTop(p: seq<Module>, procs: seq<Proc>, st: State, stack: seq<Activation>)
    requires Live(p, procs, st, stack)
    ensures stack != [] && stack[|stack| - 1].base as int + 4 <= st.s as int && st.modn < |p|
  {
  }

  /** The code of a compiled statement that finishes is a legal move of a run of calls: it comes to its
      end with the source's final store in the variables, and every live activation is as it was. */
  lemma {:induction false} StatementsMove(p: seq<Module>, procs: seq<Proc>, st: State, stack: seq<Activation>, env: Env, s: Store, body: Stmt, f: Flow,
                                          t: Store, fuel: nat) returns (b: State)
    requires Live(p, procs, st, stack) && AtBoundary(env, s, st, StackWords(body)) && Placed(env, stack, st)
    requires StmtCompiled(env, body, false, f) && Ready(p, st, Assemble(f, 0)) && Perform(body, s, fuel) == Done(t)
    ensures Leads(p)(st, Some(b)) && b.pc == st.pc + Size(f) && Represents(env, t, b)
    ensures Legal(p, procs, st, stack, Work(b)) && Live(p, procs, b, stack)
  {
    hide Exec, Wrap, Perform, Sketch, Apply, FrameHolds, WellLaid, Represents, ExecUnary, Ready;
    LiveTop(p, procs, st, stack);
    TopProc(p, procs, st, stack);
    hide Ready, AtBoundary, Assemble, Perform, StmtCompiled, Leads, Live, Undisturbed, Placed, Represents, Size;
    StmtRuns(p, env, s, st, StackWords(body), body, false, f, fuel, 0);
    b := DoneState(p, env, st, t, fuel, st.pc + Size(f), st.pc);
    assert MovedTo(env, st, t, b);
    MovesAreWork(p, procs, st, stack, env, t, b);
    WorkKeeps(p, procs, st, stack, b);
  }

  lemma {:induction false} TopProc(p: seq<Module>, procs: seq<Proc>, st: State, stack: seq<Activation>)
    requires Live(p, procs, st, stack)
    ensures Declared(procs) && stack != [] && stack[|stack| - 1].proc < |procs|
  {
    assert FrameHolds(p, procs, st.mem, stack, |stack| - 1);
  }
}
