/** Operands that wait on the expression stack while a function runs, for results of one word and of
    two: what the generator emits around a call, executed. */
module Waiting {
  import opened Words
  import opened Options
  import opened MCode
  import opened Machines
  import opened ExprProof
  import opened CallGen
  import opened Emulator
  import Runs

  /** Site b is site a with code c behind it. */
  predicate Emits(a: Site, b: Site, c: seq<byte>) {
    a.Site? && b.Site? && b.out == a.out + c
  }

  /** The called function is back: its result alone on the expression stack, the memory stack as it was,
      and memory below it unchanged. */
  predicate CameBack(p: seq<Module>, mid: State, back: State, c: seq<byte>, size: nat) {
    && Ready(p, back, c) && |back.es| == size && back.s == mid.s
    && forall i :: 0 <= i < mid.s ==> back.mem[i] == mid.mem[i]
  }

  /** The operands of st, and on top of them what is on the stack of back. */
  function OnTopOf(st: State, back: State, k: nat): State
    requires back.pc + k < 0x1_0000
  {
    back.(pc := back.pc + k, es := st.es + back.es, s := st.s)
  }

  lemma {:induction false} SameEnd(a: seq<byte>, c: seq<byte>, d: seq<byte>)
    requires a + c == a + d
    ensures c == d
  {
    assert (a + c)[|a|..] == c && (a + d)[|a|..] == d;
  }

  /** What is emitted before a call when n operands are waiting, and behind it. */
  lemma {:induction false} Around(a: Site, c1: seq<byte>, b: Site, c2: seq<byte>, size: nat)
    requires a.Site? && a.sp >= 0 && Emits(a, Prepared(a), c1) && Emits(b, Adjusted(b, a.sp, size), c2) && 1 <= size <= 2
    ensures Prepared(a).sp == 0 && Adjusted(b, a.sp, size).sp == a.sp + size
    ensures a.sp > 0 ==> c1 == [0xB2] && c2 == if size == 2 then [0xB1] else [0xB0]
    ensures a.sp == 0 ==> c1 == [] && c2 == []
  {
    if a.sp > 0 {
      SameEnd(a.out, c1, [0xB2]);
      SameEnd(b.out, c2, if size == 2 then [0xB1] else [0xB0]);
    } else {
      assert a.out + [] == a.out && b.out + [] == b.out;
      SameEnd(a.out, c1, []);
      SameEnd(b.out, c2, []);
    }
  }

  lemma {:induction false} StoreRuns(p: seq<Module>, st: State) returns (mid: State)
    requires Ready(p, st, [0xB2]) && |st.es| <= EXS_SIZE && st.s + |st.es| + 1 < MEM_SIZE
    ensures Leads(p)(st, Some(mid)) && Save(st.(pc := mid.pc)) == Some(mid)
    ensures mid == st.(pc := st.pc + 1, es := [], s := st.s + |st.es| + 1, mem := mid.mem)
    ensures forall i :: 0 <= i < st.s ==> mid.mem[i] == st.mem[i]
  {
    Op1(p, st, 0xB2, SaveStack);
    SavedAbove(st.(pc := st.pc + 1));
    hide Leads, Decode, Ready, Save;
    mid := Save(st.(pc := st.pc + 1)).value;
    assert Exec(p, st.(pc := st.pc + 1), SaveStack) == Some(mid);
    LeadsByExec(p, st, Decoded(SaveStack, st.pc + 1), mid);
  }

  lemma {:induction false} SavedAbove(st: State)
    requires |st.es| <= EXS_SIZE && st.s + |st.es| + 1 < MEM_SIZE
    ensures Save(st).Some?
    ensures var mid := Save(st).value; mid == st.(es := [], s := st.s + |st.es| + 1, mem := mid.mem) && forall i :: 0 <= i < st.s ==> mid.mem[i] == st.mem[i]
  {
  }

  lemma {:induction false} ReloadRuns(p: seq<Module>, st: State, mid: State, back: State, size: nat)
    requires 1 <= size <= 2 && |st.es| + size <= EXS_SIZE && Save(st.(pc := mid.pc)) == Some(mid) && 0 < mid.s && st.s <= mid.s
    requires CameBack(p, mid, back, if size == 2 then [0xB1] else [0xB0], size)
    ensures back.pc + 1 < 0x1_0000 && Leads(p)(back, Some(OnTopOf(st, back, 1)))
  {
    hide Leads, Decode, Ready, Save, Exec, Wrap, CodeAt;
    var i := if size == 2 then ReloadPair else ReloadWord;
    BackDecodes(p, mid, back, size);
    var next, was := back.(pc := back.pc + 1), st.(pc := mid.pc);
    if size == 2 {
      assert back.es == [back.es[0], back.es[1]];
      PendingPair(p, was, next, back.es[0], back.es[1]);
    } else {
      assert back.es == [back.es[0]];
      PendingOperands(p, was, next, back.es[0]);
    }
    LeadsByExec(p, back, Decoded(i, back.pc + 1), OnTopOf(st, back, 1));
  }

  lemma {:induction false} BackDecodes(p: seq<Module>, mid: State, back: State, size: nat)
    requires 1 <= size <= 2 && CameBack(p, mid, back, if size == 2 then [0xB1] else [0xB0], size)
    ensures back.modn < |p| && 0 < back.pc && back.pc + 1 < 0x1_0000
    ensures Decode(p[back.modn].code, back.pc) == Some(Decoded(if size == 2 then ReloadPair else ReloadWord, back.pc + 1))
  {
    hide Decode, Exec;
    if size == 2 {
      Op1(p, back, 0xB1, ReloadPair);
    } else {
      Op1(p, back, 0xB0, ReloadWord);
    }
  }

  /** A call with operands waiting: the code before it clears the expression stack, the code behind it
      puts the result of one word or two on top of the operands, both in their order, and the words
      counted by the generator are those on the stack. */
  lemma {:induction false} OperandsWait(p: seq<Module>, st: State, a: Site, c1: seq<byte>, b: Site, c2: seq<byte>, size: nat) returns (mid: State)
    requires Emits(a, Prepared(a), c1) && Emits(b, Adjusted(b, a.sp, size), c2) && 1 <= size <= 2
    requires |st.es| == a.sp && |st.es| + size <= EXS_SIZE && Ready(p, st, c1) && st.s + |st.es| + 1 < MEM_SIZE
    ensures Leads(p)(st, Some(mid)) && Prepared(a).sp == |mid.es| == 0
    ensures mid == st.(pc := st.pc + |c1|, es := [], s := mid.s, mem := mid.mem) && st.s <= mid.s
    ensures forall i :: 0 <= i < st.s ==> mid.mem[i] == st.mem[i]
    ensures Adjusted(b, a.sp, size).sp == |st.es| + size
    ensures forall back {:trigger CameBack(p, mid, back, c2, size)} :: CameBack(p, mid, back, c2, size) ==>
              back.pc + |c2| < 0x1_0000 && Leads(p)(back, Some(OnTopOf(st, back, |c2|)))
  {
    Around(a, c1, b, c2, size);
    hide Leads, Save, Prepared, Adjusted;
    if a.sp > 0 {
      mid := StoreRuns(p, st);
      forall back | CameBack(p, mid, back, c2, size)
        ensures back.pc + |c2| < 0x1_0000 && Leads(p)(back, Some(OnTopOf(st, back, |c2|)))
      {
        ReloadRuns(p, st, mid, back, size);
      }
    } else {
      mid := st;
      Stays(p, st);
      forall back | CameBack(p, mid, back, c2, size)
        ensures back.pc + |c2| < 0x1_0000 && Leads(p)(back, Some(OnTopOf(st, back, |c2|)))
      {
        assert [] + back.es == back.es;
        Stays(p, back);
      }
    }
  }

  lemma {:induction false} Stays(p: seq<Module>, st: State)
    ensures Leads(p)(st, Some(st))
  {
    Runs.Stay(Machine(p), st);
    assert LeadsTo(p, st, Some(st));
  }
}
