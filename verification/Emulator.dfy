/** The emulator at work: registers, data memory and expression stack changed in place, one
    instruction at a time. What the emulator leaves to chance (running out of its arrays, a
    division by zero, an operation code it does not execute) sets `stuck`. */
module Emulator {
  import opened Words
  import opened Options
  import opened MCode
  import opened Machines
  import opened Runs

  /** SLD stores the upper word first. */
  lemma {:induction false} PairStored(p: seq<Module>, st: State, n: byte)
    requires st.modn < |p| && Holds(st, 2)
    ensures var one := Put(Pop(st, 2), Wrap(st.l + n) + 1, Top(st));
            Exec(p, st, StorePair(n)) == if one.Some? then Put(one.value, Wrap(st.l + n), Second(st)) else None
  {
    hide Put, Pop;
  }

  lemma {:induction false} PairMissing(p: seq<Module>, st: State, n: byte)
    requires st.modn < |p| && |st.es| < 2
    ensures Exec(p, st, StorePair(n)) == None
  {
  }

  /** The instructions that store one word, those that push or drop one, and TS and STOT. */
  lemma {:induction false} OneStored(p: seq<Module>, st: State, i: Instr)
    requires st.modn < |p| && Holds(st, 1)
    ensures i.StoreLocal? ==> Exec(p, st, i) == Put(Pop(st, 1), st.l + i.n, Top(st))
    ensures i.StoreGlobal? ==> Exec(p, st, i) == Put(Pop(st, 1), st.g + i.n, Top(st))
    ensures i.StoreExt? ==> Exec(p, st, i) == if i.m < |p| then Put(Pop(st, 1), p[i.m].dataOfs + i.n, Top(st)) else None
  {
    hide Put, Pop, Top;
  }

  lemma {:induction false} SmallStep(p: seq<Module>, st: State, i: Instr)
    requires st.modn < |p|
    ensures i.Push? ==> Exec(p, st, i) == PushWord(st, i.w)
    ensures i.LocalAdr? ==> Exec(p, st, i) == PushWord(st, st.l + i.n)
    ensures i.GlobalAdr? ==> Exec(p, st, i) == PushWord(st, st.g + i.n)
    ensures i.ExitCase? ==> Exec(p, st, i) == Some(st.(pc := st.mem[Wrap(st.s - 1)], s := Wrap(st.s - 1)))
    ensures i.DropStack? ==> Exec(p, st, i) == Some(st.(s := Wrap(st.s - 1)))
    ensures i.Nop? ==> Exec(p, st, i) == Some(st)
    ensures i.Trap? ==> Exec(p, st, i) == None
  {
    hide PushWord, Pop, ExecUnary, ExecFrame, ExecBinary, ExecJump, EnterFor, NextFor, DoEnterCase, Save, Restore, Fetch, Put;
  }

  lemma {:induction false} TopUsed(p: seq<Module>, st: State)
    requires st.modn < |p|
    ensures Exec(p, st, TestSet) == if Holds(st, 1) then PushWord(Pop(st, 1).(mem := st.mem[Top(st) := 1]), st.mem[Top(st)]) else None
    ensures Exec(p, st, ToStack) == if Holds(st, 1) then Some(Pop(st, 1).(mem := st.mem[st.s := Top(st)], s := Wrap(st.s + 1))) else None
  {
    hide PushWord, Pop, Top;
  }

  lemma {:induction false} PairReloaded(p: seq<Module>, st: State)
    requires st.modn < |p|
    ensures Exec(p, st, ReloadPair) == if !Holds(st, 2) then None
                                       else match Restore(Pop(st, 2)) case None => None case Some(r) => PushBoth(r, Second(st), Top(st))
  {
    hide Restore, PushBoth, Pop, Top, Second;
  }

  /** A word taken off and pushed again. */
  lemma {:induction false} PushedBack(st: State)
    requires Holds(st, 1) && |st.es| <= EXS_SIZE
    ensures PushWord(Pop(st, 1), Top(st)) == Some(st)
  {
    assert st.es[..|st.es| - 1] + [st.es[|st.es| - 1]] == st.es;
  }

  /** Saving the expression stack: its words from the top down, then how many there are. */
  lemma {:induction false} Saved(st: State)
    requires |st.es| <= EXS_SIZE && st.s + |st.es| < MEM_SIZE
    ensures var n := |st.es|;
            Save(st) == Some(st.(mem := WriteAll(st.mem, st.s, Reverse(st.es))[st.s + n := n], s := Wrap(st.s + n + 1), es := []))
  {
    hide Reverse, WriteAll;
    WriteMore(st.mem, st.s, Reverse(st.es), |st.es|);
  }

  lemma {:induction false} ThreePopped(st: State)
    requires Holds(st, 3)
    ensures Pop(Pop(Pop(st, 1), 1), 1) == Pop(st, 3)
    ensures Top(Pop(st, 1)) == Second(st) && Top(Pop(Pop(st, 1), 1)) == st.es[|st.es| - 3]
  {
  }

  lemma {:induction false} ForEntered(st: State, down: bool, to: word, hi: word, low: word, adr: word, rest: State)
    requires Holds(st, 3) && hi == Top(st) && low == Second(st) && adr == st.es[|st.es| - 3] && rest == Pop(st, 3)
    ensures if (!down && Signed(low) <= Signed(hi)) || (down && Signed(low) >= Signed(hi)) then
              if rest.s + 1 >= MEM_SIZE then EnterFor(st, down, to) == None
              else EnterFor(st, down, to) == Some(rest.(mem := rest.mem[adr := low][rest.s := adr][rest.s + 1 := hi],
                                                        s := Wrap(rest.s + 2)))
            else EnterFor(st, down, to) == Some(rest.(pc := to))
  {
  }

  /** Which part of the instruction set an instruction belongs to. */
  lemma {:induction false} Dispatched(p: seq<Module>, st: State, i: Instr)
    requires st.modn < |p|
    ensures i.Not? || i.Neg? || i.CheckSign? || i.CopyTop? || i.StackAdr? || i.LoadStack? || i.LoadStackFar? ==> Exec(p, st, i) == ExecUnary(st, i)
    ensures i.Base? || i.Enter? || i.Return? || i.CallExt? || i.CallLevel? || i.CallFormal? || i.CallLocal? ==>
              Exec(p, st, i) == ExecFrame(p, st, i)
  {
    hide ExecUnary, ExecFrame;
  }

  class Processor {
    const prog: seq<Module>
    const mem: array<word>       // dsh_mem
    const exs: array<word>       // exs_mem
    var sp: nat                  // gs_SP
    var modn: nat
    var pc: word
    var g: word
    var l: word
    var s: word
    var cs: word
    var stuck: bool

    ghost predicate Valid()
      reads this
    {
      mem.Length == MEM_SIZE && exs.Length == EXS_SIZE && mem != exs && sp <= EXS_SIZE && (!stuck ==> modn < |prog|)
    }

    /** The machine with a program loaded, in its first state. */
    constructor (p: seq<Module>, st: State)
      requires st.modn < |p| && |st.es| <= EXS_SIZE
      ensures Valid() && !stuck && prog == p && Abs() == st && fresh(mem) && fresh(exs)
    {
      prog := p;
      mem := new word[MEM_SIZE](i requires 0 <= i < MEM_SIZE => st.mem[i]);
      exs := new word[EXS_SIZE](i requires i >= 0 => if i < |st.es| then st.es[i] else 0);
      sp, modn, pc, g, l, s, cs, stuck := |st.es|, st.modn, st.pc, st.g, st.l, st.s, st.cs, false;
      new;
      assert mem[..] == st.mem && exs[..sp] == st.es;
    }

    ghost function Abs(): State
      requires Valid()
      reads this, mem, exs
    {
      State(modn, pc, g, l, s, cs, mem[..], exs[..sp])
    }

    /** The state, or nothing once the emulator is stuck. */
    ghost function Now(): Option<State>
      requires Valid()
      reads this, mem, exs
    {
      if stuck then None else Some(Abs())
    }

    // ------------------------------------------------------ the expression stack

    /** `es_push`. */
    method Push(w: int)
      requires Valid() && !stuck
      modifies this`sp, this`stuck, exs
      ensures Valid() && Now() == PushWord(old(Abs()), w)
    {
      if sp < EXS_SIZE {
        exs[sp] := Wrap(w);
        sp := sp + 1;
        assert exs[..sp] == old(exs[..sp]) + [Wrap(w)];
      } else {
        stuck := true;
      }
    }

    /** `es_pop`. */
    method PopWord() returns (w: word)
      requires Valid() && !stuck && sp > 0
      modifies this`sp
      ensures Valid() && sp == old(sp) - 1 && w == Top(old(Abs())) && Abs() == Pop(old(Abs()), 1)
    {
      sp := sp - 1;
      w := exs[sp];
    }

    /** All words moved to the memory stack, topmost first. */
    method PopAll()
      requires Valid() && !stuck && s + sp < MEM_SIZE
      modifies this`sp, this`s, mem
      ensures Valid() && sp == 0 && s == old(s + sp)
      ensures mem[..] == WriteAll(old(mem[..]), old(s), Reverse(old(exs[..sp])))
    {
      hide Reverse, WriteAll;
      ghost var n, at, was, es := sp, s, mem[..], exs[..sp];
      ghost var saved := Reverse(es);
      var c := 0;
      ReverseWords(es);
      WriteNone(was, at);
      assert saved[..0] == [];
      while sp > 0
        invariant Valid() && 0 <= c <= n && sp == n - c && s == at + c
        invariant mem[..] == WriteAll(was, at, saved[..c])
      {
        sp := sp - 1;
        WriteMore(was, at, saved[..c], exs[sp]);
        assert exs[sp] == es[sp] == saved[c];
        assert saved[..c] + [saved[c]] == saved[..c + 1];
        mem[s] := exs[sp];
        s := s + 1;
        c := c + 1;
      }
      assert saved[..c] == saved;
    }

    /** `es_save`: the words from the top down, then how many there are. */
    method EsSave()
      requires Valid() && !stuck
      modifies this`sp, this`s, this`stuck, mem
      ensures Valid() && Now() == Save(old(Abs()))
    {
      if s + sp >= MEM_SIZE {
        stuck := true;
        return;
      }
      Saved(Abs());
      hide Reverse, WriteAll, Save, Wrap;
      ghost var was, at, es := mem[..], s, exs[..sp];
      var c := sp;
      PopAll();
      mem[s] := c;
      s := Wrap(s + 1);
    }

    /** The c words on top of the memory stack pushed again, topmost first. */
    method PushBack(c0: nat)
      requires Valid() && !stuck && c0 <= s && sp + c0 <= EXS_SIZE
      modifies this`sp, this`s, exs
      ensures Valid() && s == old(s) - c0 && exs[..sp] == old(exs[..sp]) + Reverse(mem[s..s + c0])
    {
      hide Reverse;
      var c := c0;
      ghost var at, es := s, exs[..sp];
      while c > 0
        invariant Valid() && 0 <= c <= c0 && s == at - (c0 - c) && sp == |es| + (c0 - c)
        invariant exs[..|es|] == es
        invariant forall i :: |es| <= i < sp ==> exs[i] == mem[at - 1 - (i - |es|)]
      {
        c := c - 1;
        s := s - 1;
        exs[sp] := mem[s];
        sp := sp + 1;
      }
      Reversed(exs[..sp], es, mem[s..s + c0]);
    }

    /** `es_restore`. */
    method EsRestore()
      requires Valid() && !stuck
      modifies this`sp, this`s, this`stuck, exs
      ensures Valid() && Now() == Restore(old(Abs()))
    {
      if s == 0 {
        stuck := true;
        return;
      }
      s := s - 1;
      var c := mem[s];
      if c > s || sp + c > EXS_SIZE {
        stuck := true;
      } else {
        PushBack(c);
      }
    }

    // ----------------------------------------------------------------- frames

    /** `stk_mark`: the frame of a call. */
    method StkMark(ct: CallType, arg: word)
      requires Valid() && !stuck
      modifies this`s, this`l, this`cs, this`stuck, mem
      ensures Valid() && Now() == Mark(old(Abs()), ct, arg)
    {
      if s + 2 >= MEM_SIZE {
        stuck := true;
        return;
      }
      mem[s] := if ct == ToExternal || ct == ToFormal then arg else Wrap(cs + 0x100);
      mem[s + 1] := if ct == ToLevel then arg else l;
      mem[s + 2] := pc;
      cs := s;
      l := s;
      s := Wrap(s + 4);
    }

    /** GB: n links up the static chain, 256 for n = 0. */
    method BaseAdr(n: byte)
      requires Valid() && !stuck
      modifies this`sp, this`stuck, exs
      ensures Valid() && Now() == match Chain(mem[..], l, if n == 0 then 0x100 else n)
                                  case None => None
                                  case Some(b) => PushWord(old(Abs()), b)
    {
      var i: word, j: nat := l, if n == 0 then 0x100 else n;
      while j > 0
        invariant Valid() && !stuck && Chain(mem[..], i, j) == Chain(mem[..], l, if n == 0 then 0x100 else n)
      {
        if i + 1 >= MEM_SIZE {
          stuck := true;
          return;
        }
        i := mem[i + 1];
        j := j - 1;
      }
      Push(i);
    }

    method SetModule(m: nat)
      requires Valid() && !stuck && m < |prog|
      modifies this`modn, this`g
      ensures Valid() && Abs() == old(Abs()).(modn := m, g := prog[m].dataOfs)
    {
      modn := m;
      g := prog[m].dataOfs;
    }

    method CallOut(ct: CallType, m: nat, n: nat)
      requires Valid() && !stuck
      modifies this`s, this`l, this`cs, this`stuck, this`modn, this`g, this`pc, mem
      ensures Valid() && Now() == CallAway(prog, old(Abs()), ct, m, n)
    {
      StkMark(ct, Wrap(modn));
      if !stuck {
        if m < |prog| && n < |prog[m].proc| {
          SetModule(m);
          pc := prog[m].proc[n];
        } else {
          stuck := true;
        }
      }
    }

    method CallIn(ct: CallType, base: word, n: nat)
      requires Valid() && !stuck
      modifies this`s, this`l, this`cs, this`stuck, this`pc, mem
      ensures Valid() && Now() == CallHere(prog, old(Abs()), ct, base, n)
    {
      StkMark(ct, base);
      if !stuck {
        if n < |prog[modn].proc| {
          pc := prog[modn].proc[n];
        } else {
          stuck := true;
        }
      }
    }

    /** RTN. */
    method GoBack()
      requires Valid() && !stuck
      modifies this`s, this`l, this`cs, this`stuck, this`modn, this`g, this`pc
      ensures Valid() && Now() == ReturnFrom(prog, old(Abs()))
    {
      if cs + 2 >= MEM_SIZE {
        stuck := true;
        return;
      }
      s := cs;
      pc := mem[s + 2];
      var from := mem[s];
      if from >= 0x100 {
        cs := from - 0x100;
        l := cs;
      } else {
        l := mem[s + 1];
        cs := l;
        if from < |prog| {
          SetModule(from);
        } else {
          stuck := true;
        }
      }
    }

    // ------------------------------------------------------------- instructions

    /** A word of data memory pushed. */
    method Load(a: int)
      requires Valid() && !stuck
      modifies this`sp, this`stuck, exs
      ensures Valid() && Now() == Fetch(old(Abs()), a)
    {
      if 0 <= a < MEM_SIZE {
        Push(mem[a]);
      } else {
        stuck := true;
      }
    }

    method Store(a: int, w: word)
      requires Valid() && !stuck
      modifies this`stuck, mem
      ensures Valid() && Now() == Put(old(Abs()), a, w)
    {
      if 0 <= a < MEM_SIZE {
        mem[a] := w;
      } else {
        stuck := true;
      }
    }

    method Binary(op: BinaryOp)
      requires Valid() && !stuck
      modifies this`sp, this`stuck, exs
      ensures Valid() && Now() == ExecBinary(old(Abs()), op)
    {
      hide Apply;
      if sp < 2 {
        stuck := true;
        return;
      }
      ghost var before := Abs();
      var j := PopWord();
      var i := PopWord();
      assert Abs() == Pop(before, 2) && i == Second(before);
      match Apply(op, i, j) {
        case None => stuck := true;
        case Some(w) => Push(w);
      }
    }

    method Unary(i: Instr)
      requires Valid() && !stuck && (i.Not? || i.Neg? || i.CheckSign? || i.CopyTop? || i.StackAdr? || i.LoadStack? || i.LoadStackFar?)
      modifies this`sp, this`stuck, exs
      ensures Valid() && Now() == ExecUnary(old(Abs()), i)
    {
      if sp < 1 {
        stuck := true;
      } else if i.CheckSign? || i.CopyTop? {
        KeepTop(i);
      } else {
        ChangeTop(i);
      }
    }

    method KeepTop(i: Instr)
      requires Valid() && !stuck && sp >= 1 && (i.CheckSign? || i.CopyTop?)
      modifies this`sp, this`stuck, exs
      ensures Valid() && Now() == ExecUnary(old(Abs()), i)
    {
      PushedBack(Abs());
      hide PushWord, Pop, Top;
      var x := PopWord();
      Push(x);
      if i.CopyTop? {
        Push(x);
      } else if x >= 0x8000 {
        stuck := true;
      }
    }

    method ChangeTop(i: Instr)
      requires Valid() && !stuck && sp >= 1 && (i.Not? || i.Neg? || i.StackAdr? || i.LoadStack? || i.LoadStackFar?)
      modifies this`sp, this`stuck, exs
      ensures Valid() && Now() == ExecUnary(old(Abs()), i)
    {
      hide PushWord, Pop, Top, Fetch, Signed, Wrap;
      var x := PopWord();
      match i {
        case Not => Push(if x % 2 == 1 then 0 else 1);
        case Neg => Push(0 - Signed(x));
        case StackAdr(n) => Push(x + n);
        case LoadStack(n) => Load(x + n);
        case LoadStackFar(n) => Load(Wrap(x + n));
      }
    }

    method JumpOp(i: Instr)
      requires Valid() && !stuck && (i.JumpFalse? || i.Jump? || i.OrJump? || i.AndJump?)
      modifies this`sp, this`stuck, this`pc, exs
      ensures Valid() && Now() == ExecJump(old(Abs()), i)
    {
      if i.Jump? {
        pc := i.to;
      } else if sp < 1 {
        stuck := true;
      } else {
        var x := PopWord();
        match i {
          case JumpFalse(to) =>
            if x == 0 {
              pc := to;
            }
          case OrJump(to) =>
            if x != 0 {
              pc := to;
              Push(1);
            }
          case AndJump(to) =>
            if x == 0 {
              pc := to;
              Push(0);
            }
        }
      }
    }

    /** FOR1. */
    method ForEnter(down: bool, to: word)
      requires Valid() && !stuck
      modifies this`sp, this`stuck, this`pc, this`s, mem
      ensures Valid() && Now() == EnterFor(old(Abs()), down, to)
    {
      if sp < 3 {
        stuck := true;
        return;
      }
      ThreePopped(Abs());
      hide Pop, Top, Second, EnterFor;
      ghost var before := Abs();
      var hi := PopWord();
      var low := PopWord();
      var adr := PopWord();
      ForEntered(before, down, to, hi, low, adr, Abs());
      if (!down && Signed(low) <= Signed(hi)) || (down && Signed(low) >= Signed(hi)) {
        OpenFor(adr, low, hi);
      } else {
        pc := to;
      }
    }

    method OpenFor(adr: word, low: word, hi: word)
      requires Valid() && !stuck
      modifies this`stuck, this`s, mem
      ensures Valid()
      ensures Now() == var st := old(Abs());
                       if st.s + 1 >= MEM_SIZE then None
                       else Some(st.(mem := st.mem[adr := low][st.s := adr][st.s + 1 := hi], s := Wrap(st.s + 2)))
    {
      if s + 1 >= MEM_SIZE {
        stuck := true;
      } else {
        mem[adr] := low;
        mem[s] := adr;
        mem[s + 1] := hi;
        s := Wrap(s + 2);
      }
    }

    /** FOR2. */
    method ForNext(step: int, to: word)
      requires Valid() && !stuck
      modifies this`stuck, this`pc, this`s, mem
      ensures Valid() && Now() == NextFor(old(Abs()), step, to)
    {
      if s < 2 {
        stuck := true;
        return;
      }
      var hi, adr := Signed(mem[s - 1]), mem[s - 2];
      var i := Wrap(mem[adr] + step);
      if (step >= 0 && Signed(i) > hi) || (step <= 0 && Signed(i) < hi) {
        s := s - 2;
      } else {
        mem[adr] := i;
        pc := to;
      }
    }

    /** A word of the running module's code; nothing beyond its end. */
    function CodeWord(at: int): Option<word>
      requires !stuck ==> modn < |prog|
      reads this
    {
      if stuck then None else WordAt(prog[modn].code, at)
    }

    /** ENTC. */
    method CaseEnter(table: word)
      requires Valid() && !stuck
      modifies this`sp, this`stuck, this`pc, this`s, mem
      ensures Valid() && Now() == DoEnterCase(prog[old(modn)].code, old(Abs()), table)
    {
      hide WordAt, Wrap;
      var low, high := CodeWord(table), CodeWord(table + 2);
      if sp < 1 || low == None || high == None {
        stuck := true;
        return;
      }
      var k := PopWord();
      var at: int := table + 4;
      mem[s] := Wrap(at + 2 * (high.value - low.value) + 4);
      s := Wrap(s + 1);
      if low.value <= k <= high.value {
        var d: int := k - low.value;
        at := at + 2 * (d + 1);
      }
      match CodeWord(at) {
        case None => stuck := true;
        case Some(d) => pc := Wrap(at + d);
      }
    }

    /** LLD and SLD. */
    method LoadTwo(n: byte)
      requires Valid() && !stuck
      modifies this`sp, this`stuck, exs
      ensures Valid() && Now() == Exec(prog, old(Abs()), LoadPair(n))
    {
      hide PushWord;
      var a: int := Wrap(l + n);
      Load(a);
      if !stuck {
        Load(a + 1);
      }
    }

    method StoreTwo(n: byte)
      requires Valid() && !stuck
      modifies this`sp, this`stuck, mem
      ensures Valid() && Now() == Exec(prog, old(Abs()), StorePair(n))
    {
      hide Exec, Pop, Top, Second, Put, Wrap;
      if sp < 2 {
        PairMissing(prog, Abs(), n);
        stuck := true;
        return;
      }
      PairStored(prog, Abs(), n);
      var x, y := PopTwo();
      StoreBoth(Wrap(l + n), x, y);
    }

    method PopTwo() returns (x: word, y: word)
      requires Valid() && !stuck && sp >= 2
      modifies this`sp
      ensures Valid() && x == Second(old(Abs())) && y == Top(old(Abs())) && Abs() == Pop(old(Abs()), 2)
    {
      y := PopWord();
      x := PopWord();
    }

    /** Two words at a and above it, the upper one first. */
    method StoreBoth(a: int, x: word, y: word)
      requires Valid() && !stuck
      modifies this`stuck, mem
      ensures Valid()
      ensures var one := Put(old(Abs()), a + 1, y);
              Now() == if one.Some? then Put(one.value, a, x) else None
    {
      hide Put;
      Store(a + 1, y);
      if !stuck {
        Store(a, x);
      }
    }

    /** LODFW. */
    method Reload()
      requires Valid() && !stuck
      modifies this`sp, this`stuck, this`s, exs
      ensures Valid() && Now() == Exec(prog, old(Abs()), ReloadWord)
    {
      hide Restore, PushWord;
      if sp < 1 {
        stuck := true;
        return;
      }
      var x := PopWord();
      EsRestore();
      if !stuck {
        Push(x);
      }
    }

    /** LODFD. */
    method ReloadTwo()
      requires Valid() && !stuck
      modifies this`sp, this`stuck, this`s, exs
      ensures Valid() && Now() == Exec(prog, old(Abs()), ReloadPair)
    {
      PairReloaded(prog, Abs());
      hide Exec, Restore, PushWord, Pop, Top, Second;
      if sp < 2 {
        stuck := true;
        return;
      }
      var x, y := PopTwo();
      EsRestore();
      if !stuck {
        Push(x);
      }
      if !stuck {
        Push(y);
      }
    }

    /** STOT. */
    method CopyToStack()
      requires Valid() && !stuck
      modifies this`sp, this`stuck, this`s, mem
      ensures Valid() && Now() == Exec(prog, old(Abs()), ToStack)
    {
      if sp < 1 {
        stuck := true;
        return;
      }
      TopUsed(prog, Abs());
      hide Exec, Pop, Top;
      var x := PopWord();
      mem[s] := x;
      s := Wrap(s + 1);
    }

    /** TS. */
    method TestAndSet()
      requires Valid() && !stuck
      modifies this`sp, this`stuck, mem, exs
      ensures Valid() && Now() == Exec(prog, old(Abs()), TestSet)
    {
      if sp < 1 {
        stuck := true;
        return;
      }
      TopUsed(prog, Abs());
      hide Exec, PushWord, Pop, Top;
      var a := PopWord();
      var x := mem[a];
      mem[a] := 1;
      Push(x);
    }

    /** Calls, returns and frames. */
    method FrameOp(i: Instr)
      requires Valid() && !stuck
      requires i.Base? || i.Enter? || i.Return? || i.CallExt? || i.CallLevel? || i.CallFormal? || i.CallLocal?
      modifies this`sp, this`stuck, this`s, this`l, this`cs, this`modn, this`g, this`pc, mem, exs
      ensures Valid() && Now() == ExecFrame(prog, old(Abs()), i)
    {
      hide CallAway, CallHere, ReturnFrom, Chain;
      match i {
        case Base(n) => BaseAdr(n);
        case Enter(n) =>
          if s < MEM_SIZE - n {
            s := Wrap(s + n);
          } else {
            stuck := true;
          }
        case Return => GoBack();
        case CallExt(m, n) =>
          if m != 0 || n != 0 {
            CallOut(ToExternal, m, n);
          }
        case CallLevel(n) =>
          if sp < 1 {
            stuck := true;
          } else {
            var base := PopWord();
            CallIn(ToLevel, base, n);
          }
        case CallFormal =>
          if s == 0 {
            stuck := true;
          } else {
            var w := mem[s - 1];
            CallOut(ToFormal, w / 0x100, w % 0x100);
          }
        case CallLocal(n) => CallIn(ToLocal, 0, n);
      }
    }

    /** Loads of one word. */
    method LoadOp(i: Instr)
      requires Valid() && !stuck && (i.LoadLocal? || i.LoadGlobal? || i.LoadExt?)
      modifies this`sp, this`stuck, exs
      ensures Valid() && Now() == Exec(prog, old(Abs()), i)
    {
      hide ExecJump, ExecUnary, ExecFrame, ExecBinary, EnterFor, NextFor, DoEnterCase, Save, Restore;
      match i {
        case LoadLocal(n) => Load(l + n);
        case LoadGlobal(n) => Load(g + n);
        case LoadExt(m, n) =>
          if m < |prog| {
            Load(prog[m].dataOfs + n);
          } else {
            stuck := true;
          }
      }
    }

    /** Stores of one word. */
    method StoreOp(i: Instr)
      requires Valid() && !stuck && (i.StoreLocal? || i.StoreGlobal? || i.StoreExt?)
      modifies this`sp, this`stuck, mem
      ensures Valid() && Now() == Exec(prog, old(Abs()), i)
    {
      if sp < 1 {
        stuck := true;
        return;
      }
      OneStored(prog, Abs(), i);
      hide Exec, Put, Pop, Top;
      var w := PopWord();
      match i {
        case StoreLocal(n) => Store(l + n, w);
        case StoreGlobal(n) => Store(g + n, w);
        case StoreExt(m, n) =>
          if m < |prog| {
            Store(prog[m].dataOfs + n, w);
          } else {
            stuck := true;
          }
      }
    }

    /** SSW. */
    method StoreAt(n: byte)
      requires Valid() && !stuck
      modifies this`sp, this`stuck, mem
      ensures Valid() && Now() == Exec(prog, old(Abs()), StoreStack(n))
    {
      if sp < 2 {
        stuck := true;
        return;
      }
      ghost var before := Abs();
      var w := PopWord();
      var b := PopWord();
      assert Abs() == Pop(before, 2) && b == Second(before);
      Store(Wrap(b + n), w);
    }

    /** The big switch of `le_execute`; the program counter already stands behind the instruction. */
    method Perform(i: Instr)
      requires Valid() && !stuck
      modifies this`sp, this`stuck, this`s, this`l, this`cs, this`modn, this`g, this`pc, mem, exs
      ensures Valid() && Now() == Exec(prog, old(Abs()), i)
    {
      hide ExecBinary, ExecUnary, ExecJump, ExecFrame, EnterFor, NextFor, DoEnterCase, Save, Exec;
      if i.JumpFalse? || i.Jump? || i.OrJump? || i.AndJump? || i.Binary? || i.For1? || i.For2? || i.EnterCase? || i.SaveStack? {
        PerformControl(i);
      } else if i.Not? || i.Neg? || i.CheckSign? || i.CopyTop? || i.StackAdr? || i.LoadStack? || i.LoadStackFar? || i.Base? || i.Enter?
                || i.Return? || i.CallExt? || i.CallLevel? || i.CallFormal? || i.CallLocal? {
        PerformFrame(i);
      } else if i.Push? || i.LocalAdr? || i.GlobalAdr? || i.ExitCase? || i.DropStack? || i.Nop? || i.Trap? {
        PerformSmall(i);
      } else {
        PerformMove(i);
      }
    }

    method PerformMove(i: Instr)
      requires Valid() && !stuck
      requires i.LoadPair? || i.StorePair? || i.ReloadWord? || i.ReloadPair? || i.ToStack? || i.TestSet? || i.LoadLocal? || i.LoadGlobal?
               || i.LoadExt? || i.StoreLocal? || i.StoreGlobal? || i.StoreExt? || i.StoreStack?
      modifies this`sp, this`stuck, this`s, mem, exs
      ensures Valid() && Now() == Exec(prog, old(Abs()), i)
    {
      hide Exec;
      if i.LoadLocal? || i.LoadGlobal? || i.LoadExt? {
        LoadOp(i);
      } else if i.StoreLocal? || i.StoreGlobal? || i.StoreExt? {
        StoreOp(i);
      } else if i.LoadPair? {
        LoadTwo(i.n);
      } else if i.StorePair? {
        StoreTwo(i.n);
      } else if i.StoreStack? {
        StoreAt(i.n);
      } else if i.ReloadWord? {
        Reload();
      } else if i.ReloadPair? {
        ReloadTwo();
      } else if i.ToStack? {
        CopyToStack();
      } else {
        TestAndSet();
      }
    }

    method PerformControl(i: Instr)
      requires Valid() && !stuck
      requires i.JumpFalse? || i.Jump? || i.OrJump? || i.AndJump? || i.Binary? || i.For1? || i.For2? || i.EnterCase? || i.SaveStack?
      modifies this`sp, this`stuck, this`s, this`pc, mem, exs
      ensures Valid() && Now() == Exec(prog, old(Abs()), i)
    {
      hide ExecBinary, ExecUnary, ExecJump, ExecFrame, EnterFor, NextFor, DoEnterCase, Save, Restore, PushWord, Fetch, Put, Pop, Top;
      if i.Binary? {
        Binary(i.op);
      } else if i.For1? {
        ForEnter(i.down, i.to);
      } else if i.For2? {
        ForNext(i.step, i.to);
      } else if i.EnterCase? {
        CaseEnter(i.table);
      } else if i.SaveStack? {
        EsSave();
      } else {
        JumpOp(i);
      }
    }

    method PerformFrame(i: Instr)
      requires Valid() && !stuck
      requires i.Not? || i.Neg? || i.CheckSign? || i.CopyTop? || i.StackAdr? || i.LoadStack? || i.LoadStackFar? || i.Base? || i.Enter?
               || i.Return? || i.CallExt? || i.CallLevel? || i.CallFormal? || i.CallLocal?
      modifies this`sp, this`stuck, this`s, this`l, this`cs, this`modn, this`g, this`pc, mem, exs
      ensures Valid() && Now() == Exec(prog, old(Abs()), i)
    {
      Dispatched(prog, Abs(), i);
      hide Exec, ExecUnary, ExecFrame;
      if i.Not? || i.Neg? || i.CheckSign? || i.CopyTop? || i.StackAdr? || i.LoadStack? || i.LoadStackFar? {
        Unary(i);
      } else {
        FrameOp(i);
      }
    }

    method PerformSmall(i: Instr)
      requires Valid() && !stuck
      requires i.Push? || i.LocalAdr? || i.GlobalAdr? || i.ExitCase? || i.DropStack? || i.Nop? || i.Trap?
      modifies this`sp, this`stuck, this`s, this`pc, exs
      ensures Valid() && Now() == Exec(prog, old(Abs()), i)
    {
      hide Exec, PushWord;
      SmallStep(prog, Abs(), i);
      match i {
        case Push(w) => Push(w);
        case LocalAdr(n) => Push(l + n);
        case GlobalAdr(n) => Push(g + n);
        case ExitCase =>
          s := Wrap(s - 1);
          pc := mem[s];
        case DropStack => s := Wrap(s - 1);
        case Nop =>
        case Trap => stuck := true;
      }
    }

    // ---------------------------------------------------------- fetch and execute

    /** `le_next`. */
    method NextByte() returns (b: byte)
      requires Valid() && !stuck
      modifies this`pc, this`stuck
      ensures Valid() && (stuck <==> old(pc) >= |prog[modn].code|)
      ensures !stuck ==> b == prog[modn].code[old(pc)] && pc == Wrap(old(pc) + 1)
    {
      b := 0;
      if pc < |prog[modn].code| {
        b := prog[modn].code[pc];
        pc := Wrap(pc + 1);
      } else {
        stuck := true;
      }
    }

    /** Fetch an operation code and its operands, one byte at a time. */
    method FetchInstr() returns (i: Instr)
      requires Valid() && !stuck && |prog[modn].code| < 0x1_0000
      modifies this`pc, this`stuck
      ensures Valid()
      ensures var d := Decode(prog[modn].code, old(pc));
              if d == None then stuck else !stuck && i == d.value.instr && pc == d.value.next
    {
      hide DecodePlain, DecodeByte, DecodeTwo, DecodeThree;
      i := Nop;
      var op := NextByte();
      if !stuck {
        var at := pc;
        match DecodePlain(op) {
          case Some(x) => i := x;
          case None => i := FetchMore(op, at);
        }
      }
    }

    /** The operand bytes, until they make an instruction of op. */
    method FetchMore(op: byte, at: word) returns (i: Instr)
      requires Valid() && !stuck && |prog[modn].code| < 0x1_0000 && 0 < pc == at <= |prog[modn].code|
      requires prog[modn].code[at - 1] == op && DecodePlain(op) == None
      modifies this`pc, this`stuck
      ensures Valid()
      ensures var d := Decode(prog[modn].code, old(pc) - 1);
              if d == None then stuck else !stuck && i == d.value.instr && pc == d.value.next
    {
      hide DecodePlain, DecodeByte, DecodeTwo, DecodeThree;
      i := Nop;
      var b0 := NextByte();
      if stuck {
        return;
      }
      match DecodeByte(op, b0, at) {
        case Some(x) => i := x;
        case None =>
          var b1 := NextByte();
          if stuck {
            return;
          }
          match DecodeTwo(op, b0, b1, at) {
            case Some(x) => i := x;
            case None =>
              var b2 := NextByte();
              if stuck {
                return;
              }
              match DecodeThree(op, b0, b1, b2, at) {
                case Some(x) => i := x;
                case None => stuck := true;
              }
          }
      }
    }

    /** One turn of the loop. */
    method Turn()
      requires Valid() && !stuck && pc != 0 && |prog[modn].code| < 0x1_0000
      modifies this`sp, this`stuck, this`s, this`l, this`cs, this`modn, this`g, this`pc, mem, exs
      ensures Valid() && Now() == Step(prog, old(Abs()))
    {
      hide Exec, Decode;
      var i := FetchInstr();
      if !stuck {
        Perform(i);
      }
    }

    /** `le_execute`, at most `limit` instructions of it: it goes on until the program counter is 0. */
    method Execute(limit: nat) returns (n: nat)
      requires Valid() && !stuck && pc != 0 && forall m :: 0 <= m < |prog| ==> |prog[m].code| < 0x1_0000
      modifies this`sp, this`stuck, this`s, this`l, this`cs, this`modn, this`g, this`pc, mem, exs
      ensures Valid() && n <= limit && Now() == Run(Machine(prog), n, old(Abs()))
      ensures n < limit ==> stuck || pc == 0
      ensures stuck ==> Faults(Machine(prog), Halted, old(Abs()))
    {
      hide Step;
      n := 0;
      while n < limit && !stuck && pc != 0
        invariant Valid() && n <= limit && Now() == Run(Machine(prog), n, old(Abs()))
        invariant stuck ==> Faults(Machine(prog), Halted, old(Abs()))
      {
        ghost var st := Abs();
        Turn();
        RunMore(prog, old(Abs()), n, st);
        if stuck {
          FaultsHere(prog, old(Abs()), n, st);
        }
        n := n + 1;
      }
    }
  }

  lemma {:induction false} FaultsHere(p: seq<Module>, a: State, n: nat, st: State)
    requires Run(Machine(p), n, a) == Some(st) && Step(p, st) == None && st.pc != 0
    ensures Faults(Machine(p), Halted, a)
  {
    hide Step;
    assert Reaches(Machine(p), a, st);
  }

  lemma {:induction false} RunMore(p: seq<Module>, a: State, n: nat, b: State)
    requires Run(Machine(p), n, a) == Some(b)
    ensures Run(Machine(p), n + 1, a) == Step(p, b)
  {
    RunAdd(Machine(p), n, 1, a);
    assert Run(Machine(p), 1, b) == Step(p, b) by {
      if Step(p, b).Some? {
        assert Run(Machine(p), 0, Step(p, b).value) == Step(p, b);
      }
    }
  }

  // ------------------------------------------------------------ saved words

  lemma {:induction false} ReverseWords(ws: seq<word>)
    ensures forall i :: 0 <= i < |ws| ==> Reverse(ws)[i] == ws[|ws| - 1 - i]
  {
    if ws != [] {
      ReverseWords(ws[1..]);
    }
  }

  lemma {:induction false} Reversed(all: seq<word>, es: seq<word>, saved: seq<word>)
    requires |all| == |es| + |saved| && all[..|es|] == es
    requires forall i :: |es| <= i < |all| ==> all[i] == saved[|saved| - 1 - (i - |es|)]
    ensures all == es + Reverse(saved)
  {
    hide Reverse;
    ReverseWords(saved);
  }

  lemma {:induction false} WrittenWords(was: memory, at: nat, ws: seq<word>)
    requires at + |ws| <= MEM_SIZE
    ensures forall i :: 0 <= i < MEM_SIZE ==> WriteAll(was, at, ws)[i] == if at <= i < at + |ws| then ws[i - at] else was[i]
  {
  }

  lemma {:induction false} WriteNone(was: memory, at: nat)
    requires at <= MEM_SIZE
    ensures WriteAll(was, at, []) == was
  {
  }

  /** One more word written behind the others. */
  lemma {:induction false} WriteMore(was: memory, at: nat, ws: seq<word>, w: word)
    requires at + |ws| < MEM_SIZE
    ensures WriteAll(was, at, ws)[at + |ws| := w] == WriteAll(was, at, ws + [w])
  {
  }

  /** What `es_save` leaves on the memory stack, `es_restore` brings back in order, above
      whatever the stack holds by then. */
  lemma {:induction false} SaveRestore(st: State, back: State)
    requires |st.es| <= EXS_SIZE && Save(st).Some? && back.s == Save(st).value.s > 0 && |back.es| + |st.es| <= EXS_SIZE
    requires forall i :: st.s <= i < back.s ==> back.mem[i] == Save(st).value.mem[i]
    ensures Restore(back) == Some(back.(es := back.es + st.es, s := st.s))
  {
    hide Reverse, WriteAll;
    var n := |st.es|;
    WrittenWords(st.mem, st.s, Reverse(st.es) + [Wrap(n)]);
    assert back.mem[back.s - 1] == n;
    var saved := back.mem[st.s..st.s + n];
    ReverseWords(st.es);
    assert saved == Reverse(st.es);
    ReverseWords(saved);
    assert Reverse(saved) == st.es;
  }

  /** Pending operands survive a function call: STORE saves them, and LODFW, executed when the
      result is on the otherwise empty expression stack and the memory stack is back where STORE
      left it, puts the result on top of them. */
  lemma {:induction false} PendingOperands(p: seq<Module>, st: State, back: State, result: word)
    requires |st.es| < EXS_SIZE && Save(st).Some? && back.s == Save(st).value.s > 0 && back.es == [result] && back.modn < |p|
    requires forall i :: st.s <= i < back.s ==> back.mem[i] == Save(st).value.mem[i]
    ensures Exec(p, back, ReloadWord) == Some(back.(es := st.es + [result], s := st.s))
  {
    hide Save, Restore;
    var empty := Pop(back, 1);
    assert empty.es == [] && Top(back) == result;
    SaveRestore(st, empty);
    assert [] + st.es == st.es;
  }

  /** The same for a result of two words, which LODFD keeps in their order. */
  lemma {:induction false} PendingPair(p: seq<Module>, st: State, back: State, hi: word, lo: word)
    requires |st.es| + 1 < EXS_SIZE && Save(st).Some? && back.s == Save(st).value.s > 0 && back.es == [hi, lo] && back.modn < |p|
    requires forall i :: st.s <= i < back.s ==> back.mem[i] == Save(st).value.mem[i]
    ensures Exec(p, back, ReloadPair) == Some(back.(es := st.es + [hi, lo], s := st.s))
  {
    hide Save, Restore;
    var empty := Pop(back, 2);
    assert empty.es == [] && Second(back) == hi && Top(back) == lo;
    SaveRestore(st, empty);
    assert [] + st.es == st.es && st.es + [hi] + [lo] == st.es + [hi, lo];
    PairReloaded(p, back);
  }
}
