/** Where the generator's short forms and limits agree with the machine, and where they do not. */
module Limits {
  import opened Words
  import opened Options
  import opened MCode
  import opened Machines
  import opened Lang
  import opened StmtGen
  import opened ExprMeaning
  import opened ExprProof
  import opened Overflow
  import G = ExprGen

  // ---------------------------------------------------- addresses in opcodes

  /** An instruction whose address is below 16 has it in its operation code. The codes for the
      smallest addresses belong to other instructions, so that only variables beyond the frame
      words are reached. */
  lemma {:induction false} LocalForms(code: seq<byte>, pc: word, n: nat, c: seq<byte>)
    requires pc + |c| < 0x1_0000 && CodeAt(code, pc, c)
    ensures G.OpArg(0x20, n) == Some(c) ==> (Decode(code, pc) == Some(Decoded(LoadLocal(n), pc + |c|)) <==> n >= 4)
    ensures G.OpArg(0x30, n) == Some(c) ==> (Decode(code, pc) == Some(Decoded(StoreLocal(n), pc + |c|)) <==> n >= 4)
  {
    Bounded(code, pc, c);
  }

  lemma {:induction false} GlobalForms(code: seq<byte>, pc: word, n: nat, c: seq<byte>)
    requires pc + |c| < 0x1_0000 && CodeAt(code, pc, c)
    ensures G.OpArg(0x40, n) == Some(c) ==> (Decode(code, pc) == Some(Decoded(LoadGlobal(n), pc + |c|)) <==> n >= 2)
    ensures G.OpArg(0x50, n) == Some(c) ==> (Decode(code, pc) == Some(Decoded(StoreGlobal(n), pc + |c|)) <==> n >= 2)
  {
    Bounded(code, pc, c);
  }

  lemma {:induction false} Bounded(code: seq<byte>, pc: word, c: seq<byte>)
    requires CodeAt(code, pc, c)
    ensures |c| >= 1 ==> code[pc] == c[0]
    ensures |c| >= 2 ==> code[pc + 1] == c[1]
  {
    if |c| >= 1 {
      CodeAtByte(code, pc, c, 0);
    }
    if |c| >= 2 {
      CodeAtByte(code, pc, c, 1);
    }
  }

  /** A store into an outer frame: the long form is an instruction the machine does not execute. */
  lemma {:induction false} OuterStoreForm(code: seq<byte>, pc: word, n: nat, c: seq<byte>)
    requires G.OpArg1(0x70, n) == Some(c) && pc + |c| < 0x1_0000 && CodeAt(code, pc, c)
    ensures Decode(code, pc) == Some(Decoded(StoreStack(n), pc + |c|)) <==> n < 0x10
    ensures n >= 0x10 ==> Decode(code, pc) == None
  {
    Bounded(code, pc, c);
  }

  /** The step of FOR2 is one signed byte. */
  lemma {:induction false} StepForm(code: seq<byte>, pc: word, step: int, n: nat)
    requires pc + 4 < 0x1_0000 && n <= pc && CodeAt(code, pc, ForBack(step, n))
    ensures Decode(code, pc) == Some(Decoded(For2(step, pc - n), pc + 4)) <==> -0x80 <= step < 0x80
  {
    hide Wrap;
    var c := ForBack(step, n);
    CodeAtByte(code, pc, c, 0);
    CodeAtByte(code, pc, c, 1);
    CodeAtByte(code, pc, c, 2);
    CodeAtByte(code, pc, c, 3);
    JoinBytes(Wrap(0 - n - 2));
    StepTarget(pc, n);
    SmallSteps(step);
    assert DecodeThree(0xC1, step % 0x100, c[2], c[3], pc + 1) == Some(For2(SignedByte(step % 0x100), pc - n));
    WrappedPc(pc);
  }

  lemma {:induction false} WrappedPc(pc: word)
    requires pc + 4 < 0x1_0000
    ensures Wrap(pc + 1) == pc + 1 && Wrap(pc + 4) == pc + 4
  {
  }

  lemma {:induction false} StepTarget(pc: word, n: nat)
    requires n <= pc && pc + 4 < 0x1_0000
    ensures Wrap(pc + 1 + 1 + Wrap(0 - n - 2)) == pc - n
  {
    if n + 2 <= 0x1_0000 {
      assert Wrap(0 - n - 2) == 0x1_0000 - n - 2;
    }
  }

  lemma {:induction false} SmallSteps(step: int)
    ensures SignedByte(step % 0x100) == step <==> -0x80 <= step < 0x80
  {
  }

  // -------------------------------------------------- jumps over right operands

  /** The jump over a right operand of n bytes leads behind it if and only if the distance fits
      its byte. */
  lemma {:induction false} ShortJumpLands(code: seq<byte>, pc: word, stop: bool, n: nat)
    requires pc + 2 + n < 0x1_0000 && CodeAt(code, pc, [ShortOpc(stop), G.Displacement(n + 1)])
    ensures Decode(code, pc) == Some(Decoded(ShortInstr(stop, pc + 1 + (n + 1) % 0x100), pc + 2))
    ensures pc + 1 + (n + 1) % 0x100 == pc + 2 + n <==> n + 1 < 0x100
  {
    Bounded(code, pc, [ShortOpc(stop), G.Displacement(n + 1)]);
  }

  /** With a right operand of 255 bytes the displacement is 0. When the left operand decides, the
      machine jumps to that byte, executes it as LI0, and evaluates the right operand after all:
      three words are left on the stack instead of one. */
  lemma {:induction false} JumpIntoItself(p: seq<Module>, st: State, fr: Frame, r: Expr, stop: bool, h: G.Frag, w: word)
    requires G.GenLoaded(r, fr.env.lev) == Some(h) && |h.code| == 0xFF
    requires st.es != [] && st.es[|st.es| - 1] == Encode(B(stop))
    requires Ready(p, st, [ShortOpc(stop), G.Displacement(|h.code| + 1)] + h.code)
    requires Runnable(p, Skip(st, 2), fr, r, h.code, h.peak + 1) && EncodeResult(Eval(r, fr.s)) == Some(w)
    ensures Leads(p)(st, Some(st.(pc := st.pc + 2 + |h.code|, es := st.es + [0, w])))
  {
    hide WellLaid, G.GenLoaded, G.ShortJumpsFit, Eval, Ready;
    LandOnOperand(p, st, stop, h.code);
    var two := st.(pc := st.pc + 2, es := st.es + [0]);
    SameFrame(p, Skip(st, 2), two, fr, r, h.code, h.peak);
    LoadedRuns(p, two, fr, r, h);
    LeadsOn(p, st, two, Some(Pushed(two, |h.code|, w)));
    assert st.es + [0] + [w] == st.es + [0, w];
  }

  lemma {:induction false} LandingCode(p: seq<Module>, st: State, stop: bool, d: seq<byte>)
    requires |d| == 0xFF && Ready(p, st, [ShortOpc(stop), G.Displacement(|d| + 1)] + d)
    ensures CodeAt(p[st.modn].code, st.pc, [ShortOpc(stop), G.Displacement(0x100)]) && st.pc + 0x101 < 0x1_0000
    ensures Ready(p, st.(pc := st.pc + 1), G.LitCode(0)) && |G.LitCode(0)| == 1
  {
    hide Decode, Exec;
    CodeAtParts(p[st.modn].code, st.pc, [ShortOpc(stop), 0], d);
    CodeAtParts(p[st.modn].code, st.pc, [ShortOpc(stop)], [0] + d);
    CodeAtParts(p[st.modn].code, st.pc + 1, [0], d);
  }

  /** The jump to its own displacement, and LI0. */
  lemma {:induction false} LandOnOperand(p: seq<Module>, st: State, stop: bool, d: seq<byte>)
    requires |d| == 0xFF && 0 < |st.es| < EXS_SIZE && st.es[|st.es| - 1] == Encode(B(stop))
    requires Ready(p, st, [ShortOpc(stop), G.Displacement(|d| + 1)] + d)
    ensures Leads(p)(st, Some(st.(pc := st.pc + 2, es := st.es + [0])))
  {
    LandingCode(p, st, stop, d);
    hide Decode, Exec, CodeAt, Ready, Leads, G.LitCode, ShortInstr, Encode;
    ShortJumpLands(p[st.modn].code, st.pc, stop, 0xFF);
    ShortEffect(p, Skip(st, 2), st.es[..|st.es| - 1], stop, st.pc + 1, Encode(B(stop)));
    var one := st.(pc := st.pc + 1);
    Take(p, st, ShortInstr(stop, st.pc + 1), 2, Some(one));
    PushLit(p, one, 0);
    LeadsOn(p, st, one, Some(Pushed(one, 1, 0)));
  }

  lemma {:induction false} SameFrame(p: seq<Module>, a: State, b: State, fr: Frame, e: Expr, c: seq<byte>, n: nat)
    requires Runnable(p, a, fr, e, c, n + 1) && b == a.(es := b.es) && |b.es| == |a.es| + 1
    ensures Runnable(p, b, fr, e, c, n)
  {
  }

  /** n times NOT: an operand of any length. */
  function Nots(n: nat, v: Var): Expr {
    if n == 0 then Ref(v) else Expr.Not(Nots(n - 1, v))
  }

  lemma {:induction false} LongOperand(n: nat, v: Var, lev: nat)
    requires v.lev == 0 && v.adr < 0x10 && v.typ == Bool
    ensures TypeOf(Nots(n, v)) == Some(Bool)
    ensures G.GenLoaded(Nots(n, v), lev).Some? && |G.GenLoaded(Nots(n, v), lev).value.code| == n + 1
    ensures n > 0 ==> G.GenExpr(Nots(n, v), lev).Some? && G.GenExpr(Nots(n, v), lev).value.x == G.ExpM(Bool)
  {
    if n > 0 {
      LongOperand(n - 1, v, lev);
    }
  }

  // ---------------------------------------------------------- the stack limits

  /** v - (v - (v - ...)), with n operands. */
  function Tower(n: nat, v: Var): Expr {
    if n <= 1 then Ref(v) else Bin(Minus, Ref(v), Tower(n - 1, v))
  }

  lemma {:induction false} TowerCode(n: nat, v: Var, lev: nat)
    requires n >= 1 && v.lev == 0 && v.adr < 0x10 && v.typ == Card
    ensures TypeOf(Tower(n, v)) == Some(Card) && G.ShortJumpsFit(Tower(n, v), lev) && Vars(Tower(n, v)) == {v}
    ensures var f := G.GenLoaded(Tower(n, v), lev);
            && f.Some? && f.value.peak == n
            && f.value.code == if n == 1 then [0x40 + v.adr] else [0x40 + v.adr] + G.GenLoaded(Tower(n - 1, v), lev).value.code + [0xB9]
    ensures n >= 2 ==> G.GenExpr(Tower(n, v), lev).Some? && G.GenExpr(Tower(n, v), lev).value.x == G.ExpM(Card)
  {
    if n > 1 {
      TowerCode(n - 1, v, lev);
      TowerStep(Tower(n - 1, v), v, lev);
    }
  }

  /** A variable minus the rest of the tower. */
  lemma {:induction false} TowerStep(r: Expr, v: Var, lev: nat)
    requires v.lev == 0 && v.adr < 0x10 && v.typ == Card
    requires G.GenExpr(r, lev).Some? && (G.GenExpr(r, lev).value.x == G.ExpM(Card) || G.GenExpr(r, lev).value == G.Frag([], G.VarM(v), 0))
    ensures var h := G.GenLoaded(r, lev);
            && h.Some? && G.GenExpr(Bin(Minus, Ref(v), r), lev)
            == Some(G.Frag([0x40 + v.adr] + h.value.code + [0xB9], G.ExpM(Card), 1 + G.Max(h.value.peak, 1)))
  {
    hide Wrap, G.GenExpr, G.GenLoaded, Pow2, Bytes, Signed, G.Combine, G.Fold, G.Opcode, G.LoadCode, G.Loaded, G.GenNeg, G.Deferred;
    var f, h := G.Frag([0x40 + v.adr], G.ExpM(Card), 1), G.GenExpr(r, lev).value;
    RefLoaded(v, lev, f);
    MinusCombines(f, h, v, lev);
    hide G.Combine, G.LoadCode;
    var c := G.LoadCode(h.x, lev).value;
    assert [0x40 + v.adr] + h.code + c == [0x40 + v.adr] + (h.code + c);
    MinusUnfolds(r, v, lev, f, h);
    Forced(r, lev, h, c);
  }

  lemma {:induction false} RefLoaded(v: Var, lev: nat, f: G.Frag)
    requires v.lev == 0 && v.adr < 0x10 && v.typ == Card && f == G.Frag([0x40 + v.adr], G.ExpM(Card), 1)
    ensures G.GenLoaded(Ref(v), lev) == Some(f)
  {
    assert [] + [0x40 + v.adr] == [0x40 + v.adr];
  }

  lemma {:induction false} MinusUnfolds(r: Expr, v: Var, lev: nat, f: G.Frag, h: G.Frag)
    requires G.GenLoaded(Ref(v), lev) == Some(f) && G.GenExpr(r, lev) == Some(h)
    ensures G.GenExpr(Bin(Minus, Ref(v), r), lev) == G.Combine(Minus, f, h, lev)
  {
    hide G.Combine, G.LoadCode;
  }

  lemma {:induction false} Forced(r: Expr, lev: nat, h: G.Frag, c: seq<byte>)
    requires G.GenExpr(r, lev) == Some(h) && G.LoadCode(h.x, lev) == Some(c)
    ensures G.GenLoaded(r, lev) == Some(G.Frag(h.code + c, G.Loaded(h.x), if G.Deferred(h.x) then G.Max(h.peak, 1) else h.peak))
  {
  }

  lemma {:induction false} MinusCombines(f: G.Frag, h: G.Frag, v: Var, lev: nat)
    requires v.lev == 0 && v.adr < 0x10 && v.typ == Card && f.x == G.ExpM(Card) && (h.x == G.ExpM(Card) || h.x == G.VarM(v))
    ensures var c := G.LoadCode(h.x, lev);
            && c.Some? && G.Combine(Minus, f, h, lev)
            == Some(G.Frag(f.code + h.code + c.value + [0xB9], G.ExpM(Card), G.Max(f.peak, 1 + G.Max(h.peak, 1))))
  {
  }

  lemma {:induction false} TowerEvaluated(n: nat, v: Var)
    ensures AllEvaluated(Tower(n, v))
  {
    if n > 1 {
      TowerEvaluated(n - 1, v);
    }
  }

  /** A tower of n operands needs n words: it yields its value when the machine's stack has room for
      them, and a fault otherwise. With 16 words the generator accepts it and it faults. */
  lemma {:induction false} TowerLimit(p: seq<Module>, st: State, fr: Frame, n: nat, v: Var, c: seq<byte>)
    requires n >= 1 && v.lev == 0 && v.adr < 0x10 && v.typ == Card && v in fr.env.vars && |st.es| <= EXS_SIZE
    requires Goods()(fr) && Like(fr, st)
    requires ValueCode(Tower(n, v), fr.env.lev, |st.es|) == Some(c) && Ready(p, st, c)
    ensures |st.es| + n <= STACK_DEPTH && Eval(Tower(n, v), fr.s).Some?
    ensures Yields(p, st, |c|, if |st.es| + n <= EXS_SIZE then EncodeResult(Eval(Tower(n, v), fr.s)) else None)
  {
    hide G.GenLoaded, WellLaid, Decode, Exec, Ready, Leads, G.ShortJumpsFit;
    TowerCode(n, v, fr.env.lev);
    assert Good(fr);
    TowerEval(n, v, fr.s);
    TowerEvaluated(n, v);
    StackLimit(p, st, fr, Tower(n, v), c);
    Bounds(p, st, c);
  }

  lemma {:induction false} Bounds(p: seq<Module>, st: State, c: seq<byte>)
    requires Ready(p, st, c)
    ensures st.pc + |c| < 0x1_0000
  {
  }

  lemma {:induction false} TowerEval(n: nat, v: Var, s: Store)
    requires v in s && v.typ == Card && Typed(s)
    ensures Eval(Tower(n, v), s).Some? && Eval(Tower(n, v), s).value.C?
  {
    assert TypOf(s[v]) == v.typ;
    if n > 1 {
      TowerEval(n - 1, v, s);
    }
  }
}
