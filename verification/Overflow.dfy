/** The machine's expression stack has 15 words and the generator counts to 16: which expressions
    fault for that. */
module Overflow {
  import opened Words
  import opened Options
  import opened MCode
  import opened Machines
  import opened Lang
  import opened StmtGen
  import opened ExprMeaning
  import opened ExprProof
  import G = ExprGen

  /** No AND and no OR: every operand is evaluated. */
  predicate AllEvaluated(e: Expr) {
    match e
    case Num(_) => true
    case Truth(_) => true
    case Ref(_) => true
    case Not(a) => AllEvaluated(a)
    case Negate(a) => AllEvaluated(a)
    case And(_, _) => false
    case Or(_, _) => false
    case Bin(_, l, r) => AllEvaluated(l) && AllEvaluated(r)
  }

  lemma {:induction false} EvaluatedFits(e: Expr, lev: nat)
    requires AllEvaluated(e)
    ensures G.ShortJumpsFit(e, lev)
  {
    match e
    case Num(_) =>
    case Truth(_) =>
    case Ref(_) =>
    case Not(a) => EvaluatedFits(a, lev);
    case Negate(a) => EvaluatedFits(a, lev);
    case Bin(_, l, r) => EvaluatedFits(l, lev); EvaluatedFits(r, lev);
  }

  /** The premises of an evaluation for which there is not enough room. */
  ghost predicate Overfull(p: seq<Module>, st: State, fr: Frame, e: Expr, code: seq<byte>, peak: nat) {
    && Goods()(fr) && Like(fr, st)
    && Typed(fr.s) && TypeOf(e).Some? && Vars(e) <= fr.s.Keys && AllEvaluated(e)
    && Ready(p, st, code) && |st.es| <= EXS_SIZE < |st.es| + peak
  }

  // ------------------------------------------------------------ onto a full stack

  /** An instruction that pushes a word does not find room. */
  lemma {:induction false} NoRoom(p: seq<Module>, st: State, i: Instr, k: nat)
    requires st.modn < |p| && 0 < st.pc && st.pc + k < 0x1_0000 && |st.es| == EXS_SIZE
    requires Decode(p[st.modn].code, st.pc) == Some(Decoded(i, st.pc + k))
    requires i.Push? || i.LoadLocal? || i.LoadGlobal? || i.Base?
    ensures Leads(p)(st, None)
  {
    FullFaults(p, Skip(st, k), i);
    hide Decode, Exec;
    Take(p, st, i, k, None);
  }

  lemma {:induction false} FullFaults(p: seq<Module>, st: State, i: Instr)
    requires st.modn < |p| && |st.es| == EXS_SIZE && (i.Push? || i.LoadLocal? || i.LoadGlobal? || i.Base?)
    ensures Effect(p)(st, i) == None
  {
    hide MCode.Chain;
    assert forall w {:trigger PushWord(st, w)} :: PushWord(st, w) == None;
    assert Exec(p, st, i) == None;
  }

  lemma {:induction false} LitFaults(p: seq<Module>, st: State, n: word)
    requires Ready(p, st, G.LitCode(n)) && |st.es| == EXS_SIZE
    ensures Leads(p)(st, None)
  {
    hide Decode, CodeAt, Leads, G.LitCode;
    LitDecodes(p, st, n);
    NoRoom(p, st, Push(n), |G.LitCode(n)|);
  }

  lemma {:induction false} VarFaults(p: seq<Module>, st: State, env: Env, v: Var, c: seq<byte>)
    requires WellLaid(env) && v in env.vars && G.VarCode(v, env.lev) == Some(c) && Ready(p, st, c) && |st.es| == EXS_SIZE
    ensures Leads(p)(st, None)
  {
    hide Decode, CodeAt, Leads;
    if v.lev == 0 {
      GlobalDecodes(p, st, v.adr, c);
      NoRoom(p, st, LoadGlobal(v.adr), |c|);
    } else if v.lev == env.lev {
      LocalDecodes(p, st, v.adr, c);
      NoRoom(p, st, LoadLocal(v.adr), |c|);
    } else {
      var n := env.lev - v.lev;
      CodeAtParts(p[st.modn].code, st.pc, G.BaseCode(n), G.OpArg1(0x60, v.adr).value);
      BaseDecodes(p, st, n);
      NoRoom(p, st, Base(n), |G.BaseCode(n)|);
    }
  }

  // ---------------------------------------------------------------- expressions

  lemma {:induction false} LoadedFaults(p: seq<Module>, st: State, fr: Frame, e: Expr, g: G.Frag)
    requires G.GenLoaded(e, fr.env.lev) == Some(g) && Overfull(p, st, fr, e, g.code, g.peak)
    ensures Leads(p)(st, None)
    decreases e, 5
  {
    hide WellLaid, Decode, Exec, G.GenExpr;
    var f := G.GenExpr(e, fr.env.lev).value;
    GenDescribes(e, fr.env.lev, f);
    if G.Deferred(f.x) {
      assert f.code + G.LoadCode(f.x, fr.env.lev).value == G.LoadCode(f.x, fr.env.lev).value;
      DeferredFaults(p, st, fr, e, f, g.code);
    } else {
      assert f.code + [] == f.code;
      ExprFaults(p, st, fr, e, f);
    }
  }

  lemma {:induction false} DeferredFaults(p: seq<Module>, st: State, fr: Frame, e: Expr, f: G.Frag, c: seq<byte>)
    requires TypeOf(e).Some? && Describes(f, e, TypeOf(e).value) && G.Deferred(f.x)
    requires G.LoadCode(f.x, fr.env.lev) == Some(c) && Overfull(p, st, fr, e, c, 1)
    ensures Leads(p)(st, None)
  {
    hide Decode, Leads;
    if f.x.ConM? {
      LitFaults(p, st, f.x.val);
    } else {
      assert Good(fr);
      VarFaults(p, st, fr.env, f.x.v, c);
    }
  }

  lemma {:induction false} ExprFaults(p: seq<Module>, st: State, fr: Frame, e: Expr, f: G.Frag)
    requires G.GenExpr(e, fr.env.lev) == Some(f) && !G.Deferred(f.x) && Overfull(p, st, fr, e, f.code, f.peak)
    ensures Leads(p)(st, None)
    decreases e, 4
  {
    match e
    case Num(_) =>
    case Truth(_) =>
    case Ref(_) =>
    case Not(a) => UnaryFaults(p, st, fr, e, a, 0xD7, f);
    case Negate(a) => UnaryFaults(p, st, fr, e, a, 0xCF, f);
    case Bin(op, l, r) => BinFaults(p, st, fr, e, op, l, r, f);
  }

  lemma {:induction false} UnaryFaults(p: seq<Module>, st: State, fr: Frame, e: Expr, a: Expr, opc: byte, f: G.Frag)
    requires UnaryExpr(e, a, opc)
    requires G.GenExpr(e, fr.env.lev) == Some(f) && !G.Deferred(f.x) && Overfull(p, st, fr, e, f.code, f.peak)
    ensures Leads(p)(st, None)
    decreases e, 0
  {
    UnaryCode(e, a, opc, fr.env.lev, f);
    var g := G.GenLoaded(a, fr.env.lev).value;
    CodeAtParts(p[st.modn].code, st.pc, g.code, [opc]);
    LoadedFaults(p, st, fr, a, g);
  }

  lemma {:induction false} BinFaults(p: seq<Module>, st: State, fr: Frame, e: Expr, op: Op, l: Expr, r: Expr, f: G.Frag)
    requires e == Bin(op, l, r)
    requires G.GenExpr(e, fr.env.lev) == Some(f) && !G.Deferred(f.x) && Overfull(p, st, fr, e, f.code, f.peak)
    ensures Leads(p)(st, None)
    decreases e, 3
  {
    hide WellLaid, Decode, Exec, Eval, Ready, G.Combine, G.ShortCircuit, G.Force, Leads;
    var lev := fr.env.lev;
    var g, h := LeftOperand(op, G.GenExpr(l, lev).value, lev), G.GenExpr(r, lev).value;
    var t := Common(l, TypeOf(l).value, r, TypeOf(r).value).value;
    assert Vars(l) <= Vars(e) && Vars(r) <= Vars(e);
    BinParts(op, l, r, lev, f, g, h, t);
    BinCases(p, st, fr, e, op, l, r, t, g, h, f);
  }

  lemma {:induction false} BinCases(p: seq<Module>, st: State, fr: Frame, e: Expr, op: Op, l: Expr, r: Expr, t: Typ, g: G.Frag, h: G.Frag, f: G.Frag)
    requires l < e && r < e && TypeOf(l).Some? && TypeOf(r).Some? && Vars(r) <= fr.s.Keys && AllEvaluated(r)
    requires G.Combine(op, g, h, fr.env.lev) == Some(f) && G.OperandTyp(g.x, h.x) == Some(t) && !(g.x.ConM? && h.x.ConM?)
    requires g.x.ConM? ==> (op == Times || op == Plus) && Describes(g, l, TypeOf(l).value)
    requires !g.x.ConM? ==> G.GenLoaded(l, fr.env.lev) == Some(g) && g.peak >= 1
    requires G.GenExpr(r, fr.env.lev) == Some(h) && Describes(h, r, TypeOf(r).value) && Overfull(p, st, fr, l, f.code, f.peak)
    ensures Leads(p)(st, None)
    decreases e, 2
  {
    hide WellLaid, Decode, Exec, Eval, Ready, G.Combine, G.ShortCircuit, Leads, Goods, G.GenExpr;
    var lev := fr.env.lev;
    match ShapeOf(op, t, g.x, h.x)
    case Plain =>
      CombinePlain(op, g, h, lev, f, t);
      PlainFaults(p, st, fr, e, l, r, g, G.Force(h, lev).value, [G.Opcode(op, t)]);
    case Shifted(n, opc, bop) =>
      CombineShifted(op, g, h, lev, f, t, n, opc, bop);
      LitBehindFaults(p, st, fr, e, l, g, n, [opc]);
    case Swapped(n, opc, bop) =>
      CombineSwapped(op, g, h, lev, f, t, n, opc, bop);
      LitBehindFaults(p, st, fr, e, r, G.Force(h, lev).value, n, [opc]);
  }

  /** Two operands, of which the first or the second needs too much. */
  lemma {:induction false} PlainFaults(p: seq<Module>, st: State, fr: Frame, e: Expr, l: Expr, r: Expr, g: G.Frag, h: G.Frag, opc: seq<byte>)
    requires l < e && r < e && G.GenLoaded(l, fr.env.lev) == Some(g) && G.GenLoaded(r, fr.env.lev) == Some(h)
    requires Overfull(p, st, fr, l, g.code + h.code + opc, G.Max(g.peak, 1 + h.peak)) && TypeOf(r).Some? && Vars(r) <= fr.s.Keys && AllEvaluated(r)
    ensures Leads(p)(st, None)
    decreases e, 1
  {
    hide WellLaid, Decode, Exec, Eval, G.GenExpr, Leads, Wrap, CodeAt, G.GenLoaded, Encode, TypeOf, G.Combine, G.ShortJumpsFit,
         AllEvaluated, Vars, Runnable;
    ForcedPeak(l, fr.env.lev, g);
    CodeAtParts(p[st.modn].code, st.pc, g.code + h.code, opc);
    CodeAtParts(p[st.modn].code, st.pc, g.code, h.code);
    if |st.es| + g.peak > EXS_SIZE {
      LoadedFaults(p, st, fr, l, g);
    } else {
      EvaluatedFits(l, fr.env.lev);
      LoadedRuns(p, st, fr, l, g);
      var a := EncodeResult(Eval(l, fr.s));
      if a.Some? {
        var one := Pushed(st, |g.code|, a.value);
        LoadedFaults(p, one, fr, r, h);
        LeadsOn(p, st, one, None);
      }
    }
  }

  /** An operand and a literal. */
  lemma {:induction false} LitBehindFaults(p: seq<Module>, st: State, fr: Frame, e: Expr, l: Expr, g: G.Frag, n: word, opc: seq<byte>)
    requires l < e && G.GenLoaded(l, fr.env.lev) == Some(g)
    requires Overfull(p, st, fr, l, g.code + G.LitCode(n) + opc, G.Max(g.peak, 2))
    ensures Leads(p)(st, None)
    decreases e, 1
  {
    hide WellLaid, Decode, Exec, Eval, G.GenExpr, Leads, G.LitCode;
    ForcedPeak(l, fr.env.lev, g);
    CodeAtParts(p[st.modn].code, st.pc, g.code + G.LitCode(n), opc);
    CodeAtParts(p[st.modn].code, st.pc, g.code, G.LitCode(n));
    if |st.es| + g.peak > EXS_SIZE {
      LoadedFaults(p, st, fr, l, g);
    } else {
      EvaluatedFits(l, fr.env.lev);
      LoadedRuns(p, st, fr, l, g);
      var a := EncodeResult(Eval(l, fr.s));
      if a.Some? {
        var one := Pushed(st, |g.code|, a.value);
        LitFaults(p, one, n);
        LeadsOn(p, st, one, None);
      }
    }
  }

  /** Accepted code for an expression without AND and OR, with words waiting on the stack: it yields the
      expression's value if the words that the generator has counted fit the 15 of the machine. If they
      do not, which means that they are 16, it always faults. */
  lemma {:induction false} StackLimit(p: seq<Module>, st: State, fr: Frame, e: Expr, c: seq<byte>)
    requires AllEvaluated(e) && TypeOf(e).Some? && Vars(e) <= fr.s.Keys && |st.es| <= EXS_SIZE
    requires Goods()(fr) && Like(fr, st) && ValueCode(e, fr.env.lev, |st.es|) == Some(c) && Ready(p, st, c)
    ensures var g := G.GenLoaded(e, fr.env.lev).value;
            if |st.es| + g.peak <= EXS_SIZE then Yields(p, st, |c|, EncodeResult(Eval(e, fr.s)))
            else |st.es| + g.peak == STACK_DEPTH && Leads(p)(st, None)
  {
    assert Good(fr);
    hide WellLaid, Decode, Exec, Eval, G.GenExpr, Leads, G.GenLoaded;
    var g := G.GenLoaded(e, fr.env.lev).value;
    if |st.es| + g.peak <= EXS_SIZE {
      EvaluatedFits(e, fr.env.lev);
      LoadedRuns(p, st, fr, e, g);
    } else {
      LoadedFaults(p, st, fr, e, g);
    }
  }
}
