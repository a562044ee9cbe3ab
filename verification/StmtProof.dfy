/** Compiled statements simulate the source statements. */
module StmtProof {
  import opened Words
  import opened Options
  import opened MCode
  import opened Machines
  import opened Runs
  import opened Lang
  import opened StmtLang
  import opened ExprMeaning
  import opened ExprProof
  import opened Blocks
  import opened StmtGen
  import G = ExprGen

  // ------------------------------------------------------------- code in place

  lemma {:induction false} ReadyParts(p: seq<Module>, st: State, a: seq<byte>, b: seq<byte>)
    requires Ready(p, st, a + b)
    ensures Ready(p, st, a) && st.pc + |a| + |b| < 0x1_0000 && Ready(p, st.(pc := st.pc + |a|), b)
  {
    CodeAtParts(p[st.modn].code, st.pc, a, b);
  }

  /** Whether code is ready depends only on where the machine stands. */
  lemma {:induction false} SamePlace(p: seq<Module>, a: State, b: State, c: seq<byte>)
    requires Ready(p, a, c) && a.modn == b.modn && a.pc == b.pc
    ensures Ready(p, b, c) && 0 < a.pc
  {
  }

  // --------------------------------------------------------------------- jumps

  lemma {:induction false} Op4(p: seq<Module>, st: State, b: byte, x: byte, m: byte, n: byte, i: Instr)
    requires Ready(p, st, [b, x, m, n]) && (b == 0xC0 || b == 0xC1)
    requires DecodeThree(b, x, m, n, st.pc + 1) == Some(i)
    ensures Decode(p[st.modn].code, st.pc) == Some(Decoded(i, st.pc + 4))
  {
    hide DecodePlain, DecodeByte, DecodeTwo, DecodeThree, Exec, Ready, CodeAt;
    FourBytes(p, st, b, x, m, n);
    LongestForm(b, x, m, st.pc + 1);
  }

  lemma {:induction false} FourBytes(p: seq<Module>, st: State, b: byte, x: byte, m: byte, n: byte)
    requires Ready(p, st, [b, x, m, n])
    ensures st.modn < |p| && st.pc as int + 4 <= |p[st.modn].code| < 0x1_0000
    ensures var code := p[st.modn].code; code[st.pc] == b && code[st.pc + 1] == x && code[st.pc + 2] == m && code[st.pc + 3] == n
  {
    CodeAtByte(p[st.modn].code, st.pc, [b, x, m, n], 0);
    CodeAtByte(p[st.modn].code, st.pc, [b, x, m, n], 1);
    CodeAtByte(p[st.modn].code, st.pc, [b, x, m, n], 2);
    CodeAtByte(p[st.modn].code, st.pc, [b, x, m, n], 3);
  }

  /** FOR1 and FOR2 have no shorter form. */
  lemma {:induction false} LongestForm(b: byte, x: byte, m: byte, at: word)
    requires b == 0xC0 || b == 0xC1
    ensures DecodePlain(b) == None && DecodeByte(b, x, at) == None && DecodeTwo(b, x, m, at) == None
  {
  }

  /** One unconditional jump is one step. */
  lemma {:induction false} JumpStep(p: seq<Module>, st: State, i: Instr, k: nat)
    requires st.modn < |p| && 0 < st.pc && st.pc + k < 0x1_0000 && i.Jump?
    requires Decode(p[st.modn].code, st.pc) == Some(Decoded(i, st.pc + k))
    ensures Machine(p)(st) == Some(st.(pc := i.to))
    ensures Leads(p)(st, Some(st.(pc := i.to)))
  {
    StepIsEffect(p, st, Decoded(i, st.pc + k));
    assert Exec(p, Skip(st, k), i) == ExecJump(Skip(st, k), i);
    Take(p, st, i, k, Some(st.(pc := i.to)));
  }

  /** JP with displacement d, counted from its operand. */
  lemma {:induction false} FarJumpStep(p: seq<Module>, st: State, d: int, to: word)
    requires Ready(p, st, FarJump(0x19, d)) && to == Wrap(st.pc + 1 + Wrap(d))
    ensures Machine(p)(st) == Some(st.(pc := to)) && Leads(p)(st, Some(st.(pc := to)))
  {
    hide Exec, CodeAt, Decode, Wrap;
    var w := Bytes(Wrap(d));
    JoinBytes(Wrap(d));
    assert FarJump(0x19, d) == [0x19, w[0], w[1]];
    Op3(p, st, 0x19, w[0], w[1], Jump(to));
    JumpStep(p, st, Jump(to), 3);
  }

  lemma {:induction false} WrapBack(x: int, d: int)
    requires 0 <= d <= x < 0x1_0000
    ensures Wrap(x + Wrap(-d)) == x - d
  {
    if d == 0 {
      assert Wrap(0) == 0;
    } else {
      assert Wrap(-d) == 0x1_0000 - d;
    }
  }

  /** Both forms of the backward jump go back exactly n bytes. */
  lemma {:induction false} BackJumpStep(p: seq<Module>, st: State, n: nat)
    requires Ready(p, st, BackJump(0x1D, 0x19, n)) && n < st.pc
    ensures Machine(p)(st) == Some(st.(pc := st.pc - n)) && Leads(p)(st, Some(st.(pc := st.pc - n)))
  {
    if n < 0xFF {
      Op2(p, st, 0x1D, n + 1, Jump(st.pc - n));
      JumpStep(p, st, Jump(st.pc - n), 2);
    } else {
      WrapBack(st.pc + 1, n + 1);
      FarJumpStep(p, st, -(n + 1), st.pc - n);
    }
  }

  /** A conditional jump over k bytes of code with the condition on the stack. */
  lemma {:induction false} CondJumpTakes(p: seq<Module>, st: State, i: Instr, k: nat, w: word)
    requires st.modn < |p| && 0 < st.pc && st.pc + k < 0x1_0000 && i.JumpFalse? && st.es == [w]
    requires Decode(p[st.modn].code, st.pc) == Some(Decoded(i, st.pc + k))
    ensures var to := if w == 0 then i.to else st.pc + k;
            && Machine(p)(st) == Some(st.(pc := to, es := []))
            && Leads(p)(st, Some(st.(pc := to, es := [])))
  {
    var to := if w == 0 then i.to else st.pc + k;
    StepIsEffect(p, st, Decoded(i, st.pc + k));
    assert Pop(Skip(st, k), 1).es == [];
    assert Exec(p, Skip(st, k), i) == ExecJump(Skip(st, k), i);
    Take(p, st, i, k, Some(st.(pc := to, es := [])));
  }

  // ------------------------------------------------------------ conditions

  /** What is assumed of an expression in a statement: it is well typed, its short jumps fit,
      and it stays within the 15 words of the emulator's expression stack. */
  ghost predicate ExprFits(e: Expr, env: Env, base: nat) {
    && TypeOf(e).Some? && Vars(e) <= env.vars && G.ShortJumpsFit(e, env.lev)
    && (G.GenLoaded(e, env.lev).Some? ==> base + G.GenLoaded(e, env.lev).value.peak <= EXS_SIZE)
  }

  /** The expression fits, and c is the code that pushes its value over `base` pending words. */
  ghost predicate ValuePrepared(env: Env, e: Expr, base: nat, c: seq<byte>) {
    ExprFits(e, env, base) && ValueCode(e, env.lev, base) == Some(c)
  }

  /** `ValuePrepared`, exposed to the solver one instance at a time. */
  ghost function Prepared(): (f: (Env, Expr, nat, seq<byte>) -> bool)
    ensures forall env, e, base: nat, c {:trigger ValuePrepared(env, e, base, c)} ::
              f(env, e, base, c) == ValuePrepared(env, e, base, c)
  {
    assert PreparedGraph((env, e, base: nat, c) => ValuePrepared(env, e, base, c));
    var f: (Env, Expr, nat, seq<byte>) -> bool :| PreparedGraph(f);
    f
  }

  ghost predicate PreparedGraph(f: (Env, Expr, nat, seq<byte>) -> bool) {
    forall env, e, base: nat, c {:trigger ValuePrepared(env, e, base, c)} ::
      f(env, e, base, c) == ValuePrepared(env, e, base, c)
  }

  lemma {:induction false} ValueRuns(p: seq<Module>, env: Env, s: Store, st: State, n: nat, at: State, e: Expr, base: nat, c: seq<byte>)
    requires Boundary()(env, s, st, n) && Prepared()(env, e, base, c)
    requires at == st.(pc := at.pc, es := at.es) && |at.es| <= base && Ready(p, at, c)
    ensures Yields(p, at, |c|, EncodeResult(Eval(e, s)))
  {
    BoundaryFacts(env, s, st, n);
    assert ValuePrepared(env, e, base, c);
    LoadedRuns(p, at, Frame(env, s, st), e, G.GenLoaded(e, env.lev).value);
  }

  lemma {:induction false} ValueTyped(env: Env, s: Store, st: State, n: nat, e: Expr, base: nat, c: seq<byte>)
    requires Boundary()(env, s, st, n) && Prepared()(env, e, base, c)
    ensures TypeOf(e).Some? && (Eval(e, s).Some? ==> TypOf(Eval(e, s).value) == TypeOf(e).value)
  {
    BoundaryFacts(env, s, st, n);
    assert ValuePrepared(env, e, base, c);
    EvalTyped(e, s);
  }

  lemma {:induction false} CondParts(env: Env, c: Expr, cc: seq<byte>)
    requires ExprFits(c, env, 0) && IsBool(c) && CondCode(c, env.lev) == Some(cc)
    ensures Prepared()(env, c, 0, cc)
  {
    assert ValuePrepared(env, c, 0, cc);
  }

  /** JPC with displacement d, counted from its operand. */
  lemma {:induction false} FarBranchStep(p: seq<Module>, st: State, d: int, w: word)
    requires Ready(p, st, FarJump(0x18, d)) && st.es == [w]
    ensures var to := if w == 0 then Wrap(st.pc + 1 + Wrap(d)) else st.pc + 3;
            && Machine(p)(st) == Some(st.(pc := to, es := []))
            && Leads(p)(st, Some(st.(pc := to, es := [])))
  {
    hide Exec, CodeAt, Decode, Wrap;
    var b := Bytes(Wrap(d));
    JoinBytes(Wrap(d));
    assert FarJump(0x18, d) == [0x18, b[0], b[1]];
    var i := JumpFalse(Wrap(st.pc + 1 + Wrap(d)));
    Op3(p, st, 0x18, b[0], b[1], i);
    CondJumpTakes(p, st, i, 3, w);
  }

  lemma {:induction false} CondRuns(p: seq<Module>, env: Env, s: Store, st: State, n: nat, c: Expr, cc: seq<byte>)
    requires Boundary()(env, s, st, n) && IsBool(c) && Prepared()(env, c, 0, cc) && Ready(p, st, cc)
    ensures st.es == [] && Yields(p, st, |cc|, EncodeResult(Eval(c, s)))
    ensures Eval(c, s).Some? ==> Eval(c, s).value.B?
  {
    BoundaryFacts(env, s, st, n);
    ValueRuns(p, env, s, st, n, st, c, 0, cc);
    ValueTyped(env, s, st, n, c, 0, cc);
  }

  /** A condition and a conditional jump by d: on to the next code when the condition holds. */
  lemma {:induction false} BranchFrom(p: seq<Module>, st: State, cc: seq<byte>, d: nat, v: Option<Value>)
    requires st.es == [] && Ready(p, st, cc + FarJump(0x18, d)) && st.pc + |cc| + 1 + d < 0x1_0000
    requires Yields(p, st, |cc|, EncodeResult(v)) && (v.Some? ==> v.value.B?)
    ensures Leads(p)(st, match v
                         case None => None
                         case Some(x) => Some(st.(pc := st.pc + |cc| + if x.b then 3 else 1 + d)))
  {
    CodeAtParts(p[st.modn].code, st.pc, cc, FarJump(0x18, d));
    assert d < 0x1_0000 && Wrap(Wrap(st.pc + |cc|) + 1 + Wrap(d)) == st.pc + |cc| + 1 + d;
    hide CodeAt, Leads, EncodeResult, Wrap;
    if v.Some? {
      var one := Pushed(st, |cc|, Encode(v.value));
      FarBranchStep(p, one, d, Encode(v.value));
      LeadsOn(p, st, one, Some(st.(pc := st.pc + |cc| + if v.value.b then 3 else 1 + d)));
    }
  }

  lemma {:induction false} BranchRuns(p: seq<Module>, env: Env, s: Store, st: State, n: nat, c: Expr, cc: seq<byte>, d: nat)
    requires Boundary()(env, s, st, n) && IsBool(c) && Prepared()(env, c, 0, cc)
    requires Ready(p, st, cc + FarJump(0x18, d)) && st.pc + |cc| + 1 + d < 0x1_0000
    ensures Eval(c, s).Some? ==> Eval(c, s).value.B?
    ensures Leads(p)(st, match Eval(c, s)
                         case None => None
                         case Some(x) => Some(st.(pc := st.pc + |cc| + if x.b then 3 else 1 + d)))
  {
    CodeAtParts(p[st.modn].code, st.pc, cc, FarJump(0x18, d));
    CondRuns(p, env, s, st, n, c, cc);
    BranchFrom(p, st, cc, d, Eval(c, s));
  }

  /** Both forms of the conditional backward jump go back exactly n bytes when the condition fails. */
  lemma {:induction false} CondBackStep(p: seq<Module>, st: State, n: nat, w: word)
    requires Ready(p, st, BackJump(0x1C, 0x18, n)) && n < st.pc && st.es == [w]
    ensures var to := if w == 0 then st.pc - n else st.pc + |BackJump(0x1C, 0x18, n)|;
            && Machine(p)(st) == Some(st.(pc := to, es := []))
            && Leads(p)(st, Some(st.(pc := to, es := [])))
  {
    hide Decode, Exec, DecodeTwo, DecodeThree;
    if n < 0xFF {
      Op2(p, st, 0x1C, n + 1, JumpFalse(st.pc - n));
      CondJumpTakes(p, st, JumpFalse(st.pc - n), 2, w);
    } else {
      WrapBack(st.pc + 1, n + 1);
      FarBranchStep(p, st, -(n + 1), w);
    }
  }

  // ---------------------------------------------------------------- assignments

  lemma {:induction false} StoreLocalRuns(p: seq<Module>, st: State, n: nat, c: seq<byte>, w: word)
    requires G.OpArg(0x30, n) == Some(c) && 4 <= n && st.l + n < MEM_SIZE
    requires Ready(p, st, c) && st.es == [w]
    ensures Leads(p)(st, Some(st.(pc := st.pc + |c|, es := [], mem := st.mem[st.l + n := w])))
  {
    if n < 0x10 {
      Op1(p, st, 0x30 + n, StoreLocal(n));
    } else {
      Op2(p, st, 0x30, n, StoreLocal(n));
    }
    var next := Skip(st, |c|);
    assert Pop(next, 1).es == [];
    assert Exec(p, next, StoreLocal(n)) == Put(Pop(next, 1), next.l + n, w);
    Take(p, st, StoreLocal(n), |c|, Some(st.(pc := st.pc + |c|, es := [], mem := st.mem[st.l + n := w])));
  }

  lemma {:induction false} StoreGlobalRuns(p: seq<Module>, st: State, n: nat, c: seq<byte>, w: word)
    requires G.OpArg(0x50, n) == Some(c) && 2 <= n && st.g + n < MEM_SIZE
    requires Ready(p, st, c) && st.es == [w]
    ensures Leads(p)(st, Some(st.(pc := st.pc + |c|, es := [], mem := st.mem[st.g + n := w])))
  {
    if n < 0x10 {
      Op1(p, st, 0x50 + n, StoreGlobal(n));
    } else {
      Op2(p, st, 0x50, n, StoreGlobal(n));
    }
    var next := Skip(st, |c|);
    assert Pop(next, 1).es == [];
    assert Exec(p, next, StoreGlobal(n)) == Put(Pop(next, 1), next.g + n, w);
    Take(p, st, StoreGlobal(n), |c|, Some(st.(pc := st.pc + |c|, es := [], mem := st.mem[st.g + n := w])));
  }

  lemma {:induction false} StoreStackRuns(p: seq<Module>, st: State, n: nat, c: seq<byte>, b: word, w: word)
    requires G.OpArg1(0x70, n) == Some(c) && n < 0x10 && b + n < MEM_SIZE
    requires Ready(p, st, c) && st.es == [b, w]
    ensures Leads(p)(st, Some(st.(pc := st.pc + |c|, es := [], mem := st.mem[b + n := w])))
  {
    Op1(p, st, 0x70 + n, StoreStack(n));
    var next := Skip(st, |c|);
    assert Pop(next, 2).es == [];
    assert Exec(p, next, StoreStack(n)) == Put(Pop(next, 2), Wrap(Second(next) + n), w);
    Take(p, st, StoreStack(n), |c|, Some(st.(pc := st.pc + |c|, es := [], mem := st.mem[b + n := w])));
  }

  /** Writing a variable's cell is an assignment in the store. */
  lemma {:induction false} AssignMoves(env: Env, s: Store, a: State, n: nat, v: Var, x: Value, pc: word)
    requires Boundary()(env, s, a, n) && v in env.vars && TypOf(x) == v.typ
    requires v.lev < |env.bases| && Address(env, v) < MEM_SIZE
    ensures Moved()(env, a, s[v := x], a.(pc := pc, mem := a.mem[Address(env, v) := Encode(x)]))
  {
    assert AtBoundary(env, s, a, n);
    var b := a.(pc := pc, mem := a.mem[Address(env, v) := Encode(x)]);
    forall k | 2 <= k <= env.lev
      ensures b.mem[env.bases[k] + 1] == env.bases[k - 1]
    {
      assert Address(env, v) != env.bases[k] as int + 1;
    }
    assert VarCell(env, Address(env, v));
    assert MovedTo(env, a, s[v := x], b);
  }

  /** Where a variable lies, seen from a statement boundary. */
  lemma {:induction false} VarPlace(env: Env, s: Store, a: State, n: nat, v: Var)
    requires Boundary()(env, s, a, n) && v in env.vars
    ensures |env.bases| == env.lev + 1 && v.lev <= env.lev
    ensures FirstAdr(v.lev) <= v.adr < 0x100 && Address(env, v) < a.s
    ensures a.g == env.bases[0] && (env.lev > 0 ==> a.l == env.bases[env.lev])
    ensures a.es == []
  {
    assert AtBoundary(env, s, a, n);
  }

  /** The code for the frame of an outer variable pushes its address. */
  lemma {:induction false} OuterBaseRuns(p: seq<Module>, env: Env, s: Store, st: State, n: nat, v: Var)
    requires Boundary()(env, s, st, n) && v in env.vars && 0 < v.lev < env.lev
    requires v.lev < |env.bases| && Ready(p, st, G.BaseCode(env.lev - v.lev))
    ensures Leads(p)(st, Some(Pushed(st, |G.BaseCode(env.lev - v.lev)|, env.bases[v.lev])))
  {
    assert AtBoundary(env, s, st, n);
    BaseRuns(p, st, env, env.lev - v.lev);
  }

  /** An assignment to an outer procedure's variable uses SSW, whose long form the emulator
      does not execute. */
  predicate Storable(v: Var, lev: nat) {
    0 < v.lev < lev ==> v.adr < 0x10
  }

  /** The state after an assignment of an expression's value. */
  function AfterAssign(st: State, a: int, k: nat, v: Option<Value>): Option<State>
    requires 0 <= a < MEM_SIZE && st.pc + k < 0x1_0000
  {
    match v
    case None => None
    case Some(x) => Some(st.(pc := st.pc + k, mem := st.mem[a := Encode(x)]))
  }

  /** The three parts of an assignment's code: the frame address of an outer variable, the
      value, and the store. */
  lemma {:induction false} AssignParts(env: Env, v: Var, e: Expr, c: seq<byte>) returns (cb: seq<byte>, ce: seq<byte>, cs: seq<byte>)
    requires AssignCode(v, e, env.lev) == Some(c)
    ensures c == cb + ce + cs && AssignedCode(v.typ, e, env.lev, if 0 < v.lev < env.lev then 1 else 0) == Some(ce)
    ensures cb == if 0 < v.lev < env.lev then G.BaseCode(env.lev - v.lev) else []
    ensures Some(cs) == if v.lev == 0 then G.OpArg(0x50, v.adr) else if v.lev == env.lev then G.OpArg(0x30, v.adr)
                        else G.OpArg1(0x70, v.adr)
  {
    hide AssignedCode, G.OpArg, G.OpArg1, Decode, Exec;
    var base := if 0 < v.lev < env.lev then 1 else 0;
    cb := if 0 < v.lev < env.lev then G.BaseCode(env.lev - v.lev) else [];
    ce := AssignedCode(v.typ, e, env.lev, base).value;
    cs := if v.lev == 0 then G.OpArg(0x50, v.adr).value
          else if v.lev == env.lev then G.OpArg(0x30, v.adr).value else G.OpArg1(0x70, v.adr).value;
    assert [] + ce + cs == ce + cs;
  }

  /** The value of e where a value of type t is wanted. */
  function AssignedTo(t: Typ, e: Expr, s: Store): Option<Value> {
    var x :- Eval(e, s);
    Converted(x, t)
  }

  /** CHKS lets a word below 2^15 pass. */
  lemma {:induction false} SignRuns(p: seq<Module>, st: State, k: nat, w: Option<word>)
    requires Yields(p, st, k, w) && Ready(p, Skip(st, k), [0xC7])
    ensures Yields(p, st, k + 1, match w case None => None case Some(x) => if x >= 0x8000 then None else w)
  {
    if w.Some? {
      var one := Pushed(st, k, w.value);
      Op1(p, one, 0xC7, CheckSign);
      var r := if w.value >= 0x8000 then None else Some(Skip(one, 1));
      assert Exec(p, Skip(one, 1), CheckSign) == r;
      Take(p, one, CheckSign, 1, r);
      LeadsOn(p, st, one, r);
    }
  }

  function SignChecked(check: bool, w: word): Option<word> {
    if check && w >= 0x8000 then None else Some(w)
  }

  /** The code for a value of type t is the code for the value, and CHKS where it may be of the
      other type. */
  lemma {:induction false} AssignedParts(env: Env, s: Store, st: State, n: nat, t: Typ, e: Expr, base: nat, c: seq<byte>) returns (cv: seq<byte>)
    requires Boundary()(env, s, st, n) && ExprFits(e, env, base) && AssignedCode(t, e, env.lev, base) == Some(c)
    ensures Prepared()(env, e, base, cv) && (c == cv || c == cv + [0xC7])
    ensures var v := Eval(e, s);
            v.Some? ==> EncodeResult(Converted(v.value, t)) == SignChecked(c != cv, Encode(v.value))
  {
    hide Decode, Exec, WellLaid, G.GenExpr, CodeAt;
    var f := G.GenExpr(e, env.lev).value;
    cv := ValueCode(e, env.lev, base).value;
    assert ValuePrepared(env, e, base, cv);
    GenDescribes(e, env.lev, f);
    BoundaryFacts(env, s, st, n);
    EvalTyped(e, s);
    if Eval(e, s).Some? {
      ConvertedWord(Eval(e, s).value, t);
    }
  }

  lemma {:induction false} ConvertedWord(x: Value, t: Typ)
    ensures TypOf(x) == t ==> Converted(x, t) == Some(x)
    ensures TypOf(x) != t && t != Bool && !x.B? ==> EncodeResult(Converted(x, t)) == SignChecked(true, Encode(x))
    ensures Converted(x, t).Some? ==> TypOf(Converted(x, t).value) == t && Encode(Converted(x, t).value) == Encode(x)
  {
  }

  lemma {:induction false} AssignedRuns(p: seq<Module>, env: Env, s: Store, st: State, n: nat, at: State, t: Typ, e: Expr, base: nat, c: seq<byte>)
    requires Boundary()(env, s, st, n) && ExprFits(e, env, base) && AssignedCode(t, e, env.lev, base) == Some(c)
    requires at == st.(pc := at.pc, es := at.es) && |at.es| <= base && Ready(p, at, c)
    ensures Yields(p, at, |c|, EncodeResult(AssignedTo(t, e, s)))
  {
    hide Decode, Exec, WellLaid, ExprFits, AssignedCode, Converted, CodeAt;
    var cv := AssignedParts(env, s, st, n, t, e, base, c);
    if c == cv {
      ValueRuns(p, env, s, st, n, at, e, base, cv);
    } else {
      ReadyParts(p, at, cv, [0xC7]);
      ValueRuns(p, env, s, st, n, at, e, base, cv);
      SignRuns(p, at, |cv|, EncodeResult(Eval(e, s)));
    }
  }

  lemma {:induction false} AssignRuns(p: seq<Module>, env: Env, s: Store, st: State, n: nat, v: Var, e: Expr, c: seq<byte>)
    requires Boundary()(env, s, st, n) && v in env.vars && Storable(v, env.lev)
    requires ExprFits(e, env, if 0 < v.lev < env.lev then 1 else 0)
    requires AssignCode(v, e, env.lev) == Some(c) && Ready(p, st, c)
    requires v.lev < |env.bases| && Address(env, v) < MEM_SIZE
    ensures st.pc + |c| < 0x1_0000
    ensures Leads(p)(st, AfterAssign(st, Address(env, v), |c|, AssignedTo(v.typ, e, s)))
  {
    hide Decode, Exec, WellLaid, ExprFits, AssignedCode, AssignedTo;
    var cb, ce, cs := AssignParts(env, v, e, c);
    if 0 < v.lev < env.lev {
      AssignOuterRuns(p, env, s, st, n, v, e, cb, ce, cs);
    } else {
      VarPlace(env, s, st, n, v);
      assert c == ce + cs;
      AssignNearRuns(p, env, s, st, n, v, e, ce, cs);
    }
  }

  lemma {:induction false} AssignNearRuns(p: seq<Module>, env: Env, s: Store, st: State, n: nat, v: Var, e: Expr, ce: seq<byte>, cs: seq<byte>)
    requires Boundary()(env, s, st, n) && v in env.vars && (v.lev == 0 || v.lev == env.lev)
    requires ExprFits(e, env, 0) && AssignedCode(v.typ, e, env.lev, 0) == Some(ce) && Ready(p, st, ce + cs)
    requires Some(cs) == G.OpArg(if v.lev == 0 then 0x50 else 0x30, v.adr)
    requires v.lev < |env.bases| && Address(env, v) < MEM_SIZE
    ensures st.pc + |ce + cs| < 0x1_0000
    ensures Leads(p)(st, AfterAssign(st, Address(env, v), |ce + cs|, AssignedTo(v.typ, e, s)))
  {
    hide Decode, Exec, WellLaid, ExprFits, AssignedCode, AssignedTo;
    VarPlace(env, s, st, n, v);
    CodeAtParts(p[st.modn].code, st.pc, ce, cs);
    AssignedRuns(p, env, s, st, n, st, v.typ, e, 0, ce);
    if AssignedTo(v.typ, e, s).Some? {
      StoreNearRuns(p, st, |ce|, v.lev == 0, v.adr, cs, Encode(AssignedTo(v.typ, e, s).value));
    }
  }

  lemma {:induction false} StoreNearRuns(p: seq<Module>, st: State, k: nat, global: bool, n: nat, c: seq<byte>, w: word)
    requires st.pc + k < 0x1_0000 && Yields(p, st, k, Some(w)) && st.es == []
    requires G.OpArg(if global then 0x50 else 0x30, n) == Some(c) && 4 <= n + (if global then 2 else 0)
    requires (if global then st.g else st.l) + n < MEM_SIZE
    requires Ready(p, Skip(st, k), c)
    ensures Leads(p)(st, Some(st.(pc := st.pc + k + |c|, mem := st.mem[(if global then st.g else st.l) + n := w])))
  {
    var one := Pushed(st, k, w);
    if global {
      StoreGlobalRuns(p, one, n, c, w);
    } else {
      StoreLocalRuns(p, one, n, c, w);
    }
    LeadsOn(p, st, one, Some(st.(pc := st.pc + k + |c|, mem := st.mem[(if global then st.g else st.l) + n := w])));
  }

  lemma {:induction false} AssignOuterRuns(p: seq<Module>, env: Env, s: Store, st: State, n: nat, v: Var, e: Expr,
                        cb: seq<byte>, ce: seq<byte>, cs: seq<byte>)
    requires Boundary()(env, s, st, n) && v in env.vars && Storable(v, env.lev) && 0 < v.lev < env.lev
    requires ExprFits(e, env, 1) && AssignedCode(v.typ, e, env.lev, 1) == Some(ce) && Ready(p, st, cb + ce + cs)
    requires cb == G.BaseCode(env.lev - v.lev) && Some(cs) == G.OpArg1(0x70, v.adr)
    requires v.lev < |env.bases| && Address(env, v) < MEM_SIZE
    ensures st.pc + |cb + ce + cs| < 0x1_0000
    ensures Leads(p)(st, AfterAssign(st, Address(env, v), |cb + ce + cs|, AssignedTo(v.typ, e, s)))
  {
    hide Decode, Exec, WellLaid, ExprFits, AssignedCode, AssignedTo;
    VarPlace(env, s, st, n, v);
    CodeAtParts(p[st.modn].code, st.pc, cb + ce, cs);
    CodeAtParts(p[st.modn].code, st.pc, cb, ce);
    OuterBaseRuns(p, env, s, st, n, v);
    var one := Pushed(st, |cb|, env.bases[v.lev]);
    AssignedRuns(p, env, s, st, n, one, v.typ, e, 1, ce);
    if AssignedTo(v.typ, e, s).Some? {
      StoreOuterRuns(p, st, one, |ce|, v.adr, cs, env.bases[v.lev], Encode(AssignedTo(v.typ, e, s).value));
    } else {
      LeadsOn(p, st, one, None);
    }
  }

  lemma {:induction false} StoreOuterRuns(p: seq<Module>, st: State, one: State, k: nat, n: nat, c: seq<byte>, b: word, w: word)
    requires st.es == [] && one == st.(pc := one.pc, es := [b]) && Leads(p)(st, Some(one))
    requires one.pc + k < 0x1_0000 && Yields(p, one, k, Some(w))
    requires G.OpArg1(0x70, n) == Some(c) && n < 0x10 && b + n < MEM_SIZE && Ready(p, Skip(one, k), c)
    ensures Leads(p)(st, Some(st.(pc := one.pc + k + |c|, mem := st.mem[b + n := w])))
  {
    var two := Pushed(one, k, w);
    LeadsOn(p, st, one, Some(two));
    StoreStackRuns(p, two, n, c, b, w);
    LeadsOn(p, st, two, Some(st.(pc := one.pc + k + |c|, mem := st.mem[b + n := w])));
  }

  lemma {:induction false} AssignSimulates(p: seq<Module>, env: Env, s: Store, st: State, n: nat, v: Var, e: Expr, c: seq<byte>, fuel: nat, exit: int)
    requires Boundary()(env, s, st, n) && v in env.vars && Storable(v, env.lev)
    requires ExprFits(e, env, if 0 < v.lev < env.lev then 1 else 0)
    requires AssignCode(v, e, env.lev) == Some(c) && Ready(p, st, c)
    ensures Simulates(p)(env, st, Perform(Assign(v, e), s, fuel), fuel, st.pc + |c|, exit)
  {
    hide WellLaid, Represents, Decode, Exec, CodeAt, Eval, AssignCode, Converted, ExprFits;
    VarPlace(env, s, st, n, v);
    AssignRuns(p, env, s, st, n, v, e, c);
    var x := AssignedTo(v.typ, e, s);
    if x.Some? {
      ConvertedWord(Eval(e, s).value, v.typ);
      AssignMoves(env, s, st, n, v, x.value, st.pc + |c|);
      ArriveDone(p, env, st, s[v := x.value], st.(pc := st.pc + |c|, mem := st.mem[Address(env, v) := Encode(x.value)]),
                 fuel, st.pc + |c|, exit);
    } else {
      ArriveTrapped(p, env, st, fuel, st.pc + |c|, exit);
    }
  }
}
