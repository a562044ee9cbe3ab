/** Compiled expressions push the value of the source expression. */
module ExprProof {
  import opened Words
  import opened Options
  import opened MCode
  import opened Machines
  import opened Runs
  import opened Lang
  import opened ExprMeaning
  import G = ExprGen

  // -------------------------------------------------------- single instructions

  /** The next bytes the machine fetches are frag. */
  predicate Ready(p: seq<Module>, st: State, frag: seq<byte>) {
    && st.modn < |p| && 0 < st.pc
    && |p[st.modn].code| < 0x1_0000
    && CodeAt(p[st.modn].code, st.pc, frag)
  }

  /** The state k bytes of code later. */
  function Skip(st: State, k: nat): State
    requires st.pc + k < 0x1_0000
  {
    st.(pc := st.pc + k)
  }

  /** The state k bytes of code later, with one more word on the expression stack. */
  function Pushed(st: State, k: nat, w: word): State
    requires st.pc + k < 0x1_0000
  {
    st.(pc := st.pc + k, es := st.es + [w])
  }

  lemma {:induction false} Op1(p: seq<Module>, st: State, b: byte, i: Instr)
    requires Ready(p, st, [b]) && DecodePlain(b) == Some(i)
    ensures Decode(p[st.modn].code, st.pc) == Some(Decoded(i, st.pc + 1))
  {
    hide DecodePlain, DecodeByte, DecodeTwo, DecodeThree, Exec;
    CodeAtByte(p[st.modn].code, st.pc, [b], 0);
  }

  lemma {:induction false} Op2(p: seq<Module>, st: State, b: byte, n: byte, i: Instr)
    requires Ready(p, st, [b, n])
    requires DecodePlain(b) == None && DecodeByte(b, n, st.pc + 1) == Some(i)
    ensures Decode(p[st.modn].code, st.pc) == Some(Decoded(i, st.pc + 2))
  {
    hide DecodePlain, DecodeByte, DecodeTwo, DecodeThree, Exec;
    CodeAtByte(p[st.modn].code, st.pc, [b, n], 0);
    CodeAtByte(p[st.modn].code, st.pc, [b, n], 1);
  }

  lemma {:induction false} Op3(p: seq<Module>, st: State, b: byte, m: byte, n: byte, i: Instr)
    requires Ready(p, st, [b, m, n])
    requires DecodePlain(b) == None && DecodeByte(b, m, st.pc + 1) == None
    requires DecodeTwo(b, m, n, st.pc + 1) == Some(i)
    ensures Decode(p[st.modn].code, st.pc) == Some(Decoded(i, st.pc + 3))
  {
    hide DecodePlain, DecodeByte, DecodeTwo, DecodeThree, Exec;
    CodeAtByte(p[st.modn].code, st.pc, [b, m, n], 0);
    CodeAtByte(p[st.modn].code, st.pc, [b, m, n], 1);
    CodeAtByte(p[st.modn].code, st.pc, [b, m, n], 2);
  }

  /** One instruction of k bytes. */
  lemma {:induction false} Take(p: seq<Module>, st: State, i: Instr, k: nat, o: Option<State>)
    requires st.modn < |p| && 0 < st.pc && st.pc + k < 0x1_0000
    requires Decode(p[st.modn].code, st.pc) == Some(Decoded(i, st.pc + k))
    requires Effect(p)(Skip(st, k), i) == o
    ensures Leads(p)(st, o)
  {
    LeadsByEffect(p, st, Decoded(i, st.pc + k), o);
  }

  /** An instruction that pushes one word and does nothing else. */
  lemma {:induction false} TakePush(p: seq<Module>, st: State, i: Instr, k: nat, w: word)
    requires st.modn < |p| && 0 < st.pc && st.pc + k < 0x1_0000 && |st.es| < EXS_SIZE
    requires Decode(p[st.modn].code, st.pc) == Some(Decoded(i, st.pc + k))
    requires Effect(p)(Skip(st, k), i) == PushWord(Skip(st, k), w)
    ensures Leads(p)(st, Some(Pushed(st, k, w)))
  {
    hide Decode, Exec;
    Take(p, st, i, k, Some(Pushed(st, k, w)));
  }

  lemma {:induction false} PushLit(p: seq<Module>, st: State, n: word)
    requires Ready(p, st, G.LitCode(n)) && |st.es| < EXS_SIZE
    ensures Leads(p)(st, Some(Pushed(st, |G.LitCode(n)|, n)))
  {
    hide Decode, G.LitCode, CodeAt, Leads;
    LitDecodes(p, st, n);
    var k := |G.LitCode(n)|;
    assert Exec(p, Skip(st, k), Push(n)) == PushWord(Skip(st, k), n);
    TakePush(p, st, Push(n), k, n);
  }

  /** Each form of a literal is decoded as pushing its value. */
  lemma {:induction false} LitDecodes(p: seq<Module>, st: State, n: word)
    requires Ready(p, st, G.LitCode(n))
    ensures st.pc + |G.LitCode(n)| < 0x1_0000 && Decode(p[st.modn].code, st.pc) == Some(Decoded(Push(n), st.pc + |G.LitCode(n)|))
  {
    hide Decode, Exec, Wrap, DecodeThree, Ready, CodeAt;
    if n < 0x10 {
      Op1(p, st, n, Push(n));
    } else if n < 0x100 {
      Op2(p, st, 0x10, n, Push(n));
    } else if n == 0xFFFF {
      Op1(p, st, 0xD5, Push(n));
    } else {
      var s := Bytes(n);
      JoinBytes(n);
      assert G.LitCode(n) == [0x12, s[0], s[1]];
      Op3(p, st, 0x12, s[0], s[1], Push(n));
    }
  }

  /** A binary operation on the two top words. */
  lemma {:induction false} BinaryRuns(p: seq<Module>, st: State, b: byte, op: BinaryOp, rest: seq<word>, i: word, j: word)
    requires Ready(p, st, [b]) && DecodePlain(b) == Some(Binary(op))
    requires st.es == rest + [i, j]
    ensures |rest| < EXS_SIZE ==>
      Leads(p)(st, match Apply(op, i, j) case None => None case Some(w) => Some(st.(pc := st.pc + 1, es := rest + [w])))
  {
    Op1(p, st, b, Binary(op));
    assert Pop(Skip(st, 1), 2).es == rest;
    var r := Apply(op, i, j);
    BinaryEffect(p, Skip(st, 1), op, rest, i, j, r);
    if |rest| < EXS_SIZE {
      Take(p, st, Binary(op), 1, if r == None then None else Some(st.(pc := st.pc + 1, es := rest + [r.value])));
    }
  }

  lemma {:induction false} BinaryEffect(p: seq<Module>, st: State, op: BinaryOp, rest: seq<word>, i: word, j: word, r: Option<word>)
    requires st.modn < |p| && st.es == rest + [i, j] && r == Apply(op, i, j)
    ensures match r
            case None => Effect(p)(st, Binary(op)) == None
            case Some(w) => |rest| < EXS_SIZE ==> Effect(p)(st, Binary(op)) == Some(st.(es := rest + [w]))
  {
    assert Second(st) == i && Top(st) == j;
    Replaced(st, rest, i, j, r);
    assert Exec(p, st, Binary(op)) == ExecBinary(st, op);
  }

  lemma {:induction false} Replaced(st: State, rest: seq<word>, i: word, j: word, r: Option<word>)
    requires st.es == rest + [i, j]
    ensures match r
            case None => Replace2(st, r) == None
            case Some(w) => |rest| < EXS_SIZE ==> Replace2(st, r) == Some(st.(es := rest + [w]))
  {
    assert Pop(st, 2).es == rest;
  }

  // ------------------------------------------------------------------ variables

  /** The frames a piece of code sees: bases[0] is the module's data frame, bases[k] the
      frame of the enclosing activation at level k; lev is the running level. */
  datatype Env = Env(lev: nat, bases: seq<word>, vars: set<Var>)

  function Address(env: Env, v: Var): int
    requires v.lev < |env.bases|
  {
    env.bases[v.lev] + v.adr
  }

  /** The compiler hands out addresses from 3 in data frames and from 4 in procedure frames. */
  function FirstAdr(lev: nat): nat {
    if lev == 0 then 3 else 4
  }

  ghost predicate WellLaid(env: Env) {
    && |env.bases| == env.lev + 1 && env.lev < 0x100
    && (forall v :: v in env.vars ==>
          v.lev <= env.lev && FirstAdr(v.lev) <= v.adr < 0x100 && Address(env, v) < MEM_SIZE)
    && (forall v, w :: v in env.vars && w in env.vars && v != w ==> Address(env, v) != Address(env, w))
    && (forall v, k :: v in env.vars && 2 <= k <= env.lev ==> Address(env, v) != env.bases[k] as int + 1)
  }

  /** Each frame's second word leads to the frame one level out. */
  ghost predicate Linked(env: Env, mem: memory)
    requires |env.bases| == env.lev + 1
  {
    forall k :: 2 <= k <= env.lev ==>
      env.bases[k] + 1 < MEM_SIZE && mem[env.bases[k] + 1] == env.bases[k - 1]
  }

  /** The machine state represents the store. */
  ghost predicate Represents(env: Env, s: Store, st: State)
    requires WellLaid(env)
  {
    && st.g == env.bases[0] && (env.lev > 0 ==> st.l == env.bases[env.lev])
    && Linked(env, st.mem)
    && s.Keys == env.vars && Typed(s)
    && forall v :: v in env.vars ==> st.mem[Address(env, v)] == Encode(s[v])
  }

  lemma {:induction false} ChainFollowsBases(env: Env, mem: memory, k: nat, n: nat)
    requires |env.bases| == env.lev + 1 && Linked(env, mem)
    requires n < k <= env.lev
    ensures Chain(mem, env.bases[k], n) == Some(env.bases[k - n])
    decreases n
  {
    if n > 0 {
      ChainFollowsBases(env, mem, k - 1, n - 1);
    }
  }

  /** `GB`/`GB1` yield the frame of level lev - n. */
  lemma {:induction false} BaseRuns(p: seq<Module>, st: State, env: Env, n: nat)
    requires WellLaid(env) && Linked(env, st.mem) && st.l == env.bases[env.lev]
    requires 0 < n < env.lev
    requires Ready(p, st, G.BaseCode(n)) && |st.es| < EXS_SIZE
    ensures Leads(p)(st, Some(Pushed(st, |G.BaseCode(n)|, env.bases[env.lev - n])))
  {
    ChainFollowsBases(env, st.mem, env.lev, n);
    FrameRuns(p, st, n, env.bases[env.lev - n]);
  }

  lemma {:induction false} FrameRuns(p: seq<Module>, st: State, n: nat, b: word)
    requires 0 < n < 0x100 && Chain(st.mem, st.l, n) == Some(b)
    requires Ready(p, st, G.BaseCode(n)) && |st.es| < EXS_SIZE
    ensures Leads(p)(st, Some(Pushed(st, |G.BaseCode(n)|, b)))
  {
    hide Chain, Decode, CodeAt, Leads;
    BaseDecodes(p, st, n);
    var k := |G.BaseCode(n)|;
    assert Exec(p, Skip(st, k), Base(n)) == PushWord(Skip(st, k), b);
    TakePush(p, st, Base(n), k, b);
  }

  lemma {:induction false} BaseDecodes(p: seq<Module>, st: State, n: nat)
    requires 0 < n < 0x100 && Ready(p, st, G.BaseCode(n))
    ensures st.pc + |G.BaseCode(n)| < 0x1_0000 && Decode(p[st.modn].code, st.pc) == Some(Decoded(Base(n), st.pc + |G.BaseCode(n)|))
  {
    hide Decode, Exec;
    if n == 1 {
      Op1(p, st, 0xE9, Base(1));
    } else {
      Op2(p, st, 0xE8, n, Base(n));
    }
  }

  lemma {:induction false} LocalRuns(p: seq<Module>, st: State, n: nat, c: seq<byte>)
    requires G.OpArg(0x20, n) == Some(c) && 4 <= n && st.l + n < MEM_SIZE
    requires Ready(p, st, c) && |st.es| < EXS_SIZE
    ensures Leads(p)(st, Some(Pushed(st, |c|, st.mem[st.l + n])))
  {
    hide Decode, CodeAt, Leads;
    LocalDecodes(p, st, n, c);
    assert Exec(p, Skip(st, |c|), LoadLocal(n)) == PushWord(Skip(st, |c|), st.mem[st.l + n]);
    TakePush(p, st, LoadLocal(n), |c|, st.mem[st.l + n]);
  }

  lemma {:induction false} LocalDecodes(p: seq<Module>, st: State, n: nat, c: seq<byte>)
    requires G.OpArg(0x20, n) == Some(c) && 4 <= n && Ready(p, st, c)
    ensures st.pc + |c| < 0x1_0000 && Decode(p[st.modn].code, st.pc) == Some(Decoded(LoadLocal(n), st.pc + |c|))
  {
    hide Decode, Exec;
    if n < 0x10 {
      Op1(p, st, 0x20 + n, LoadLocal(n));
    } else {
      Op2(p, st, 0x20, n, LoadLocal(n));
    }
  }

  lemma {:induction false} GlobalRuns(p: seq<Module>, st: State, n: nat, c: seq<byte>)
    requires G.OpArg(0x40, n) == Some(c) && 2 <= n && st.g + n < MEM_SIZE
    requires Ready(p, st, c) && |st.es| < EXS_SIZE
    ensures Leads(p)(st, Some(Pushed(st, |c|, st.mem[st.g + n])))
  {
    hide Decode, CodeAt, Leads;
    GlobalDecodes(p, st, n, c);
    assert Exec(p, Skip(st, |c|), LoadGlobal(n)) == PushWord(Skip(st, |c|), st.mem[st.g + n]);
    TakePush(p, st, LoadGlobal(n), |c|, st.mem[st.g + n]);
  }

  lemma {:induction false} GlobalDecodes(p: seq<Module>, st: State, n: nat, c: seq<byte>)
    requires G.OpArg(0x40, n) == Some(c) && 2 <= n && Ready(p, st, c)
    ensures st.pc + |c| < 0x1_0000 && Decode(p[st.modn].code, st.pc) == Some(Decoded(LoadGlobal(n), st.pc + |c|))
  {
    hide Decode, Exec;
    if n < 0x10 {
      Op1(p, st, 0x40 + n, LoadGlobal(n));
    } else {
      Op2(p, st, 0x40, n, LoadGlobal(n));
    }
  }

  lemma {:induction false} StackLoadRuns(p: seq<Module>, st: State, n: nat, c: seq<byte>, rest: seq<word>, b: word)
    requires G.OpArg1(0x60, n) == Some(c) && b + n < MEM_SIZE
    requires Ready(p, st, c) && st.es == rest + [b] && |st.es| <= EXS_SIZE
    ensures Leads(p)(st, Some(st.(pc := st.pc + |c|, es := rest + [st.mem[b + n]])))
  {
    hide Decode, DecodePlain, DecodeByte;
    var next := Skip(st, |c|);
    var i := if n < 0x10 then LoadStack(n) else LoadStackFar(n);
    StackLoadDecodes(n);
    if n < 0x10 {
      Op1(p, st, 0x60 + n, i);
    } else {
      Op2(p, st, 0x80, n, i);
    }
    StackLoadEffect(p, next, n, rest, b);
    Take(p, st, i, |c|, Some(st.(pc := st.pc + |c|, es := rest + [st.mem[b + n]])));
  }

  lemma {:induction false} StackLoadDecodes(n: byte)
    ensures n < 0x10 ==> DecodePlain(0x60 + n) == Some(LoadStack(n))
    ensures DecodePlain(0x80) == None && forall at: word {:trigger DecodeByte(0x80, n, at)} :: DecodeByte(0x80, n, at) == Some(LoadStackFar(n))
  {
  }

  lemma {:induction false} StackLoadEffect(p: seq<Module>, st: State, n: byte, rest: seq<word>, b: word)
    requires st.modn < |p| && st.es == rest + [b] && |st.es| <= EXS_SIZE && b + n < MEM_SIZE
    ensures Effect(p)(st, if n < 0x10 then LoadStack(n) else LoadStackFar(n)) == Some(st.(es := rest + [st.mem[b + n]]))
  {
    var i := if n < 0x10 then LoadStack(n) else LoadStackFar(n);
    assert Pop(st, 1).es == rest;
    assert Exec(p, st, i) == PushWord(Pop(st, 1), st.mem[b + n]);
  }

  lemma {:induction false} OuterVarRuns(p: seq<Module>, st: State, env: Env, v: Var, c: seq<byte>)
    requires WellLaid(env) && Linked(env, st.mem) && st.l == env.bases[env.lev]
    requires 0 < v.lev < env.lev && Address(env, v) < MEM_SIZE
    requires G.VarCode(v, env.lev) == Some(c)
    requires Ready(p, st, c) && |st.es| < EXS_SIZE
    ensures Leads(p)(st, Some(Pushed(st, |c|, st.mem[Address(env, v)])))
  {
    hide Decode, Exec, Leads, CodeAt, Linked;
    var n := env.lev - v.lev;
    var b, a := G.BaseCode(n), G.OpArg1(0x60, v.adr).value;
    CodeAtParts(p[st.modn].code, st.pc, b, a);
    BaseRuns(p, st, env, n);
    var mid := Pushed(st, |b|, env.bases[v.lev]);
    StackLoadRuns(p, mid, v.adr, a, st.es, env.bases[v.lev]);
    LeadsOn(p, st, mid, Some(Pushed(st, |c|, st.mem[Address(env, v)])));
  }

  lemma {:induction false} VarRuns(p: seq<Module>, st: State, env: Env, s: Store, v: Var, c: seq<byte>)
    requires WellLaid(env) && Represents(env, s, st) && v in env.vars
    requires G.VarCode(v, env.lev) == Some(c)
    requires Ready(p, st, c) && |st.es| < EXS_SIZE
    ensures Leads(p)(st, Some(Pushed(st, |c|, Encode(s[v]))))
  {
    if v.lev == 0 {
      GlobalRuns(p, st, v.adr, c);
    } else if v.lev == env.lev {
      LocalRuns(p, st, v.adr, c);
    } else {
      OuterVarRuns(p, st, env, v, c);
    }
  }

  // ---------------------------------------------------------------- expressions

  function AfterPush(st: State, k: nat, o: Option<word>): Option<State>
    requires st.pc + k < 0x1_0000
  {
    match o case None => None case Some(w) => Some(Pushed(st, k, w))
  }

  /** The next k bytes of code push the given word, or fault when there is none. */
  ghost predicate Yields(p: seq<Module>, st: State, k: nat, o: Option<word>) {
    st.pc + k < 0x1_0000 && Leads(p)(st, AfterPush(st, k, o))
  }

  function BothThen(op: BinaryOp, a: Option<word>, b: Option<word>): Option<word> {
    var i :- a;
    var j :- b;
    Apply(op, i, j)
  }

  /** Code for two operands, then a binary operation. */
  lemma {:induction false} TwoThenOp(p: seq<Module>, st: State, c1: seq<byte>, c2: seq<byte>, opc: byte, op: BinaryOp,
                  a: Option<word>, b: Option<word>)
    requires Ready(p, st, c1 + c2 + [opc]) && DecodePlain(opc) == Some(Binary(op))
    requires |st.es| < EXS_SIZE
    requires Yields(p, st, |c1|, a)
    requires a.Some? ==> Yields(p, Pushed(st, |c1|, a.value), |c2|, b)
    ensures Yields(p, st, |c1 + c2 + [opc]|, BothThen(op, a, b))
  {
    CodeAtParts(p[st.modn].code, st.pc, c1 + c2, [opc]);
    if a.Some? {
      var one := Pushed(st, |c1|, a.value);
      if b.Some? {
        var two := Pushed(one, |c2|, b.value);
        LeadsOn(p, st, one, Some(two));
        assert two.es == st.es + [a.value, b.value];
        BinaryRuns(p, two, opc, op, st.es, a.value, b.value);
        LeadsOn(p, st, two, AfterPush(st, |c1 + c2 + [opc]|, Apply(op, a.value, b.value)));
      } else {
        LeadsOn(p, st, one, None);
      }
    }
  }

  /** A state st0 that represents a store; loading changes only the program counter and the
      expression stack, so all states of an evaluation are like st0. */
  datatype Frame = Frame(env: Env, s: Store, st0: State)

  ghost predicate Good(fr: Frame) {
    WellLaid(fr.env) && Represents(fr.env, fr.s, fr.st0)
  }

  /** `Good`, exposed to the solver one frame at a time. */
  ghost function Goods(): (f: Frame -> bool)
    ensures GoodGraph(f)
  {
    assert GoodGraph(fr => Good(fr));
    var f: Frame -> bool :| GoodGraph(f);
    f
  }

  ghost predicate GoodGraph(f: Frame -> bool) {
    forall fr {:trigger Good(fr)} :: f(fr) == Good(fr)
  }

  predicate Like(fr: Frame, st: State) {
    st == fr.st0.(pc := st.pc, es := st.es)
  }

  /** The premises shared by the lemmas about expression code. */
  ghost predicate Runnable(p: seq<Module>, st: State, fr: Frame, e: Expr, code: seq<byte>, peak: nat) {
    && Goods()(fr) && Like(fr, st)
    && Typed(fr.s) && TypeOf(e).Some? && Vars(e) <= fr.s.Keys && G.ShortJumpsFit(e, fr.env.lev)
    && Ready(p, st, code) && |st.es| + peak <= EXS_SIZE
  }

  /** An operand that is still deferred is loaded by the code of `load`. */
  lemma {:induction false} StillRepresents(env: Env, s: Store, st: State, pc: word, es: seq<word>)
    requires WellLaid(env) && Represents(env, s, st)
    ensures Represents(env, s, st.(pc := pc, es := es))
  {
  }

  lemma {:induction false} DeferredRuns(p: seq<Module>, st: State, fr: Frame, e: Expr, f: G.Frag, c: seq<byte>)
    requires TypeOf(e).Some? && Describes(f, e, TypeOf(e).value) && G.Deferred(f.x)
    requires G.LoadCode(f.x, fr.env.lev) == Some(c)
    requires Runnable(p, st, fr, e, c, 1)
    ensures Yields(p, st, |c|, EncodeResult(Eval(e, fr.s)))
  {
    if f.x.ConM? {
      PushLit(p, st, f.x.val);
    } else {
      assert Good(fr);
      StillRepresents(fr.env, fr.s, fr.st0, st.pc, st.es);
      VarRuns(p, st, fr.env, fr.s, f.x.v, c);
    }
  }

  lemma {:induction false} LoadedRuns(p: seq<Module>, st: State, fr: Frame, e: Expr, g: G.Frag)
    requires G.GenLoaded(e, fr.env.lev) == Some(g)
    requires Runnable(p, st, fr, e, g.code, g.peak)
    ensures Yields(p, st, |g.code|, EncodeResult(Eval(e, fr.s)))
    decreases e, 5
  {
    var f := G.GenExpr(e, fr.env.lev).value;
    GenDescribes(e, fr.env.lev, f);
    if G.Deferred(f.x) {
      assert f.code + G.LoadCode(f.x, fr.env.lev).value == G.LoadCode(f.x, fr.env.lev).value;
      DeferredRuns(p, st, fr, e, f, g.code);
    } else {
      assert f.code + [] == f.code;
      ExprRuns(p, st, fr, e, f);
    }
  }

  lemma {:induction false} ExprRuns(p: seq<Module>, st: State, fr: Frame, e: Expr, f: G.Frag)
    requires G.GenExpr(e, fr.env.lev) == Some(f) && !G.Deferred(f.x)
    requires Runnable(p, st, fr, e, f.code, f.peak)
    ensures Yields(p, st, |f.code|, EncodeResult(Eval(e, fr.s)))
    decreases e, 4
  {
    match e
    case Num(_) =>
    case Truth(_) =>
    case Ref(_) =>
    case Not(a) => UnaryRuns(p, st, fr, e, a, 0xD7, f);
    case Negate(a) => UnaryRuns(p, st, fr, e, a, 0xCF, f);
    case And(l, r) => ShortRuns(p, st, fr, e, l, r, false, f);
    case Or(l, r) => ShortRuns(p, st, fr, e, l, r, true, f);
    case Bin(op, l, r) => BinRuns(p, st, fr, e, op, l, r, f);
  }

  // NOT and unary minus

  function UnaryInstr(opc: byte): Instr { if opc == 0xD7 then Instr.Not else Instr.Neg }

  function UnaryWord(opc: byte, w: word): word {
    if opc != 0xD7 then Wrap(-Signed(w)) else if w % 2 == 1 then 0 else 1
  }

  predicate UnaryExpr(e: Expr, a: Expr, opc: byte) {
    (e == Lang.Not(a) && opc == 0xD7) || (e == Negate(a) && opc == 0xCF)
  }

  lemma {:induction false} UnaryCode(e: Expr, a: Expr, opc: byte, lev: nat, f: G.Frag)
    requires UnaryExpr(e, a, opc) && TypeOf(e).Some?
    requires G.GenExpr(e, lev) == Some(f) && !G.Deferred(f.x)
    ensures var g := G.GenLoaded(a, lev);
            && g.Some? && f.code == g.value.code + [opc] && f.peak == g.value.peak >= 1 && TypeOf(a).Some?
  {
    var g := G.GenExpr(a, lev).value;
    GenDescribes(a, lev, g);
    if e.Not? {
      assert G.GenNot(g, lev) == Some(f);
    } else {
      assert G.GenNeg(g, lev) == Some(f);
    }
  }

  lemma {:induction false} UnaryMeaning(e: Expr, a: Expr, opc: byte, s: Store)
    requires UnaryExpr(e, a, opc) && TypeOf(e).Some? && TypeOf(a).Some?
    requires Vars(e) <= s.Keys && Typed(s)
    ensures EncodeResult(Eval(e, s))
         == match Eval(a, s) case None => None case Some(v) => Some(UnaryWord(opc, Encode(v)))
  {
    hide Wrap, Wrap16, Signed;
    EvalTyped(a, s);
    if e.Negate? && Eval(a, s).Some? {
      var v := AsInt(Eval(a, s).value, Int);
      AsIntKeepsWord(Eval(a, s).value, Int);
      EncodeInt(v.i);
      EncodeWrapped(0 - v.i);
    }
  }

  lemma {:induction false} UnaryRuns(p: seq<Module>, st: State, fr: Frame, e: Expr, a: Expr, opc: byte, f: G.Frag)
    requires UnaryExpr(e, a, opc)
    requires G.GenExpr(e, fr.env.lev) == Some(f) && !G.Deferred(f.x)
    requires Runnable(p, st, fr, e, f.code, f.peak)
    ensures Yields(p, st, |f.code|, EncodeResult(Eval(e, fr.s)))
    decreases e, 0
  {
    UnaryCode(e, a, opc, fr.env.lev, f);
    UnaryMeaning(e, a, opc, fr.s);
    var g := G.GenLoaded(a, fr.env.lev).value;
    CodeAtParts(p[st.modn].code, st.pc, g.code, [opc]);
    LoadedRuns(p, st, fr, a, g);
    OneThenOp(p, st, g.code, opc, EncodeResult(Eval(a, fr.s)));
  }

  lemma {:induction false} UnaryEffect(p: seq<Module>, st: State, rest: seq<word>, opc: byte, w: word)
    requires st.modn < |p| && st.es == rest + [w] && |rest| < EXS_SIZE
    ensures Effect(p)(st, UnaryInstr(opc)) == Some(st.(es := rest + [UnaryWord(opc, w)]))
  {
    hide Apply, Effect, ExecBinary, Signed;
    assert Pop(st, 1).es == rest;
    if opc == 0xD7 {
      assert Exec(p, st, Instr.Not) == PushWord(Pop(st, 1), UnaryWord(opc, w));
    } else {
      assert Exec(p, st, Instr.Neg) == PushWord(Pop(st, 1), UnaryWord(opc, w));
    }
  }

  /** Code c, then NOT or NEG. */
  lemma {:induction false} OneThenOp(p: seq<Module>, st: State, c: seq<byte>, opc: byte, a: Option<word>)
    requires Ready(p, st, c + [opc]) && (opc == 0xD7 || opc == 0xCF) && |st.es| < EXS_SIZE
    requires Yields(p, st, |c|, a)
    ensures Yields(p, st, |c + [opc]|, match a case None => None case Some(w) => Some(UnaryWord(opc, w)))
  {
    CodeAtParts(p[st.modn].code, st.pc, c, [opc]);
    if a.Some? {
      var one, i := Pushed(st, |c|, a.value), UnaryInstr(opc);
      var r := UnaryWord(opc, a.value);
      Op1(p, one, opc, i);
      UnaryEffect(p, Skip(one, 1), st.es, opc, a.value);
      Take(p, one, i, 1, Some(Pushed(st, |c| + 1, r)));
      LeadsOn(p, st, one, Some(Pushed(st, |c| + 1, r)));
    }
  }

  // AND and OR; `stop` is the value of the left operand that decides the result

  function ShortOpc(stop: bool): byte { if stop then 0x1E else 0x1F }

  function ShortInstr(stop: bool, to: word): Instr { if stop then OrJump(to) else AndJump(to) }

  predicate ShortExpr(e: Expr, l: Expr, r: Expr, stop: bool) {
    e == if stop then Lang.Or(l, r) else Lang.And(l, r)
  }

  /** The code of AND and OR is that of the left operand, a jump over the right one, and the
      right operand. */
  lemma {:induction false} ShortParts(e: Expr, l: Expr, r: Expr, stop: bool, lev: nat, f: G.Frag) returns (g: G.Frag, h: G.Frag)
    requires ShortExpr(e, l, r, stop)
    requires G.GenExpr(e, lev) == Some(f) && G.ShortJumpsFit(e, lev)
    ensures G.GenLoaded(l, lev) == Some(g) && G.GenLoaded(r, lev) == Some(h)
    ensures |h.code| + 1 < 0x100 && G.ShortJumpsFit(l, lev) && G.ShortJumpsFit(r, lev)
    ensures f.code == g.code + ([ShortOpc(stop), |h.code| + 1] + h.code)
    ensures f.peak == G.Max(g.peak, h.peak)
  {
    var g0, h0 := G.GenExpr(l, lev).value, G.GenExpr(r, lev).value;
    assert G.ShortCircuit(ShortOpc(stop), g0, h0, lev) == Some(f);
    g, h := ShortCode(ShortOpc(stop), g0, h0, lev, f);
    assert G.RightFits(r, lev);
  }

  lemma {:induction false} ShortCode(opc: byte, g0: G.Frag, h0: G.Frag, lev: nat, f: G.Frag) returns (g: G.Frag, h: G.Frag)
    requires G.ShortCircuit(opc, g0, h0, lev) == Some(f)
    ensures G.Force(g0, lev) == Some(g) && G.Force(h0, lev) == Some(h)
    ensures |h.code| + 1 < 0x100 ==> f.code == g.code + ([opc, |h.code| + 1] + h.code)
    ensures f.peak == G.Max(g.peak, h.peak)
  {
    g, h := G.Force(g0, lev).value, G.Force(h0, lev).value;
    assert |h.code| + 1 < 0x100 ==> G.Displacement(|h.code| + 1) == |h.code| + 1;
  }

  lemma {:induction false} ForcedPeak(e: Expr, lev: nat, g: G.Frag)
    requires TypeOf(e).Some? && G.GenLoaded(e, lev) == Some(g)
    ensures g.peak >= 1
  {
    GenDescribes(e, lev, G.GenExpr(e, lev).value);
  }

  function ShortValue(stop: bool, a: Option<Value>, b: Option<Value>): Option<Value> {
    if a == None || a == Some(B(stop)) then a else b
  }

  lemma {:induction false} ShortMeaning(e: Expr, l: Expr, r: Expr, stop: bool, s: Store)
    requires ShortExpr(e, l, r, stop) && TypeOf(e).Some? && Vars(e) <= s.Keys && Typed(s)
    ensures TypeOf(l) == Some(Bool) && TypeOf(r) == Some(Bool)
    ensures Eval(l, s).Some? ==> Eval(l, s).value.B?
    ensures Eval(e, s) == ShortValue(stop, Eval(l, s), Eval(r, s))
  {
    EvalTyped(l, s);
  }

  lemma {:induction false} ShortRuns(p: seq<Module>, st: State, fr: Frame, e: Expr, l: Expr, r: Expr, stop: bool, f: G.Frag)
    requires ShortExpr(e, l, r, stop)
    requires G.GenExpr(e, fr.env.lev) == Some(f)
    requires Runnable(p, st, fr, e, f.code, f.peak)
    ensures Yields(p, st, |f.code|, EncodeResult(Eval(e, fr.s)))
    decreases e, 2
  {
    hide WellLaid, G.GenExpr, G.ShortJumpsFit, Decode, Exec, G.Combine;
    var g, h := ShortParts(e, l, r, stop, fr.env.lev, f);
    ShortMeaning(e, l, r, stop, fr.s);
    assert Vars(l) <= Vars(e) && Vars(r) <= Vars(e);
    ForcedPeak(l, fr.env.lev, g);
    ShortOperandsRun(p, st, fr, e, l, r, stop, g, h);
  }

  lemma {:induction false} ShortOperandsRun(p: seq<Module>, st: State, fr: Frame, e: Expr, l: Expr, r: Expr,
                                            stop: bool, g: G.Frag, h: G.Frag)
    requires l < e && r < e
    requires G.GenLoaded(l, fr.env.lev) == Some(g) && G.GenLoaded(r, fr.env.lev) == Some(h)
    requires |h.code| + 1 < 0x100 && g.peak >= 1
    requires Runnable(p, st, fr, l, [], g.peak) && Runnable(p, st, fr, r, [], h.peak)
    requires Ready(p, st, g.code + ([ShortOpc(stop), |h.code| + 1] + h.code))
    requires Eval(l, fr.s).Some? ==> Eval(l, fr.s).value.B?
    ensures Yields(p, st, |g.code| + 2 + |h.code|, EncodeResult(ShortValue(stop, Eval(l, fr.s), Eval(r, fr.s))))
    decreases e, 1
  {
    hide CodeAt, WellLaid, G.GenExpr, G.ShortJumpsFit, Decode, Exec, G.Combine;
    ShortBothRun(p, st, fr, e, l, r, [ShortOpc(stop), |h.code| + 1], g, h);
    ShortYields(p, st, g.code, h.code, stop, Eval(l, fr.s), Eval(r, fr.s));
  }

  lemma {:induction false} ShortBothRun(p: seq<Module>, st: State, fr: Frame, e: Expr, l: Expr, r: Expr,
                                        jump: seq<byte>, g: G.Frag, h: G.Frag)
    requires l < e && r < e && |jump| == 2
    requires G.GenLoaded(l, fr.env.lev) == Some(g) && G.GenLoaded(r, fr.env.lev) == Some(h)
    requires Runnable(p, st, fr, l, [], g.peak) && Runnable(p, st, fr, r, [], h.peak)
    requires Ready(p, st, g.code + (jump + h.code))
    ensures Yields(p, st, |g.code|, EncodeResult(Eval(l, fr.s)))
    ensures Yields(p, Skip(st, |g.code| + 2), |h.code|, EncodeResult(Eval(r, fr.s)))
    decreases e, 0
  {
    hide CodeAt, WellLaid, G.GenExpr, G.ShortJumpsFit, Decode, Exec, G.Combine;
    CodeAtParts(p[st.modn].code, st.pc, g.code, jump + h.code);
    CodeAtParts(p[st.modn].code, st.pc + |g.code|, jump, h.code);
    LoadedRuns(p, st, fr, l, g);
    LoadedRuns(p, Skip(st, |g.code| + 2), fr, r, h);
  }

  /** The left operand w is on the stack; the jump decides or goes on to the right operand. */
  lemma {:induction false} ShortJump(p: seq<Module>, one: State, rest: seq<word>, d: seq<byte>, stop: bool, b: bool, end: word)
    requires |d| + 1 < 0x100 && |rest| < EXS_SIZE
    requires one.es == rest + [Encode(B(b))]
    requires Ready(p, one, [ShortOpc(stop), |d| + 1] + d) && end == one.pc + 2 + |d|
    ensures Leads(p)(one, Some(if b == stop then one.(pc := end) else one.(pc := one.pc + 2, es := rest)))
  {
    var jump: seq<byte> := [ShortOpc(stop), |d| + 1];
    CodeAtParts(p[one.modn].code, one.pc, jump, d);
    var i := ShortInstr(stop, end);
    Op2(p, one, ShortOpc(stop), |d| + 1, i);
    ShortEffect(p, Skip(one, 2), rest, stop, end, Encode(B(b)));
    Take(p, one, i, 2, Some(if b == stop then one.(pc := end) else one.(pc := one.pc + 2, es := rest)));
  }

  lemma {:induction false} ShortYields(p: seq<Module>, st: State, c: seq<byte>, d: seq<byte>, stop: bool, a: Option<Value>, b: Option<Value>)
    requires |d| + 1 < 0x100 && |st.es| < EXS_SIZE
    requires Ready(p, st, c + ([ShortOpc(stop), |d| + 1] + d))
    requires a.Some? ==> a.value.B?
    requires Yields(p, st, |c|, EncodeResult(a)) && Yields(p, Skip(st, |c| + 2), |d|, EncodeResult(b))
    ensures Yields(p, st, |c| + 2 + |d|, EncodeResult(ShortValue(stop, a, b)))
  {
    CodeAtParts(p[st.modn].code, st.pc, c, [ShortOpc(stop), |d| + 1] + d);
    if a.Some? {
      var w := Encode(a.value);
      var one, right, end := Pushed(st, |c|, w), Skip(st, |c| + 2), Pushed(st, |c| + 2 + |d|, w);
      ShortJump(p, one, st.es, d, stop, a.value.b, end.pc);
      if a.value.b == stop {
        LeadsOn(p, st, one, Some(end));
      } else {
        LeadsOn(p, st, one, Some(right));
        LeadsOn(p, st, right, AfterPush(st, |c| + 2 + |d|, EncodeResult(b)));
      }
    }
  }

  lemma {:induction false} ShortEffect(p: seq<Module>, st: State, rest: seq<word>, stop: bool, to: word, w: word)
    requires st.modn < |p| && st.es == rest + [w] && |rest| < EXS_SIZE && w <= 1
    ensures Effect(p)(st, ShortInstr(stop, to))
         == Some(if (w == 1) == stop then st.(pc := to) else st.(es := rest))
  {
    assert Pop(st, 1).es == rest;
    assert Exec(p, st, ShortInstr(stop, to)) == ExecJump(st, ShortInstr(stop, to));
  }

  // binary operations

  /** The right operand is a power of two and the operation is replaced by a cheaper one. */
  predicate ByConstant(op: Op, t: Typ, y: G.Item) {
    G.PowerConst(y) && (op == Times || op == Mod || (op == Div && t == Card))
  }

  /** The code `GenOp` produces when it does not fold: both operands and an operator, or one
      operand, a literal and an operator. */
  datatype Shape =
    | Plain
    | Shifted(n: word, opc: byte, op: BinaryOp)        // left operand, literal n, opc
    | Swapped(n: word, opc: byte, op: BinaryOp)        // right operand, literal n, opc

  function ShapeOf(op: Op, t: Typ, x: G.Item, y: G.Item): Shape {
    if x.ConM? then
      if op == Times && G.PowerConst(x) then Swapped(G.Twos(x.val), 0xBE, Shl)
      else Swapped(x.val, G.Opcode(op, t), MachineOp(op, t))
    else if ByConstant(op, t, y) then Reduced(op, y.val)
    else Plain
  }

  /** Multiplying, dividing and taking remainders by the power of two n. */
  function Reduced(op: Op, n: word): Shape
    requires G.OddPart(n) == 1
  {
    if op == Times then Shifted(G.Twos(n), 0xBE, Shl)
    else if op == Div then Shifted(G.Twos(n), 0xBF, Shr)
    else Shifted(Pow2(G.Twos(n)) - 1, 0xD2, MCode.And)
  }

  lemma {:induction false} BinParts(op: Op, l: Expr, r: Expr, lev: nat, f: G.Frag, g: G.Frag, h: G.Frag, t: Typ)
    requires TypeOf(Bin(op, l, r)).Some?
    requires G.GenExpr(Bin(op, l, r), lev) == Some(f) && !G.Deferred(f.x)
    requires G.GenExpr(l, lev).Some? && G.GenExpr(r, lev) == Some(h)
    requires G.KeepsConst(op, G.GenExpr(l, lev).value.x) || G.GenLoaded(l, lev).Some?
    requires g == LeftOperand(op, G.GenExpr(l, lev).value, lev)
    requires t == Common(l, TypeOf(l).value, r, TypeOf(r).value).value
    ensures g.x.ConM? ==> (op == Times || op == Plus) && Describes(g, l, TypeOf(l).value)
    ensures !g.x.ConM? ==> G.GenLoaded(l, lev) == Some(g) && g.peak >= 1
    ensures Describes(h, r, TypeOf(r).value) && !g.x.VarM?
    ensures G.Combine(op, g, h, lev) == Some(f) && G.OperandTyp(g.x, h.x) == Some(t)
    ensures !(g.x.ConM? && h.x.ConM?)
  {
    var g0 := G.GenExpr(l, lev).value;
    GenDescribes(l, lev, g0);
    GenDescribes(r, lev, h);
    LeftForced(op, l, lev, g0);
    CombineDescribes(op, l, r, g, h, lev, f);
  }

  lemma {:induction false} CombinePlain(op: Op, g: G.Frag, h: G.Frag, lev: nat, f: G.Frag, t: Typ)
    requires G.Combine(op, g, h, lev) == Some(f) && G.OperandTyp(g.x, h.x) == Some(t)
    requires ShapeOf(op, t, g.x, h.x) == Plain
    requires G.Deferred(h.x) ==> h.code == [] && h.peak == 0
    requires !G.Deferred(h.x) ==> h.peak >= 1
    ensures var hl := G.Force(h, lev);
            && hl.Some? && f.code == g.code + hl.value.code + [G.Opcode(op, t)]
            && f.peak == G.Max(g.peak, 1 + hl.value.peak)
  {
    var c := G.LoadCode(h.x, lev).value;
    assert (g.code + h.code) + c == g.code + (h.code + c);
  }

  lemma {:induction false} CombineShifted(op: Op, g: G.Frag, h: G.Frag, lev: nat, f: G.Frag, t: Typ, n: word, opc: byte, bop: BinaryOp)
    requires G.Combine(op, g, h, lev) == Some(f) && G.OperandTyp(g.x, h.x) == Some(t)
    requires ShapeOf(op, t, g.x, h.x) == Shifted(n, opc, bop) && h.code == []
    ensures f.code == g.code + G.LitCode(n) + [opc] && f.peak == G.Max(g.peak, 2)
  {
    assert g.code + [] == g.code;
  }

  lemma {:induction false} CombineSwapped(op: Op, g: G.Frag, h: G.Frag, lev: nat, f: G.Frag, t: Typ, n: word, opc: byte, bop: BinaryOp)
    requires G.Combine(op, g, h, lev) == Some(f) && G.OperandTyp(g.x, h.x) == Some(t)
    requires ShapeOf(op, t, g.x, h.x) == Swapped(n, opc, bop) && !h.x.ConM? && g.code == []
    requires !G.Deferred(h.x) ==> h.peak >= 1
    ensures var hl := G.Force(h, lev);
            && hl.Some? && f.code == hl.value.code + G.LitCode(n) + [opc]
            && f.peak == G.Max(hl.value.peak, 2)
  {
    assert [] + h.code == h.code;
  }

  lemma {:induction false} SwappedMeaning(op: Op, t: Typ, a: Value, b: Value)
    requires TypOf(AsInt(a, t)) == t && TypOf(AsInt(b, t)) == t && t != Bool
    requires op == Times || op == Plus
    ensures Apply(MachineOp(op, t), Encode(b), Encode(a)) == EncodeResult(BinValue(op, t, a, b))
    ensures op == Times && G.OddPart(Encode(a)) == 1 ==>
              G.Twos(Encode(a)) < 16 && Apply(Shl, Encode(b), G.Twos(Encode(a))) == EncodeResult(BinValue(op, t, a, b))
  {
    OperatorMeaning(op, t, a, b);
    Commutes(op, t, Encode(a), Encode(b));
    if op == Times && G.OddPart(Encode(a)) == 1 {
      PowerConstant(Encode(a));
      StrengthReduction(Encode(b), Encode(a), G.Twos(Encode(a)));
      MulWordsMeaning(t, a, b);
      MulCommutes(Encode(a), Encode(b));
    }
  }

  lemma {:induction false} ReducedOpcode(op: Op, v: word, n: word, opc: byte, bop: BinaryOp)
    requires G.OddPart(v) == 1 && Reduced(op, v) == Shifted(n, opc, bop)
    ensures DecodePlain(opc) == Some(Binary(bop))
  {
  }

  lemma {:induction false} ReducedMeaning(op: Op, t: Typ, a: Value, b: Value, n: word, opc: byte, bop: BinaryOp)
    requires TypOf(AsInt(a, t)) == t && TypOf(AsInt(b, t)) == t && t != Bool
    requires op == Times || ((op == Div || op == Mod) && t == Card)
    requires G.OddPart(Encode(b)) == 1 && Reduced(op, Encode(b)) == Shifted(n, opc, bop)
    ensures Apply(bop, Encode(a), n) == EncodeResult(BinValue(op, t, a, b))
  {
    PowerConstant(Encode(b));
    StrengthReduction(Encode(a), Encode(b), G.Twos(Encode(b)));
    if op == Times {
      assert bop == Shl;
      MulWordsMeaning(t, a, b);
    } else if op == Div {
      assert bop == Shr;
      CardMeaning(op, UDiv, a, b);
    } else {
      assert bop == MCode.And;
      CardMeaning(op, UMod, a, b);
    }
  }

  lemma {:induction false} CardMeaning(op: Op, bop: BinaryOp, a: Value, b: Value)
    requires a.C? && b.C? && ((op == Div && bop == UDiv) || (op == Mod && bop == UMod))
    ensures Apply(bop, Encode(a), Encode(b)) == EncodeResult(BinValue(op, Card, a, b))
  {
  }

  lemma {:induction false} MulCommutes(x: int, y: int)
    ensures x * y == y * x
  {
  }

  /** `*` and `+` commute, so the constant may be loaded behind the other operand. */
  lemma {:induction false} Commutes(op: Op, t: Typ, x: word, y: word)
    requires op == Times || op == Plus
    ensures Apply(MachineOp(op, t), x, y) == Apply(MachineOp(op, t), y, x)
  {
    MulCommutes(x, y);
    MulCommutes(Signed(x), Signed(y));
  }

  /** What is known about the operands of a binary operation before its code runs. */
  ghost predicate Operands(s: Store, op: Op, l: Expr, r: Expr, t: Typ) {
    && TypeOf(Bin(op, l, r)).Some? && TypeOf(l).Some? && TypeOf(r).Some?
    && Common(l, TypeOf(l).value, r, TypeOf(r).value) == Some(t) && G.OperatorTyped(op, t)
    && Vars(l) <= s.Keys && Vars(r) <= s.Keys && Typed(s)
  }

  lemma {:induction false} OperandValues(s: Store, op: Op, l: Expr, r: Expr, t: Typ)
    requires Operands(s, op, l, r, t)
    ensures var a, b := Eval(l, s), Eval(r, s);
            if a.Some? && b.Some? then
              && TypOf(AsInt(a.value, t)) == t && TypOf(AsInt(b.value, t)) == t
              && Eval(Bin(op, l, r), s) == BinValue(op, t, a.value, b.value)
            else Eval(Bin(op, l, r), s) == None
  {
    EvalTyped(l, s);
    EvalTyped(r, s);
    if Eval(l, s).Some? && Eval(r, s).Some? {
      BinOperands(op, l, r, s);
    }
  }

  lemma {:induction false} OperandRunnable(p: seq<Module>, st: State, fr: Frame, op: Op, l: Expr, r: Expr, code: seq<byte>, peak: nat)
    requires Runnable(p, st, fr, Bin(op, l, r), code, peak) && TypeOf(l).Some? && TypeOf(r).Some?
    ensures Runnable(p, st, fr, l, [], peak) && Runnable(p, st, fr, r, [], peak)
  {
    hide WellLaid, Like, Typed;
    assert Vars(l) <= Vars(Bin(op, l, r)) && Vars(r) <= Vars(Bin(op, l, r));
  }

  lemma {:induction false} BinRuns(p: seq<Module>, st: State, fr: Frame, e: Expr, op: Op, l: Expr, r: Expr, f: G.Frag)
    requires e == Bin(op, l, r)
    requires G.GenExpr(e, fr.env.lev) == Some(f) && !G.Deferred(f.x)
    requires Runnable(p, st, fr, e, f.code, f.peak)
    ensures Yields(p, st, |f.code|, EncodeResult(Eval(e, fr.s)))
    decreases e, 3
  {
    hide WellLaid, Decode, Exec, Eval, Ready, G.Combine, G.ShortCircuit, G.Force, EncodeResult;
    var g, h := LeftOperand(op, G.GenExpr(l, fr.env.lev).value, fr.env.lev), G.GenExpr(r, fr.env.lev).value;
    var t := Common(l, TypeOf(l).value, r, TypeOf(r).value).value;
    assert Vars(l) <= Vars(e) && Vars(r) <= Vars(e);
    BinParts(op, l, r, fr.env.lev, f, g, h, t);
    OperandRunnable(p, st, fr, op, l, r, f.code, f.peak);
    BinDispatch(p, st, fr, e, op, l, r, t, g, h, f);
  }

  lemma {:induction false} BinDispatch(p: seq<Module>, st: State, fr: Frame, e: Expr, op: Op, l: Expr, r: Expr, t: Typ,
                                       g: G.Frag, h: G.Frag, f: G.Frag)
    requires l < e && r < e && Operands(fr.s, op, l, r, t)
    requires G.Combine(op, g, h, fr.env.lev) == Some(f) && G.OperandTyp(g.x, h.x) == Some(t)
    requires g.x.ConM? ==> (op == Times || op == Plus) && Describes(g, l, TypeOf(l).value) && !h.x.ConM?
    requires !g.x.ConM? ==> G.GenLoaded(l, fr.env.lev) == Some(g) && g.peak >= 1
    requires G.GenExpr(r, fr.env.lev) == Some(h) && Describes(h, r, TypeOf(r).value) && !g.x.VarM?
    requires Runnable(p, st, fr, l, [], f.peak) && Runnable(p, st, fr, r, [], f.peak) && Ready(p, st, f.code)
    ensures Yields(p, st, |f.code|, EncodeResult(Eval(Bin(op, l, r), fr.s)))
    decreases e, 2
  {
    hide Wrap, G.GenExpr, Eval, Ready, CodeAt, Pow2, Leads, Bytes, Signed, Encode, G.Combine, TypeOf, G.Opcode;
    match ShapeOf(op, t, g.x, h.x)
    case Plain =>
      CombinePlain(op, g, h, fr.env.lev, f, t);
      PlainRuns(p, st, fr, e, op, l, r, t, g, G.Force(h, fr.env.lev).value);
    case Shifted(n, opc, bop) =>
      CombineShifted(op, g, h, fr.env.lev, f, t, n, opc, bop);
      ShiftedRuns(p, st, fr, e, op, l, r, t, g, h, n, opc, bop);
    case Swapped(n, opc, bop) =>
      CombineSwapped(op, g, h, fr.env.lev, f, t, n, opc, bop);
      SwappedRuns(p, st, fr, e, op, l, r, t, g, h, G.Force(h, fr.env.lev).value, n, opc, bop);
  }

  lemma {:induction false} PlainRuns(p: seq<Module>, st: State, fr: Frame, e: Expr, op: Op, l: Expr, r: Expr, t: Typ,
                                     g: G.Frag, hl: G.Frag)
    requires l < e && r < e && Operands(fr.s, op, l, r, t)
    requires G.GenLoaded(l, fr.env.lev) == Some(g) && G.GenLoaded(r, fr.env.lev) == Some(hl)
    requires Runnable(p, st, fr, l, [], g.peak) && Runnable(p, st, fr, r, [], 1 + hl.peak)
    requires Ready(p, st, g.code + hl.code + [G.Opcode(op, t)])
    ensures Yields(p, st, |g.code + hl.code + [G.Opcode(op, t)]|, EncodeResult(Eval(Bin(op, l, r), fr.s)))
    decreases e, 1
  {
    CodeAtParts(p[st.modn].code, st.pc, g.code + hl.code, [G.Opcode(op, t)]);
    BothRun(p, st, fr, e, l, r, g, hl);
    OpcodeDecodes(op, t);
    var a, b := EncodeResult(Eval(l, fr.s)), EncodeResult(Eval(r, fr.s));
    TwoThenOp(p, st, g.code, hl.code, G.Opcode(op, t), MachineOp(op, t), a, b);
    PlainMeaning(fr.s, op, l, r, t);
  }

  lemma {:induction false} BothRun(p: seq<Module>, st: State, fr: Frame, e: Expr, l: Expr, r: Expr, g: G.Frag, hl: G.Frag)
    requires l < e && r < e
    requires G.GenLoaded(l, fr.env.lev) == Some(g) && G.GenLoaded(r, fr.env.lev) == Some(hl)
    requires Runnable(p, st, fr, l, [], g.peak) && Runnable(p, st, fr, r, [], 1 + hl.peak)
    requires Ready(p, st, g.code + hl.code)
    ensures var a := EncodeResult(Eval(l, fr.s));
            && Yields(p, st, |g.code|, a)
            && (a.Some? ==> Yields(p, Pushed(st, |g.code|, a.value), |hl.code|, EncodeResult(Eval(r, fr.s))))
    decreases e, 0
  {
    hide WellLaid, Decode, Exec, Eval, G.GenExpr, G.ShortJumpsFit;
    CodeAtParts(p[st.modn].code, st.pc, g.code, hl.code);
    LoadedRuns(p, st, fr, l, g);
    var a := EncodeResult(Eval(l, fr.s));
    if a.Some? {
      LoadedRuns(p, Pushed(st, |g.code|, a.value), fr, r, hl);
    }
  }

  lemma {:induction false} PlainMeaning(s: Store, op: Op, l: Expr, r: Expr, t: Typ)
    requires Operands(s, op, l, r, t)
    ensures BothThen(MachineOp(op, t), EncodeResult(Eval(l, s)), EncodeResult(Eval(r, s)))
         == EncodeResult(Eval(Bin(op, l, r), s))
  {
    hide Apply, Wrap, Eval, TruncDiv, BitAnd, Pow2, Signed, Encode, MachineOp, TypeOf, Arith, BinValue;
    OperandValues(s, op, l, r, t);
    if Eval(l, s).Some? && Eval(r, s).Some? {
      OperatorMeaning(op, t, Eval(l, s).value, Eval(r, s).value);
    }
  }

  lemma {:induction false} ShiftedRuns(p: seq<Module>, st: State, fr: Frame, e: Expr, op: Op, l: Expr, r: Expr, t: Typ,
                                       g: G.Frag, h: G.Frag, n: word, opc: byte, bop: BinaryOp)
    requires l < e && Operands(fr.s, op, l, r, t)
    requires G.GenLoaded(l, fr.env.lev) == Some(g) && Describes(h, r, TypeOf(r).value)
    requires !g.x.ConM? && ShapeOf(op, t, g.x, h.x) == Shifted(n, opc, bop)
    requires Runnable(p, st, fr, l, [], g.peak) && |st.es| + 2 <= EXS_SIZE
    requires Ready(p, st, g.code + G.LitCode(n) + [opc])
    ensures Yields(p, st, |g.code + G.LitCode(n) + [opc]|, EncodeResult(Eval(Bin(op, l, r), fr.s)))
    decreases e, 1
  {
    CodeAtParts(p[st.modn].code, st.pc, g.code + G.LitCode(n), [opc]);
    CodeAtParts(p[st.modn].code, st.pc, g.code, G.LitCode(n));
    LoadedRuns(p, st, fr, l, g);
    ReducedOpcode(op, h.x.val, n, opc, bop);
    ShiftedResult(fr.s, op, l, r, t, g.x, h, n, opc, bop);
    OperandThenLit(p, st, g.code, n, opc, bop, EncodeResult(Eval(l, fr.s)));
  }

  lemma {:induction false} ShiftedResult(s: Store, op: Op, l: Expr, r: Expr, t: Typ, x: G.Item, h: G.Frag, n: word, opc: byte, bop: BinaryOp)
    requires Operands(s, op, l, r, t) && Describes(h, r, TypeOf(r).value)
    requires !x.ConM? && ShapeOf(op, t, x, h.x) == Shifted(n, opc, bop)
    ensures BothThen(bop, EncodeResult(Eval(l, s)), Some(n)) == EncodeResult(Eval(Bin(op, l, r), s))
  {
    OperandValues(s, op, l, r, t);
    assert Eval(r, s).Some? && Encode(Eval(r, s).value) == h.x.val;
    assert Reduced(op, h.x.val) == Shifted(n, opc, bop);
    if Eval(l, s).Some? {
      ReducedMeaning(op, t, Eval(l, s).value, Eval(r, s).value, n, opc, bop);
    }
  }

  lemma {:induction false} SwappedRuns(p: seq<Module>, st: State, fr: Frame, e: Expr, op: Op, l: Expr, r: Expr, t: Typ,
                                       g: G.Frag, h: G.Frag, hl: G.Frag, n: word, opc: byte, bop: BinaryOp)
    requires r < e && Operands(fr.s, op, l, r, t) && (op == Times || op == Plus)
    requires G.GenLoaded(r, fr.env.lev) == Some(hl) && Describes(g, l, TypeOf(l).value)
    requires g.x.ConM? && ShapeOf(op, t, g.x, h.x) == Swapped(n, opc, bop)
    requires Runnable(p, st, fr, r, [], hl.peak) && |st.es| + 2 <= EXS_SIZE
    requires Ready(p, st, hl.code + G.LitCode(n) + [opc])
    ensures Yields(p, st, |hl.code + G.LitCode(n) + [opc]|, EncodeResult(Eval(Bin(op, l, r), fr.s)))
    decreases e, 1
  {
    CodeAtParts(p[st.modn].code, st.pc, hl.code + G.LitCode(n), [opc]);
    CodeAtParts(p[st.modn].code, st.pc, hl.code, G.LitCode(n));
    LoadedRuns(p, st, fr, r, hl);
    SwappedResult(fr.s, op, l, r, t, g, h.x, n, opc, bop);
    OperandThenLit(p, st, hl.code, n, opc, bop, EncodeResult(Eval(r, fr.s)));
  }

  lemma {:induction false} SwappedResult(s: Store, op: Op, l: Expr, r: Expr, t: Typ, g: G.Frag, y: G.Item, n: word, opc: byte, bop: BinaryOp)
    requires Operands(s, op, l, r, t) && Describes(g, l, TypeOf(l).value)
    requires (op == Times || op == Plus) && g.x.ConM? && ShapeOf(op, t, g.x, y) == Swapped(n, opc, bop)
    ensures BothThen(bop, EncodeResult(Eval(r, s)), Some(n)) == EncodeResult(Eval(Bin(op, l, r), s))
    ensures DecodePlain(opc) == Some(Binary(bop))
  {
    hide Apply, Wrap, Signed, G.Combine, G.OddPart, G.Twos, Eval;
    OpcodeDecodes(op, t);
    OperandValues(s, op, l, r, t);
    assert Eval(l, s).Some?;
    if Eval(r, s).Some? {
      SwappedMeaning(op, t, Eval(l, s).value, Eval(r, s).value);
    }
  }

  lemma {:induction false} OperandThenLit(p: seq<Module>, st: State, c: seq<byte>, n: word, opc: byte, bop: BinaryOp, a: Option<word>)
    requires Ready(p, st, c + G.LitCode(n) + [opc]) && DecodePlain(opc) == Some(Binary(bop))
    requires |st.es| + 2 <= EXS_SIZE && Yields(p, st, |c|, a)
    ensures Yields(p, st, |c + G.LitCode(n) + [opc]|, BothThen(bop, a, Some(n)))
  {
    CodeAtParts(p[st.modn].code, st.pc, c + G.LitCode(n), [opc]);
    CodeAtParts(p[st.modn].code, st.pc, c, G.LitCode(n));
    if a.Some? {
      PushLit(p, Pushed(st, |c|, a.value), n);
    }
    TwoThenOp(p, st, c, G.LitCode(n), opc, bop, a, Some(n));
  }
}
