/** Expressions with calls on the machine: their bytes, executed, leave the expression's value on
    top of the operands that were waiting, when the functions they call return. */
module CallProof {
  import opened Words
  import opened Options
  import opened MCode
  import opened Machines
  import R = Runs
  import opened ExprProof
  import opened Pending
  import opened CallGen
  import opened Emulator
  import G = ExprGen

  /** Execution has gone on k bytes later, in the same frame. */
  predicate Resumed(a: State, b: State, k: nat) {
    b.pc as int == a.pc as int + k && b.modn == a.modn && b.g == a.g && b.l == a.l && b.cs == a.cs
  }

  /** A state without its program counter, which the steps do not look at. */
  function Bare(st: State): State {
    st.(pc := 0)
  }

  /** Code that calls functions: the program, the functions' results, what the code may call, the
      module it lies in, and how far the memory stack may reach at a call. */
  datatype Where = Where(p: seq<MCode.Module>, fs: Meaning, c: Scope, modn: nat, limit: nat)

  /** n links up the static chain from frame i lie below s. */
  predicate Chained(mem: memory, i: word, n: nat, s: word)
    decreases n
  {
    n == 0 || (i as int + 1 < s as int && Chained(mem, mem[i + 1], n - 1, s))
  }

  /** The machine executes code of the module in a frame of its own: the frame lies at L, which is CS,
      below S, and static links lead from it to the frames of the outer levels. */
  predicate Framed(u: Where, st: State) {
    && st.modn == u.modn && u.modn < 0x100 && u.modn < |u.p| && st.g == u.p[u.modn].dataOfs
    && st.l == st.cs < 0xFF00 && st.cs as int + 4 <= st.s as int && Chained(st.mem, st.l, u.c.level, st.s)
  }

  lemma {:induction false} ChainedStill(a: memory, b: memory, i: word, n: nat, s: word, t: word)
    requires Chained(a, i, n, s) && s <= t && forall k: int :: 0 <= k < s as int ==> b[k] == a[k]
    ensures Chained(b, i, n, t)
    decreases n
  {
    if n > 0 {
      ChainedStill(a, b, a[i + 1], n - 1, s, t);
    }
  }

  /** The frame is the same later on, while the memory stack has not shrunk. */
  lemma {:induction false} FramedStill(u: Where, a: State, b: State, k: nat)
    requires Framed(u, a) && Resumed(a, b, k) && a.s <= b.s && Below(a, b)
    ensures Framed(u, b)
  {
    ChainedStill(a.mem, b.mem, a.l, u.c.level, a.s, b.s);
  }

  /** A call of function f from here returns: the machine comes back behind the call, with the
      result in place of the arguments. */
  ghost predicate ReturnsHere(u: Where, f: nat, st: State)
    requires InScope(u.c) && CallBytes(ProcOf(u.c, f), u.c.level).Some?
  {
    exists r :: Leads(u.p)(st, Some(r)) && Returned(u.fs, f, |st.es|, st, r) && Resumed(st, r, |CallBytes(ProcOf(u.c, f), u.c.level).value|)
  }

  /** Code of the module calls function f from here: its arguments alone are on the expression stack. */
  ghost predicate CallsHere(u: Where, f: nat, st: State)
    requires InScope(u.c)
  {
    var b := CallBytes(ProcOf(u.c, f), u.c.level);
    && f < |u.c.procs| && b.Some? && Framed(u, st) && |st.es| == ProcOf(u.c, f).arity <= EXS_SIZE && st.s <= u.limit
    && Ready(u.p, st, b.value) && st.pc + |b.value| < 0x1_0000
  }

  /** Every function returns wherever the code calls it. */
  ghost predicate Return(u: Where)
    requires InScope(u.c)
  {
    forall f: nat, st: State {:trigger CallsHere(u, f, st)} :: CallsHere(u, f, st) ==> ReturnsHere(u, f, st)
  }

  /** The bytes `frag` of these steps take the machine from a to b, as the steps say. */
  ghost predicate Walked(u: Where, steps: seq<Pending.Step>, k: nat, a: State, b: State)
  {
    Leads(u.p)(a, Some(b)) && Resumed(a, b, k) && Pending.Runs(u.fs, steps, Bare(a), Bare(b))
  }

  lemma {:induction false} WalkedTwice(u: Where, s1: seq<Pending.Step>, k1: nat, s2: seq<Pending.Step>, k2: nat, a: State, m: State, b: State)
    requires Walked(u, s1, k1, a, m) && Walked(u, s2, k2, m, b)
    ensures Walked(u, s1 + s2, k1 + k2, a, b)
  {
    hide Leads, Pending.Runs;
    LeadsOn(u.p, a, m, Some(b));
    Joined(u.fs, s1, s2, Bare(a), Bare(m), Bare(b));
  }

  lemma {:induction false} WalkedOne(u: Where, s: Pending.Step, k: nat, a: State, b: State)
    requires Leads(u.p)(a, Some(b)) && Resumed(a, b, k) && Did(u.fs, s, Bare(a), Bare(b))
    ensures Walked(u, [s], k, a, b)
  {
    hide Leads, Pending.Runs, Did;
    OneRuns(u.fs, s, Bare(a), Bare(b));
  }

  lemma {:induction false} WalkedNone(u: Where, a: State)
    ensures Walked(u, [], 0, a, a)
  {
    R.Stay(Machine(u.p), a);
    assert LeadsTo(u.p, a, Some(a));
  }

  /** The code behind the part that has been executed is what comes next. */
  lemma {:induction false} ReadyNext(p: seq<MCode.Module>, a: State, x: seq<byte>, y: seq<byte>, m: State)
    requires Ready(p, a, x + y) && Resumed(a, m, |x|)
    ensures Ready(p, a, x) && Ready(p, m, y)
  {
    CodeAtParts(p[a.modn].code, a.pc, x, y);
  }

  // ------------------------------------------------------------ single steps

  lemma {:induction false} LoadWalks(u: Where, a: State, w: word) returns (b: State)
    requires InScope(u.c) && Ready(u.p, a, G.LitCode(w)) && |a.es| < EXS_SIZE && a.pc + |G.LitCode(w)| < 0x1_0000
    ensures Walked(u, [Load(w)], |G.LitCode(w)|, a, b)
  {
    hide Leads, G.LitCode;
    PushLit(u.p, a, w);
    b := ExprProof.Pushed(a, |G.LitCode(w)|, w);
    WalkedOne(u, Load(w), |G.LitCode(w)|, a, b);
  }

  lemma {:induction false} OperateWalks(u: Where, a: State, op: TotalOp) returns (b: State)
    requires InScope(u.c) && Ready(u.p, a, [OpByte(op)]) && 2 <= |a.es| <= EXS_SIZE && a.pc < 0xFFFF
    ensures Walked(u, [Operate(op)], 1, a, b)
  {
    assert MCode.Apply(op, Second(a), Top(a)).Some?;
    hide Leads, MCode.Apply, OpByte, DecodePlain, Ready, Did;
    var n := |a.es| - 2;
    var rest := a.es[..n];
    assert a.es == rest + [a.es[n], a.es[n + 1]];
    BinaryRuns(u.p, a, OpByte(op), op, rest, a.es[n], a.es[n + 1]);
    var w := MCode.Apply(op, a.es[n], a.es[n + 1]).value;
    b := a.(pc := a.pc + 1, es := rest + [w]);
    OperateDid(u.fs, op, Bare(a), rest, a.es[n], a.es[n + 1], w);
    WalkedOne(u, Operate(op), 1, a, b);
  }

  lemma {:induction false} OperateDid(fs: Meaning, op: TotalOp, a: State, rest: seq<word>, i: word, j: word, w: word)
    requires a.es == rest + [i, j] && |rest| < EXS_SIZE && MCode.Apply(op, i, j) == Some(w)
    ensures Did(fs, Operate(op), a, a.(es := rest + [w]))
  {
    hide MCode.Apply;
    assert Pop(a, 2).es == rest && Second(a) == i && Top(a) == j;
  }

  lemma {:induction false} StoreWalks(u: Where, a: State) returns (b: State)
    requires InScope(u.c) && Ready(u.p, a, [0xB2]) && a.s + |a.es| < MEM_SIZE && a.pc < 0xFFFF
    ensures Walked(u, [Store], 1, a, b)
  {
    Op1(u.p, a, 0xB2, SaveStack);
    hide Leads, Reverse, WriteAll, Decode;
    b := Save(Skip(a, 1)).value;
    assert Exec(u.p, Skip(a, 1), SaveStack) == Some(b);
    LeadsByExec(u.p, a, Decoded(SaveStack, a.pc + 1), b);
    assert Save(Bare(a)) == Some(Bare(b));
    WalkedOne(u, Store, 1, a, b);
  }

  lemma {:induction false} ReloadDecoded(p: seq<MCode.Module>, a: State)
    requires Ready(p, a, [0xB0])
    ensures a.modn < |p| && 0 < a.pc && Decode(p[a.modn].code, a.pc) == Some(Decoded(ReloadWord, a.pc + 1))
  {
    hide Decode, Exec;
    Op1(p, a, 0xB0, ReloadWord);
  }

  lemma {:induction false} ReloadEffect(p: seq<MCode.Module>, a: State, o: State)
    requires a.modn < |p| && a.pc < 0xFFFF && Reloaded(Bare(a)) == Some(o)
    ensures Resumed(a, o.(pc := a.pc + 1), 1)
    ensures Exec(p, Skip(a, 1), ReloadWord) == Some(o.(pc := a.pc + 1)) && Bare(o.(pc := a.pc + 1)) == o
  {
    hide Reverse, ExecUnary, ExecBinary, ExecJump, ExecFrame, Wrap, Signed;
  }

  lemma {:induction false} ReloadWalks(u: Where, a: State, o: State) returns (b: State)
    requires InScope(u.c) && Ready(u.p, a, [0xB0]) && a.pc < 0xFFFF && Reloaded(Bare(a)) == Some(o)
    ensures Walked(u, [Reload], 1, a, b)
  {
    hide Leads, Reverse, Decode, Ready, Walked, CodeAt, Exec, Restore, PushWord, Pop, DecodePlain;
    b := o.(pc := a.pc + 1);
    ReloadDecoded(u.p, a);
    ReloadEffect(u.p, a, o);
    LeadsByExec(u.p, a, Decoded(ReloadWord, a.pc + 1), b);
    assert Bare(b) == o;
    WalkedOne(u, Reload, 1, a, b);
  }

  lemma {:induction false} CallWalks(u: Where, a: State, f: nat) returns (b: State)
    requires InScope(u.c) && Return(u) && CallsHere(u, f, a)
    ensures Walked(u, [Call(f, |a.es|)], |CallBytes(ProcOf(u.c, f), u.c.level).value|, a, b)
  {
    hide Leads, CallBytes, Ready;
    assert ReturnsHere(u, f, a);
    b :| Leads(u.p)(a, Some(b)) && Returned(u.fs, f, |a.es|, a, b) && Resumed(a, b, |CallBytes(ProcOf(u.c, f), u.c.level).value|);
    assert Returned(u.fs, f, |a.es|, Bare(a), Bare(b));
    WalkedOne(u, Call(f, |a.es|), |CallBytes(ProcOf(u.c, f), u.c.level).value|, a, b);
  }

  // -------------------------------------------------------- whole expressions

  /** What has been walked has the effect that the steps have. */
  lemma {:induction false} WalkedValue(u: Where, e: FExpr, k: nat, a: State, b: State)
    requires Walked(u, Code(e, |a.es|), k, a, b) && |a.es| <= EXS_SIZE
    ensures Pending.Pushed(a, b, [Value(u.fs, e)]) && |b.es| <= EXS_SIZE
  {
    hide Leads, Pending.Runs, Value, Code;
    CodeRuns(u.fs, e, Bare(a), Bare(b));
  }

  lemma {:induction false} WalkedArgs(u: Where, args: FArgs, k: nat, a: State, b: State)
    requires Walked(u, ArgsCode(args), k, a, b) && a.es == []
    ensures Pending.Pushed(a, b, Values(u.fs, args)) && |b.es| == Pending.Count(args) <= EXS_SIZE
  {
    hide Leads, Pending.Runs, Value, Code;
    ArgsRun(u.fs, args, Bare(a), Bare(b));
  }

  /** The bytes before and those behind. */
  lemma {:induction false} Cut(c: Scope, x: seq<Pending.Step>, y: seq<Pending.Step>) returns (fx: seq<byte>, fy: seq<byte>)
    requires InScope(c) && Assembled(c, x + y).Some?
    ensures Assembled(c, x) == Some(fx) && Assembled(c, y) == Some(fy) && Assembled(c, x + y) == Some(fx + fy)
  {
    AssembledTwice(c, x, y, 0);
    fx, fy := Assembled(c, x).value, Assembled(c, y).value;
  }

  /** With room for it, the assembled code of an expression does run on the machine, step by step,
      when the functions it calls return. */
  lemma {:induction false} CodeWalks(u: Where, e: FExpr, frag: seq<byte>, a: State) returns (b: State)
    requires Framed(u, a) && Known(u.c, e)
    requires InScope(u.c) && Return(u) && u.limit < MEM_SIZE && Fits(e, |a.es|, a.s, u.limit) && |a.es| <= EXS_SIZE
    requires Assembled(u.c, Code(e, |a.es|)) == Some(frag) && Ready(u.p, a, frag) && a.pc + |frag| < 0x1_0000
    ensures Walked(u, Code(e, |a.es|), |frag|, a, b)
    decreases e, 2
  {
    match e
    case Const(w) =>
      AssembledOne(u.c, Load(w), 0);
      b := LoadWalks(u, a, w);
    case Both(op, l, r) => b := BothWalk(u, op, l, r, frag, a);
    case Apply(f, args) => b := ApplyWalks(u, f, args, frag, a);
  }

  lemma {:induction false} BothWalk(u: Where, op: TotalOp, l: FExpr, r: FExpr, frag: seq<byte>, a: State) returns (b: State)
    requires Framed(u, a) && Known(u.c, Both(op, l, r))
    requires InScope(u.c) && Return(u) && u.limit < MEM_SIZE && Fits(Both(op, l, r), |a.es|, a.s, u.limit) && |a.es| <= EXS_SIZE
    requires Assembled(u.c, Code(Both(op, l, r), |a.es|)) == Some(frag) && Ready(u.p, a, frag) && a.pc + |frag| < 0x1_0000
    ensures Walked(u, Code(Both(op, l, r), |a.es|), |frag|, a, b)
    decreases Both(op, l, r), 1
  {
    var n := |a.es|;
    var operands := Code(l, n) + Code(r, n + 1);
    assert Code(Both(op, l, r), n) == operands + [Operate(op)];
    hide Walked, Ready, Return, Assembled, Code, Framed, Below;
    var fs, fo := Cut(u.c, operands, [Operate(op)]);
    AssembledOne(u.c, Operate(op), 0);
    assert frag == fs + fo && fo == [OpByte(op)];
    var m := Later(a, |fs|);
    ReadyNext(u.p, a, fs, fo, m);
    var m2 := OperandsWalk(u, op, l, r, fs, a);
    WalkedOn(u, operands, |fs|, a, m2);
    ReadySame(u.p, m, m2, fo);
    b := OperateWalks(u, m2, op);
    WalkedTwice(u, operands, |fs|, [Operate(op)], 1, a, m2, b);
  }

  lemma {:induction false} ResumedAt(a: State, b: State, k: nat)
    requires Resumed(a, b, k)
    ensures b.pc as int == a.pc as int + k && b.modn == a.modn
  {
  }

  lemma {:induction false} LaterResumes(a: State, k: nat)
    requires a.pc + k < 0x1_0000
    ensures Resumed(a, Later(a, k), k) && Later(a, k) == a.(pc := a.pc + k)
  {
  }

  lemma {:induction false} OnTop(a: State, b: State, w: word)
    requires Pending.Pushed(a, b, [w])
    ensures b.es == a.es + [w] && b.s == a.s && Below(a, b)
  {
  }

  /** The operands of an operator, one behind the other. */
  lemma {:induction false} OperandsWalk(u: Where, op: TotalOp, l: FExpr, r: FExpr, frag: seq<byte>, a: State) returns (b: State)
    requires Framed(u, a) && Known(u.c, l) && Known(u.c, r)
    requires InScope(u.c) && Return(u) && u.limit < MEM_SIZE && Fits(l, |a.es|, a.s, u.limit) && Fits(r, |a.es| + 1, a.s, u.limit) && |a.es| <= EXS_SIZE
    requires Assembled(u.c, Code(l, |a.es|) + Code(r, |a.es| + 1)) == Some(frag) && Ready(u.p, a, frag) && a.pc + |frag| < 0x1_0000
    ensures Walked(u, Code(l, |a.es|) + Code(r, |a.es| + 1), |frag|, a, b) && |b.es| == |a.es| + 2 <= EXS_SIZE
    decreases Both(op, l, r), 0
  {
    hide *;
    var n := |a.es|;
    var cl, cr := Code(l, n), Code(r, n + 1);
    var fl, fr := Cut(u.c, cl, cr);
    LaterResumes(a, |fl|);
    ReadyNext(u.p, a, fl, fr, Later(a, |fl|));
    var m1 := CodeWalks(u, l, fl, a);
    WalkedValue(u, l, |fl|, a, m1);
    OnTop(a, m1, Value(u.fs, l));
    WalkedOn(u, cl, |fl|, a, m1);
    ResumedAt(a, m1, |fl|);
    ReadySame(u.p, Later(a, |fl|), m1, fr);
    FramedStill(u, a, m1, |fl|);
    b := CodeWalks(u, r, fr, m1);
    WalkedValue(u, r, |fr|, m1, b);
    OnTop(m1, b, Value(u.fs, r));
    WalkedTwice(u, cl, |fl|, cr, |fr|, a, m1, b);
  }

  /** The place k bytes later. */
  function Later(a: State, k: nat): State
    requires a.pc + k < 0x1_0000
  {
    a.(pc := a.pc + k)
  }

  lemma {:induction false} WalkedOn(u: Where, steps: seq<Pending.Step>, k: nat, a: State, b: State)
    requires Walked(u, steps, k, a, b)
    ensures Resumed(a, b, k)
  {
  }

  lemma {:induction false} ReadySame(p: seq<MCode.Module>, a: State, b: State, frag: seq<byte>)
    requires Ready(p, a, frag) && a.pc == b.pc && a.modn == b.modn
    ensures Ready(p, b, frag)
  {
  }

  lemma {:induction false} ArgsWalk(u: Where, args: FArgs, frag: seq<byte>, a: State) returns (b: State)
    requires Framed(u, a) && AllKnown(u.c, args)
    requires InScope(u.c) && Return(u) && u.limit < MEM_SIZE && ArgsFit(args, a.s, u.limit) && a.es == []
    requires Assembled(u.c, ArgsCode(args)) == Some(frag) && Ready(u.p, a, frag) && a.pc + |frag| < 0x1_0000
    ensures Walked(u, ArgsCode(args), |frag|, a, b)
    decreases args, 0
  {
    if args == NoArgs {
      b := a;
      WalkedNone(u, a);
    } else {
      hide Walked, Ready, Return, Assembled, Framed, Below;
      var n := Pending.Count(args.init);
      var fi, fl := Cut(u.c, ArgsCode(args.init), Code(args.last, n));
      ReadyNext(u.p, a, fi, fl, Later(a, |fi|));
      var m := ArgsWalk(u, args.init, fi, a);
      WalkedArgs(u, args.init, |fi|, a, m);
      WalkedOn(u, ArgsCode(args.init), |fi|, a, m);
      ReadySame(u.p, Later(a, |fi|), m, fl);
      FramedStill(u, a, m, |fi|);
      b := CodeWalks(u, args.last, fl, m);
      WalkedTwice(u, ArgsCode(args.init), |fi|, Code(args.last, n), |fl|, a, m, b);
    }
  }

  lemma {:induction false} ApplyWalks(u: Where, f: nat, args: FArgs, frag: seq<byte>, a: State) returns (b: State)
    requires Framed(u, a) && Known(u.c, Apply(f, args))
    requires InScope(u.c) && Return(u) && u.limit < MEM_SIZE && Fits(Apply(f, args), |a.es|, a.s, u.limit) && |a.es| <= EXS_SIZE
    requires Assembled(u.c, Code(Apply(f, args), |a.es|)) == Some(frag) && Ready(u.p, a, frag) && a.pc + |frag| < 0x1_0000
    ensures Walked(u, Code(Apply(f, args), |a.es|), |frag|, a, b)
    decreases args, 2
  {
    hide Exec, Decode, Wrap, DecodePlain, DecodeByte, DecodeTwo, Ready, DecodeThree, ExecUnary, BitAnd, TruncDiv, CodeAt, Pow2;
    var n := |a.es|;
    var s12, s3, s4 := Prep(n) + ArgsCode(args), [Call(f, Pending.Count(args))], Adjust(n);
    assert Code(Apply(f, args), n) == s12 + s3 + s4;
    hide Walked, Ready, Return, Assembled, Code, Fits, Save, Restore, Framed, Below, CallBytes;
    var f123, f4 := Cut(u.c, s12 + s3, s4);
    var f12, f3 := Cut(u.c, s12, s3);
    ReadyNext(u.p, a, f123, f4, Later(a, |f123|));
    ReadyNext(u.p, a, f12, f3, Later(a, |f12|));
    var m1, m2 := FrontWalks(u, f, args, f12, a);
    ReadySame(u.p, Later(a, |f12|), m2, f3);
    AssembledOne(u.c, Call(f, Pending.Count(args)), 0);
    assert CallsHere(u, f, m2);
    var m3 := CallWalks(u, m2, f);
    WalkedTwice(u, s12, |f12|, s3, |f3|, a, m2, m3);
    WalkedOn(u, s12 + s3, |f123|, a, m3);
    ReadySame(u.p, Later(a, |f123|), m3, f4);
    CallDid(u, f, |f3|, m2, m3);
    b := AdjustWalks(u, f4, a, m1, m3);
    WalkedTwice(u, s12 + s3, |f123|, s4, |f4|, a, m3, b);
  }

  /** The waiting operands are stored, and the arguments are computed. */
  lemma {:induction false} FrontWalks(u: Where, f: nat, args: FArgs, frag: seq<byte>, a: State) returns (m1: State, m2: State)
    requires Framed(u, a) && Known(u.c, Apply(f, args))
    requires InScope(u.c) && Return(u) && u.limit < MEM_SIZE && Fits(Apply(f, args), |a.es|, a.s, u.limit) && |a.es| <= EXS_SIZE
    requires Assembled(u.c, Prep(|a.es|) + ArgsCode(args)) == Some(frag) && Ready(u.p, a, frag) && a.pc + |frag| < 0x1_0000
    ensures Walked(u, Prep(|a.es|) + ArgsCode(args), |frag|, a, m2) && Resumed(a, m2, |frag|)
    ensures |m2.es| == Pending.Count(args) <= EXS_SIZE && m2.s == m1.s <= u.limit && |a.es| < EXS_SIZE && Below(m1, m2) && Framed(u, m2)
    ensures |a.es| > 0 ==> Save(Bare(a)) == Some(Bare(m1)) && m1.s > 0
    decreases args, 1
  {
    hide Walked, Ready, Return, Assembled, Fits, Save, Framed, Below;
    var s1, s2 := Prep(|a.es|), ArgsCode(args);
    var f1, f2 := Cut(u.c, s1, s2);
    ReadyNext(u.p, a, f1, f2, Later(a, |f1|));
    m1 := PrepWalks(u, f, args, f1, a);
    ReadySame(u.p, Later(a, |f1|), m1, f2);
    m2 := ArgsWalk(u, args, f2, m1);
    WalkedArgs(u, args, |f2|, m1, m2);
    WalkedOn(u, s2, |f2|, m1, m2);
    FramedStill(u, m1, m2, |f2|);
    WalkedTwice(u, s1, |f1|, s2, |f2|, a, m1, m2);
    WalkedOn(u, s1 + s2, |frag|, a, m2);
  }

  lemma {:induction false} CallDid(u: Where, f: nat, k: nat, a: State, b: State)
    requires Walked(u, [Call(f, |a.es|)], k, a, b)
    ensures |b.es| == 1 && b.s == a.s && Below(a, b)
  {
    RunsOne(u.fs, Call(f, |a.es|), Bare(a), Bare(b));
  }

  /** STORE writes above S only. */
  lemma {:induction false} SaveBelow(a: State, b: State)
    requires Save(a) == Some(b) && a.s as int + |a.es| + 1 < MEM_SIZE
    ensures a.s <= b.s && Below(a, b)
  {
    hide Reverse, WriteAll;
    WrittenWords(a.mem, a.s, Reverse(a.es) + [Wrap(|a.es|)]);
  }

  lemma {:induction false} PrepWalks(u: Where, f: nat, args: FArgs, frag: seq<byte>, a: State) returns (b: State)
    requires Framed(u, a)
    requires InScope(u.c) && u.limit < MEM_SIZE && Fits(Apply(f, args), |a.es|, a.s, u.limit) && |a.es| <= EXS_SIZE
    requires Assembled(u.c, Prep(|a.es|)) == Some(frag) && Ready(u.p, a, frag) && a.pc + |frag| < 0x1_0000
    ensures Walked(u, Prep(|a.es|), |frag|, a, b) && Resumed(a, b, |frag|)
    ensures b.es == [] && ArgsFit(args, b.s, u.limit) && b.s <= u.limit && |a.es| < EXS_SIZE && Framed(u, b)
    ensures if |a.es| > 0 then Save(Bare(a)) == Some(Bare(b)) && b.s > 0 else b == a
  {
    hide ArgsFit;
    if |a.es| > 0 {
      AssembledOne(u.c, Store, 0);
      b := StoreWalks(u, a);
      RunsOne(u.fs, Store, Bare(a), Bare(b));
      SaveBelow(Bare(a), Bare(b));
      FramedStill(u, a, b, 1);
    } else {
      b := a;
      WalkedNone(u, a);
    }
  }

  lemma {:induction false} AdjustWalks(u: Where, frag: seq<byte>, a: State, m1: State, m3: State) returns (b: State)
    requires InScope(u.c) && |a.es| < EXS_SIZE && Assembled(u.c, Adjust(|a.es|)) == Some(frag) && Ready(u.p, m3, frag) && m3.pc + |frag| < 0x1_0000
    requires |a.es| > 0 ==> Save(Bare(a)) == Some(Bare(m1)) && m1.s > 0
    requires |m3.es| == 1 && m3.s == m1.s && Below(m1, m3)
    ensures Walked(u, Adjust(|a.es|), |frag|, m3, b)
  {
    if |a.es| > 0 {
      AssembledOne(u.c, Reload, 0);
      hide Save, Restore;
      var o := ReloadCanRun(Bare(a), Bare(m1), Bare(m3), m3.es[0]);
      b := ReloadWalks(u, m3, o);
    } else {
      b := m3;
      WalkedNone(u, m3);
    }
  }

  /** The bytes that the generator emits for an expression with calls, however deeply nested, leave
      its value on top of the waiting operands, the memory below S as it was and the frame the
      same, whenever there is room and the called functions return. */
  lemma {:induction false} EmittedRuns(u: Where, e: FExpr, at: Site, frag: seq<byte>, a: State) returns (b: State)
    requires Framed(u, a) && Known(u.c, e)
    requires InScope(u.c) && Return(u) && u.limit < MEM_SIZE && Fits(e, |a.es|, a.s, u.limit) && |a.es| <= EXS_SIZE
    requires at.Site? && at.sp == |a.es| && Emitted(u.c, at, e).Site? && Emitted(u.c, at, e).out == at.out + frag
    requires Ready(u.p, a, frag) && a.pc + |frag| < 0x1_0000
    ensures Leads(u.p)(a, Some(b)) && Resumed(a, b, |frag|)
    ensures b.es == a.es + [Value(u.fs, e)] && b.s == a.s && Below(a, b)
  {
    EmitsCode(u.c, at, e);
    assert Assembled(u.c, Code(e, at.sp)).value == (at.out + frag)[|at.out|..] == frag;
    hide Leads, Pending.Runs;
    b := CodeWalks(u, e, frag, a);
    WalkedValue(u, e, |frag|, a, b);
  }
}
