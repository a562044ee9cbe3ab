/** Which statements the correctness theorem covers, and how their code is put together. */
module StmtParts {
  import opened Words
  import opened Options
  import opened MCode
  import opened Lang
  import opened StmtLang
  import opened ExprProof
  import opened StmtGen
  import opened StmtProof
  import G = ExprGen

  /** What the machine can carry of a statement: expressions that fit its expression stack and
      the byte-sized jumps, FOR steps of one byte, CASE labels that do not span the sign. */
  ghost predicate Fits(s: Stmt, env: Env) {
    match s
    case Empty => true
    case Seq(a, b) => Fits(a, env) && Fits(b, env)
    case Assign(v, e) => Storable(v, env.lev) && ExprFits(e, env, if 0 < v.lev < env.lev then 1 else 0)
    case If(c, t) => ExprFits(c, env, 0) && Fits(t, env)
    case IfElse(c, t, f) => ExprFits(c, env, 0) && Fits(t, env) && Fits(f, env)
    case While(g) => GuardsFit(g, env)
    case Repeat(b, c) => ExprFits(c, env, 0) && Fits(b, env)
    case Loop(b) => Fits(b, env)
    case Exit => true
    case For(v, low, high, step, b) =>
      ExprFits(low, env, 1) && ExprFits(high, env, 2) && -0x80 <= step < 0x80 && Fits(b, env)
    case Case(e, arms, d) => ExprFits(e, env, 0) && ArmsFit(arms, env) && (d.Else? ==> Fits(d.body, env))
  }

  ghost predicate GuardsFit(g: Guards, env: Env) {
    ExprFits(g.cond, env, 0) && Fits(g.body, env) && (g.More? ==> GuardsFit(g.rest, env))
  }

  ghost predicate ArmsFit(a: Arms, env: Env) {
    a.Arm? ==> LabelsFit(a.labels) && Fits(a.body, env) && ArmsFit(a.rest, env)
  }

  predicate LabelsFit(rs: seq<Range>) {
    forall i :: 0 <= i < |rs| ==> 0 <= rs[i].low && rs[i].high <= MAX_INT
  }

  function MaxWords(a: nat, b: nat): nat { if a >= b then a else b }

  /** How many words a statement may put on the machine's memory stack. */
  function StackWords(s: Stmt): nat {
    match s
    case Empty => 0
    case Seq(a, b) => MaxWords(StackWords(a), StackWords(b))
    case Assign(_, _) => 0
    case If(_, t) => StackWords(t)
    case IfElse(_, t, f) => MaxWords(StackWords(t), StackWords(f))
    case While(g) => GuardWords(g)
    case Repeat(b, _) => StackWords(b)
    case Loop(b) => StackWords(b)
    case Exit => 0
    case For(_, _, _, _, b) => 2 + StackWords(b)
    case Case(_, arms, d) => 1 + MaxWords(ArmWords(arms), if d.Else? then StackWords(d.body) else 0)
  }

  function GuardWords(g: Guards): nat {
    MaxWords(StackWords(g.body), if g.More? then GuardWords(g.rest) else 0)
  }

  function ArmWords(a: Arms): nat {
    if a.NoArms? then 0 else MaxWords(StackWords(a.body), ArmWords(a.rest))
  }

  /** Statement s is covered by the theorem, and f is what the generator makes of it. */
  ghost predicate StmtCompiled(env: Env, s: Stmt, free: bool, f: Flow) {
    Sketch(s, env.lev) == Some(f) && WellTyped(s, env.vars) && Fits(s, env) && ExitsStayInside(s, free)
  }

  ghost predicate GuardsCompiled(env: Env, g: Guards, free: bool, f: FlowGuards) {
    SketchGuards(g, env.lev) == Some(f) && GuardsTyped(g, env.vars) && GuardsFit(g, env) && GuardExits(g, free)
  }

  ghost predicate ArmsCompiled(env: Env, a: Arms, f: FlowArms) {
    SketchArms(a, env.lev) == Some(f) && ArmsTyped(a, env.vars) && ArmsFit(a, env) && ArmExits(a)
  }

  // exposed to the solver one instance at a time

  ghost function Compiled(): (f: (Env, Stmt, bool, Flow) -> bool)
    ensures forall env, s, free, fl {:trigger StmtCompiled(env, s, free, fl)} ::
              f(env, s, free, fl) == StmtCompiled(env, s, free, fl)
  {
    assert CompiledGraph((env, s, free, fl) => StmtCompiled(env, s, free, fl));
    var f: (Env, Stmt, bool, Flow) -> bool :| CompiledGraph(f);
    f
  }

  ghost predicate CompiledGraph(f: (Env, Stmt, bool, Flow) -> bool) {
    forall env, s, free, fl {:trigger StmtCompiled(env, s, free, fl)} ::
      f(env, s, free, fl) == StmtCompiled(env, s, free, fl)
  }

  ghost function Guarded(): (f: (Env, Guards, bool, FlowGuards) -> bool)
    ensures forall env, g, free, fl {:trigger GuardsCompiled(env, g, free, fl)} ::
              f(env, g, free, fl) == GuardsCompiled(env, g, free, fl)
  {
    assert GuardedGraph((env, g, free, fl) => GuardsCompiled(env, g, free, fl));
    var f: (Env, Guards, bool, FlowGuards) -> bool :| GuardedGraph(f);
    f
  }

  ghost predicate GuardedGraph(f: (Env, Guards, bool, FlowGuards) -> bool) {
    forall env, g, free, fl {:trigger GuardsCompiled(env, g, free, fl)} ::
      f(env, g, free, fl) == GuardsCompiled(env, g, free, fl)
  }

  ghost function Armed(): (f: (Env, Arms, FlowArms) -> bool)
    ensures forall env, a, fl {:trigger ArmsCompiled(env, a, fl)} :: f(env, a, fl) == ArmsCompiled(env, a, fl)
  {
    assert ArmedGraph((env, a, fl) => ArmsCompiled(env, a, fl));
    var f: (Env, Arms, FlowArms) -> bool :| ArmedGraph(f);
    f
  }

  ghost predicate ArmedGraph(f: (Env, Arms, FlowArms) -> bool) {
    forall env, a, fl {:trigger ArmsCompiled(env, a, fl)} :: f(env, a, fl) == ArmsCompiled(env, a, fl)
  }

  // ------------------------------------------------- the parts of compiled code

  lemma {:induction false} EmptyParts(env: Env, free: bool, f: Flow)
    requires Compiled()(env, Empty, free, f)
    ensures f == Straight([])
  {
    assert StmtCompiled(env, Empty, free, f);
  }

  lemma {:induction false} SeqParts(env: Env, a: Stmt, b: Stmt, free: bool, f: Flow) returns (fa: Flow, fb: Flow)
    requires Compiled()(env, Seq(a, b), free, f)
    ensures f == Chain(fa, fb) && Compiled()(env, a, free, fa) && Compiled()(env, b, free, fb)
  {
    assert StmtCompiled(env, Seq(a, b), free, f);
    fa, fb := f.first, f.second;
    assert StmtCompiled(env, a, free, fa) && StmtCompiled(env, b, free, fb);
  }

  lemma {:induction false} AssignCompiled(env: Env, v: Var, e: Expr, free: bool, f: Flow)
    requires Compiled()(env, Assign(v, e), free, f)
    ensures v in env.vars && Storable(v, env.lev)
    ensures ExprFits(e, env, if 0 < v.lev < env.lev then 1 else 0)
    ensures f.Straight? && AssignCode(v, e, env.lev) == Some(f.code)
  {
    assert StmtCompiled(env, Assign(v, e), free, f);
  }

  lemma {:induction false} IfParts(env: Env, e: Expr, t: Stmt, free: bool, f: Flow) returns (cc: seq<byte>, ft: Flow)
    requires Compiled()(env, If(e, t), free, f)
    ensures f == Branch(cc, ft)
    ensures IsBool(e) && Prepared()(env, e, 0, cc) && Compiled()(env, t, free, ft)
  {
    assert StmtCompiled(env, If(e, t), free, f);
    cc, ft := f.cond, f.thn;
    CondParts(env, e, cc);
    assert StmtCompiled(env, t, free, ft);
  }

  lemma {:induction false} IfElseParts(env: Env, e: Expr, t: Stmt, u: Stmt, free: bool, f: Flow) returns (cc: seq<byte>, ft: Flow, fu: Flow)
    requires Compiled()(env, IfElse(e, t, u), free, f)
    ensures f == Branch2(cc, ft, fu)
    ensures IsBool(e) && Prepared()(env, e, 0, cc)
    ensures Compiled()(env, t, free, ft) && Compiled()(env, u, free, fu)
  {
    assert StmtCompiled(env, IfElse(e, t, u), free, f);
    cc, ft, fu := f.cond, f.thn, f.els;
    CondParts(env, e, cc);
    assert StmtCompiled(env, t, free, ft) && StmtCompiled(env, u, free, fu);
  }

  lemma {:induction false} WhileParts(env: Env, g: Guards, free: bool, f: Flow) returns (fg: FlowGuards)
    requires Compiled()(env, While(g), free, f)
    ensures f == Rounds(fg) && Guarded()(env, g, free, fg)
  {
    assert StmtCompiled(env, While(g), free, f);
    fg := f.guards;
    assert GuardsCompiled(env, g, free, fg);
  }

  lemma {:induction false} GuardParts(env: Env, g: Guards, free: bool, f: FlowGuards)
    requires Guarded()(env, g, free, f)
    ensures IsBool(g.cond) && Prepared()(env, g.cond, 0, f.cond) && Compiled()(env, g.body, free, f.body)
    ensures g.Last? == f.LastGuard?
    ensures g.More? ==> Guarded()(env, g.rest, free, f.rest)
  {
    assert GuardsCompiled(env, g, free, f);
    CondParts(env, g.cond, f.cond);
    assert StmtCompiled(env, g.body, free, f.body);
    if g.More? {
      assert GuardsCompiled(env, g.rest, free, f.rest);
    }
  }

  lemma {:induction false} RepeatParts(env: Env, b: Stmt, e: Expr, free: bool, f: Flow) returns (fb: Flow, cc: seq<byte>)
    requires Compiled()(env, Repeat(b, e), free, f)
    ensures f == Until(fb, cc)
    ensures IsBool(e) && Prepared()(env, e, 0, cc) && Compiled()(env, b, free, fb)
  {
    assert StmtCompiled(env, Repeat(b, e), free, f);
    fb, cc := f.body, f.cond;
    CondParts(env, e, cc);
    assert StmtCompiled(env, b, free, fb);
  }

  lemma {:induction false} LoopParts(env: Env, b: Stmt, free: bool, f: Flow) returns (fb: Flow)
    requires Compiled()(env, Loop(b), free, f)
    ensures f == Forever(fb) && Compiled()(env, b, true, fb)
  {
    assert StmtCompiled(env, Loop(b), free, f);
    fb := f.body;
    assert StmtCompiled(env, b, true, fb);
  }

  lemma {:induction false} ExitParts(env: Env, free: bool, f: Flow)
    requires Compiled()(env, Exit, free, f)
    ensures f == Leave && free
  {
    assert StmtCompiled(env, Exit, free, f);
  }

  lemma {:induction false} ForParts(env: Env, s: Stmt, free: bool, f: Flow)
    requires s.For? && Compiled()(env, s, free, f)
    ensures f.Count? && f.step == s.step && s.step != 0 && -0x80 <= s.step < 0x80
    ensures ForHead(s.v, s.low, s.high, env.lev) == Some(f.head)
    ensures s.v in env.vars && s.v.typ != Bool
    ensures ExprFits(s.low, env, 1) && ExprFits(s.high, env, 2) && TypeOf(s.high) != Some(Bool)
    ensures Compiled()(env, s.body, false, f.body)
  {
    assert StmtCompiled(env, s, free, f);
    assert StmtCompiled(env, s.body, false, f.body);
  }

  lemma {:induction false} CaseParts(env: Env, e: Expr, a: Arms, d: Default, free: bool, f: Flow)
    requires Compiled()(env, Case(e, a, d), free, f)
    ensures f.Choice? && Prepared()(env, e, 0, f.sel) && Armed()(env, a, f.arms)
    ensures ArmTable(a, f.arms, 0, []) == Some(f.tab)
    ensures d.Trapping? == f.default.TrapHere?
    ensures d.Else? ==> Compiled()(env, d.body, false, f.default.body)
  {
    assert StmtCompiled(env, Case(e, a, d), free, f);
    assert SketchDefault(d, env.lev) == Some(f.default);
    assert ValuePrepared(env, e, 0, f.sel);
    assert ArmsCompiled(env, a, f.arms);
    if d.Else? {
      assert StmtCompiled(env, d.body, false, f.default.body);
    }
  }

  lemma {:induction false} ArmParts(env: Env, a: Arms, f: FlowArms)
    requires a.Arm? && Armed()(env, a, f)
    ensures f.FlowArm? && LabelsFit(a.labels)
    ensures Compiled()(env, a.body, false, f.body) && Armed()(env, a.rest, f.rest)
  {
    assert ArmsCompiled(env, a, f);
    assert StmtCompiled(env, a.body, false, f.body);
    assert ArmsCompiled(env, a.rest, f.rest);
  }
}
