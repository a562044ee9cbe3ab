/** Which statements the compiler accepts. `Acceptable` names values of literals, addresses, levels,
    steps and labels of the source, and the words of the expression stack that its expressions need,
    but nothing of the generator; a well-typed statement is compiled exactly when it is acceptable. */
module AcceptedStmts {
  import opened Words
  import opened Options
  import opened Lang
  import opened StmtLang
  import opened StmtGen
  import opened CaseTable
  import opened Acceptance
  import opened Loops
  import opened Placing
  import G = ExprGen

  // -------------------------------------------------------------- what is asked

  /** The value of e fits on the expression stack of 16 words on top of `base` words. */
  predicate ValueFits(e: Expr, lev: nat, base: nat) {
    Loadable(e, lev) && base + Need(e) <= 16
  }

  /** A constant of the other of the types CARDINAL and INTEGER is a value of both. */
  predicate LiteralFits(t: Typ, e: Expr) {
    TypeOf(e) == Some(t) || Constant(e).None? || 0 <= Constant(e).value <= 32767
  }

  /** An assignment: one word on the stack is the base address of a variable of a level between. */
  predicate AssignFits(v: Var, e: Expr, lev: nat) {
    Reachable(v, lev) && ValueFits(e, lev, if 0 < v.lev < lev then 1 else 0) && LiteralFits(v.typ, e)
  }

  /** The bounds of a FOR are loaded behind the address of its variable. */
  predicate BoundsFit(v: Var, low: Expr, high: Expr, lev: nat) {
    v.lev <= lev && ValueFits(low, lev, 1) && LiteralFits(v.typ, low) && ValueFits(high, lev, 2)
  }

  /** The labels of a CASE: each range nonempty, no two with a common value, and few enough. */
  predicate LabelsApart(rs: seq<Range>) {
    && |rs| <= 128 && (forall i :: 0 <= i < |rs| ==> rs[i].low <= rs[i].high)
    && (forall i, j :: 0 <= i < j < |rs| ==> rs[i].high < rs[j].low || rs[j].high < rs[i].low)
  }

  function AllLabels(a: Arms): seq<Range> {
    if a.NoArms? then [] else a.labels + AllLabels(a.rest)
  }

  predicate Acceptable(s: Stmt, lev: nat)
    decreases s
  {
    match s
    case Empty => true
    case Seq(a, b) => Acceptable(a, lev) && Acceptable(b, lev)
    case Assign(v, e) => AssignFits(v, e, lev)
    case If(c, t) => ValueFits(c, lev, 0) && Acceptable(t, lev)
    case IfElse(c, t, f) => ValueFits(c, lev, 0) && Acceptable(t, lev) && Acceptable(f, lev)
    case While(g) => GuardsAcceptable(g, lev)
    case Repeat(b, c) => Acceptable(b, lev) && ValueFits(c, lev, 0)
    case Loop(b) => Acceptable(b, lev)
    case Exit => true
    case For(v, low, high, step, b) => BoundsFit(v, low, high, lev) && Acceptable(b, lev) && step != 0
    case Case(e, arms, d) =>
      ValueFits(e, lev, 0) && ArmsAcceptable(arms, lev) && (d.Else? ==> Acceptable(d.body, lev)) && LabelsApart(AllLabels(arms))
  }

  predicate GuardsAcceptable(g: Guards, lev: nat)
    decreases g
  {
    ValueFits(g.cond, lev, 0) && Acceptable(g.body, lev) && (g.More? ==> GuardsAcceptable(g.rest, lev))
  }

  predicate ArmsAcceptable(a: Arms, lev: nat)
    decreases a
  {
    a.Arm? ==> Acceptable(a.body, lev) && ArmsAcceptable(a.rest, lev)
  }

  // ---------------------------------------------------------------- expressions

  lemma {:induction false} ValueAccepted(e: Expr, lev: nat, base: nat)
    requires TypeOf(e).Some?
    ensures ValueCode(e, lev, base).Some? <==> ValueFits(e, lev, base)
  {
    hide *;
    ExprAccepted(e, lev);
    LoadedWhen(e, lev);
    ValueUnfolds(e, lev, base);
  }

  lemma {:induction false} ValueUnfolds(e: Expr, lev: nat, base: nat)
    ensures ValueFits(e, lev, base) == (Loadable(e, lev) && base + Need(e) <= 16)
    ensures ValueCode(e, lev, base).Some? <==> G.GenLoaded(e, lev).Some? && base + G.GenLoaded(e, lev).value.peak <= 16
    ensures G.GenLoaded(e, lev).Some? ==> G.GenExpr(e, lev).Some?
  {
    hide G.GenExpr, G.Force, Loadable, Need;
  }

  /** The type and the constant of the item that an expression leaves behind. */
  lemma {:induction false} ItemOf(e: Expr, lev: nat)
    requires TypeOf(e).Some? && G.GenExpr(e, lev).Some?
    ensures var x := G.GenExpr(e, lev).value.x;
            && G.ItemTyp(x) == TypeOf(e).value && (x.ConM? <==> Constant(e).Some?)
            && (x.ConM? ==> x.val == Wrap(Constant(e).value) && InRange(TypeOf(e).value, Constant(e).value))
  {
    ExprAccepted(e, lev);
    hide G.GenExpr, Loadable, Need, TypeOf, Constant, Wrap, SmallLiteral, G.ItemTyp;
  }

  lemma {:induction false} CondAccepted(c: Expr, lev: nat)
    requires IsBool(c)
    ensures CondCode(c, lev).Some? <==> ValueFits(c, lev, 0)
  {
    ValueAccepted(c, lev, 0);
    ValueUnfolds(c, lev, 0);
    if G.GenExpr(c, lev).Some? {
      ItemOf(c, lev);
    }
    hide ValueCode, ValueFits, G.GenExpr, TypeOf, Constant, G.ItemTyp, G.GenLoaded;
  }

  /** A word that is a constant is at most MaxInt exactly when both types have the number. */
  lemma {:induction false} BothTypes(t: Typ, u: Typ, x: int)
    requires t != u && t != Bool && u != Bool && InRange(u, x)
    ensures Wrap(x) <= MAX_INT <==> 0 <= x <= MAX_INT
  {
  }

  lemma {:induction false} AssignedAccepted(t: Typ, e: Expr, lev: nat, base: nat)
    requires TypeOf(e).Some? && Assignable(t, TypeOf(e).value)
    ensures AssignedCode(t, e, lev, base).Some? <==> ValueFits(e, lev, base) && LiteralFits(t, e)
  {
    ValueAccepted(e, lev, base);
    ValueUnfolds(e, lev, base);
    if G.GenExpr(e, lev).Some? {
      ItemOf(e, lev);
      if t != TypeOf(e).value && Constant(e).Some? {
        BothTypes(t, TypeOf(e).value, Constant(e).value);
      }
    }
    hide ValueCode, ValueFits, G.GenExpr, TypeOf, Constant, G.ItemTyp, G.GenLoaded, Wrap, InRange;
  }

  lemma {:induction false} LimitAccepted(t: Typ, e: Expr, lev: nat, base: nat)
    requires TypeOf(e).Some? && t != Bool && TypeOf(e).value != Bool
    ensures LimitCode(t, e, lev, base).Some? <==> ValueFits(e, lev, base)
  {
    ValueAccepted(e, lev, base);
    ValueUnfolds(e, lev, base);
    if G.GenExpr(e, lev).Some? {
      ItemOf(e, lev);
    }
    hide ValueCode, ValueFits, G.GenExpr, TypeOf, Constant, G.ItemTyp, G.GenLoaded;
  }

  lemma {:induction false} AssignAccepted(v: Var, e: Expr, lev: nat)
    requires TypeOf(e).Some? && Assignable(v.typ, TypeOf(e).value)
    ensures AssignCode(v, e, lev).Some? <==> AssignFits(v, e, lev)
  {
    AssignedAccepted(v.typ, e, lev, if 0 < v.lev < lev then 1 else 0);
    hide AssignedCode, ValueFits, LiteralFits, TypeOf;
  }

  lemma {:induction false} HeadAccepted(v: Var, low: Expr, high: Expr, lev: nat)
    requires v.typ != Bool && TypeOf(low).Some? && Assignable(v.typ, TypeOf(low).value)
    requires TypeOf(high).Some? && TypeOf(high).value != Bool
    ensures ForHead(v, low, high, lev).Some? <==> BoundsFit(v, low, high, lev)
  {
    AssignedAccepted(v.typ, low, lev, 1);
    LimitAccepted(v.typ, high, lev, 2);
    hide AssignedCode, LimitCode, ValueFits, LiteralFits, TypeOf;
  }

  // --------------------------------------------------------------------- labels

  predicate Clash(rs: seq<Range>, r: Range) {
    exists i :: 0 <= i < |rs| && rs[i].low <= r.high && r.low <= rs[i].high
  }

  /** A table holds exactly the ranges seen so far. */
  ghost predicate Holds(tab: seq<Entry>, rs: seq<Range>) {
    && Ordered(tab) && |tab| == |rs|
    && (forall r: Range :: r.low <= r.high ==> (Clash(rs, r) <==> OverlapsSome(tab, Entry(r.low, r.high, 0))))
  }

  lemma {:induction false} AppendApart(rs: seq<Range>, r: Range)
    requires LabelsApart(rs)
    ensures LabelsApart(rs + [r]) <==> |rs| < 128 && r.low <= r.high && !Clash(rs, r)
  {
    var t := rs + [r];
    assert t[|rs|] == r && forall i :: 0 <= i < |rs| ==> t[i] == rs[i];
    if Clash(rs, r) {
      var i :| 0 <= i < |rs| && rs[i].low <= r.high && r.low <= rs[i].high;
      assert !(t[i].high < t[|rs|].low || t[|rs|].high < t[i].low);
    }
  }

  lemma {:induction false} ApartPrefix(a: seq<Range>, b: seq<Range>)
    requires LabelsApart(a + b)
    ensures LabelsApart(a)
  {
    assert forall i :: 0 <= i < |a| ==> (a + b)[i] == a[i];
  }

  lemma {:induction false} AppendClash(rs: seq<Range>, x: Range, r: Range)
    ensures Clash(rs + [x], r) <==> Clash(rs, r) || (x.low <= r.high && r.low <= x.high)
  {
    var t := rs + [x];
    assert t[|rs|] == x;
    if Clash(rs, r) {
      var i :| 0 <= i < |rs| && rs[i].low <= r.high && r.low <= rs[i].high;
      assert t[i] == rs[i];
    }
  }

  lemma {:induction false} InsertOverlaps(tab: seq<Entry>, x: Entry, y: Entry)
    requires Insert(tab, x).Some?
    ensures OverlapsSome(Insert(tab, x).value, y) <==> OverlapsSome(tab, y) || Overlap(x, y)
  {
    var t := Insert(tab, x).value;
    InsertAdds(tab, x);
    hide Insert, Overlap;
    if OverlapsSome(t, y) {
      var i :| 0 <= i < |t| && Overlap(t[i], y);
      assert t[i] in multiset(t);
      if t[i] != x {
        assert t[i] in tab;
      }
    }
    if OverlapsSome(tab, y) {
      var i :| 0 <= i < |tab| && Overlap(tab[i], y);
      assert tab[i] in multiset(t);
      assert tab[i] in t;
    }
    if Overlap(x, y) {
      assert x in multiset(t);
      assert x in t;
    }
  }

  lemma {:induction false} InsertLength(tab: seq<Entry>, x: Entry)
    requires Insert(tab, x).Some?
    ensures |Insert(tab, x).value| == |tab| + 1
    decreases |tab|
  {
    if tab != [] && tab[|tab| - 1].low > x.high {
      InsertLength(tab[..|tab| - 1], x);
    }
  }

  /** One more range: it is taken exactly when it is apart from all before it. */
  lemma {:induction false} InsertWhen(tab: seq<Entry>, rs: seq<Range>, r: Range, target: int)
    requires Holds(tab, rs) && r.low <= r.high
    ensures var x := Entry(r.low, r.high, target);
            && (Insert(tab, x).Some? <==> !Clash(rs, r))
            && (Insert(tab, x).Some? ==> Holds(Insert(tab, x).value, rs + [r]))
  {
    var x := Entry(r.low, r.high, target);
    OverlapFound(tab, x);
    SameOverlap(tab, x, Entry(r.low, r.high, 0));
    if Insert(tab, x).Some? {
      var t := Insert(tab, x).value;
      InsertOrdered(tab, x);
      InsertLength(tab, x);
      forall q: Range | q.low <= q.high
        ensures Clash(rs + [r], q) <==> OverlapsSome(t, Entry(q.low, q.high, 0))
      {
        AppendClash(rs, r, q);
        InsertOverlaps(tab, x, Entry(q.low, q.high, 0));
        hide Insert, OverlapsSome, Clash;
      }
    }
  }

  lemma {:induction false} SameOverlap(tab: seq<Entry>, x: Entry, y: Entry)
    requires x.low == y.low && x.high == y.high
    ensures OverlapsSome(tab, x) == OverlapsSome(tab, y)
  {
    assert forall i :: 0 <= i < |tab| ==> Overlap(tab[i], x) == Overlap(tab[i], y);
  }

  /** The labels of an arm are taken exactly when they are apart from each other and all before. */
  lemma {:induction false} LabelsAccepted(tab: seq<Entry>, done: seq<Range>, rs: seq<Range>, target: int)
    requires Holds(tab, done) && LabelsApart(done)
    ensures InsertAll(tab, rs, target).Some? <==> LabelsApart(done + rs)
    ensures InsertAll(tab, rs, target).Some? ==> Holds(InsertAll(tab, rs, target).value, done + rs)
    decreases |rs|
  {
    if rs == [] {
      assert done + rs == done;
    } else {
      var r := rs[0];
      assert done + rs == done + [r] + rs[1..];
      AppendApart(done, r);
      if LabelsApart(done + rs) {
        ApartPrefix(done + [r], rs[1..]);
      }
      if |done| < 128 && r.low <= r.high {
        InsertWhen(tab, done, r, target);
        if !Clash(done, r) {
          LabelsAccepted(Insert(tab, Entry(r.low, r.high, target)).value, done + [r], rs[1..], target);
        }
      }
      hide Holds, LabelsApart, Clash, Insert;
    }
  }

  /** One compiled body for each arm. */
  predicate Paired(a: Arms, fa: FlowArms) {
    (a.NoArms? <==> fa.NoFlowArms?) && (a.Arm? && fa.FlowArm? ==> Paired(a.rest, fa.rest))
  }

  /** The labels of a CASE are accepted exactly when they are all apart and fit the table. */
  lemma {:induction false} TableAccepted(a: Arms, fa: FlowArms, at: nat, tab: seq<Entry>, done: seq<Range>)
    requires Paired(a, fa) && Holds(tab, done) && LabelsApart(done)
    ensures ArmTable(a, fa, at, tab).Some? <==> LabelsApart(done + AllLabels(a))
    decreases a
  {
    hide Holds, LabelsApart, InsertAll, Size;
    if a.NoArms? {
      assert done + AllLabels(a) == done;
    } else {
      LabelsAccepted(tab, done, a.labels, at);
      assert done + AllLabels(a) == done + a.labels + AllLabels(a.rest);
      if LabelsApart(done + AllLabels(a)) {
        ApartPrefix(done + a.labels, AllLabels(a.rest));
      }
      if LabelsApart(done + a.labels) {
        TableAccepted(a.rest, fa.rest, at + Size(fa.body) + 1, InsertAll(tab, a.labels, at).value, done + a.labels);
      }
    }
  }

  lemma {:induction false} NothingHeld()
    ensures Holds([], []) && LabelsApart([])
  {
  }

  // ----------------------------------------------------------------- statements

  /** A well-typed statement is compiled exactly when it is acceptable. */
  lemma {:induction false} StmtAccepted(s: Stmt, vars: set<Var>, lev: nat)
    requires WellTyped(s, vars)
    ensures Sketch(s, lev).Some? <==> Acceptable(s, lev)
    decreases s
  {
    hide AssignCode, CondCode, ValueCode, ForHead, AssignFits, ValueFits, BoundsFit, ArmTable, LabelsApart, AllLabels, Reachable, TypeOf, Vars,
         Size, Assignable;
    match s
    case Empty =>
    case Seq(a, b) =>
      StmtAccepted(a, vars, lev);
      StmtAccepted(b, vars, lev);
    case Assign(v, e) => AssignAccepted(v, e, lev);
    case If(c, t) =>
      CondAccepted(c, lev);
      StmtAccepted(t, vars, lev);
    case IfElse(c, t, f) =>
      CondAccepted(c, lev);
      StmtAccepted(t, vars, lev);
      StmtAccepted(f, vars, lev);
    case While(g) => GuardsAccepted(g, vars, lev);
    case Repeat(b, c) =>
      CondAccepted(c, lev);
      StmtAccepted(b, vars, lev);
    case Loop(b) => StmtAccepted(b, vars, lev);
    case Exit =>
    case For(v, low, high, _, b) =>
      HeadAccepted(v, low, high, lev);
      StmtAccepted(b, vars, lev);
    case Case(e, arms, d) =>
      ValueAccepted(e, lev, 0);
      ArmsAccepted(arms, vars, lev);
      if d.Else? {
        StmtAccepted(d.body, vars, lev);
      }
      if SketchArms(arms, lev).Some? {
        NothingHeld();
        TableAccepted(arms, SketchArms(arms, lev).value, 0, [], []);
        assert [] + AllLabels(arms) == AllLabels(arms);
      }
  }

  lemma {:induction false} GuardsAccepted(g: Guards, vars: set<Var>, lev: nat)
    requires GuardsTyped(g, vars)
    ensures SketchGuards(g, lev).Some? <==> GuardsAcceptable(g, lev)
    decreases g
  {
    hide CondCode, ValueFits, Sketch, Acceptable, WellTyped, Vars;
    CondAccepted(g.cond, lev);
    StmtAccepted(g.body, vars, lev);
    if g.More? {
      GuardsAccepted(g.rest, vars, lev);
    }
  }

  lemma {:induction false} ArmsAccepted(a: Arms, vars: set<Var>, lev: nat)
    requires ArmsTyped(a, vars)
    ensures SketchArms(a, lev).Some? <==> ArmsAcceptable(a, lev)
    ensures SketchArms(a, lev).Some? ==> Paired(a, SketchArms(a, lev).value)
    decreases a
  {
    hide Sketch, Acceptable, WellTyped;
    if a.Arm? {
      StmtAccepted(a.body, vars, lev);
      ArmsAccepted(a.rest, vars, lev);
    }
  }

  // ------------------------------------------------------------------------ EXIT

  /** The EXITs of a statement that leave a LOOP around it. */
  function OpenExits(s: Stmt): nat
    decreases s
  {
    match s
    case Empty => 0
    case Seq(a, b) => OpenExits(a) + OpenExits(b)
    case Assign(_, _) => 0
    case If(_, t) => OpenExits(t)
    case IfElse(_, t, f) => OpenExits(t) + OpenExits(f)
    case While(g) => GuardsOpenExits(g)
    case Repeat(b, _) => OpenExits(b)
    case Loop(_) => 0
    case Exit => 1
    case For(_, _, _, _, b) => OpenExits(b)
    case Case(_, arms, d) => ArmsOpenExits(arms) + if d.Else? then OpenExits(d.body) else 0
  }

  function GuardsOpenExits(g: Guards): nat
    decreases g
  {
    OpenExits(g.body) + if g.More? then GuardsOpenExits(g.rest) else 0
  }

  function ArmsOpenExits(a: Arms): nat
    decreases a
  {
    if a.NoArms? then 0 else OpenExits(a.body) + ArmsOpenExits(a.rest)
  }

  /** With h LOOPs around a statement and k EXITs of theirs before it: every EXIT is in a LOOP, and
      never more than 16 of them are waiting for the end of theirs. */
  predicate ExitsHeld(s: Stmt, h: nat, k: nat)
    decreases s
  {
    match s
    case Empty => true
    case Seq(a, b) => ExitsHeld(a, h, k) && ExitsHeld(b, h, k + OpenExits(a))
    case Assign(_, _) => true
    case If(_, t) => ExitsHeld(t, h, k)
    case IfElse(_, t, f) => ExitsHeld(t, h, k) && ExitsHeld(f, h, k + OpenExits(t))
    case While(g) => GuardsExitsHeld(g, h, k)
    case Repeat(b, _) => ExitsHeld(b, h, k)
    case Loop(b) => ExitsHeld(b, h + 1, k)
    case Exit => h > 0 && k < 16
    case For(_, _, _, _, b) => ExitsHeld(b, h, k)
    case Case(_, arms, d) => ArmsExitsHeld(arms, h, k) && (d.Else? ==> ExitsHeld(d.body, h, k + ArmsOpenExits(arms)))
  }

  predicate GuardsExitsHeld(g: Guards, h: nat, k: nat)
    decreases g
  {
    ExitsHeld(g.body, h, k) && (g.More? ==> GuardsExitsHeld(g.rest, h, k + OpenExits(g.body)))
  }

  predicate ArmsExitsHeld(a: Arms, h: nat, k: nat)
    decreases a
  {
    a.Arm? ==> ExitsHeld(a.body, h, k) && ArmsExitsHeld(a.rest, h, k + OpenExits(a.body))
  }

  lemma {:induction false} ExitsCounted(s: Stmt, lev: nat)
    requires Sketch(s, lev).Some?
    ensures HoleCount(Sketch(s, lev).value) == OpenExits(s)
    decreases s
  {
    hide AssignCode, CondCode, ValueCode, ForHead, ArmTable, Size;
    match s
    case Empty =>
    case Seq(a, b) => ExitsCounted(a, lev); ExitsCounted(b, lev);
    case Assign(_, _) =>
    case If(_, t) => ExitsCounted(t, lev);
    case IfElse(_, t, f) => ExitsCounted(t, lev); ExitsCounted(f, lev);
    case While(g) => GuardsCounted(g, lev);
    case Repeat(b, _) => ExitsCounted(b, lev);
    case Loop(_) =>
    case Exit =>
    case For(_, _, _, _, b) => ExitsCounted(b, lev);
    case Case(_, arms, d) =>
      ArmsCounted(arms, lev);
      if d.Else? {
        ExitsCounted(d.body, lev);
      }
  }

  lemma {:induction false} GuardsCounted(g: Guards, lev: nat)
    requires SketchGuards(g, lev).Some?
    ensures GuardHoleCount(SketchGuards(g, lev).value) == GuardsOpenExits(g)
    decreases g
  {
    hide CondCode, Sketch, HoleCount, OpenExits;
    ExitsCounted(g.body, lev);
    if g.More? {
      GuardsCounted(g.rest, lev);
    }
  }

  lemma {:induction false} ArmsCounted(a: Arms, lev: nat)
    requires SketchArms(a, lev).Some?
    ensures ArmHoleCount(SketchArms(a, lev).value) == ArmsOpenExits(a)
    decreases a
  {
    hide Sketch, HoleCount, OpenExits;
    if a.Arm? {
      ExitsCounted(a.body, lev);
      ArmsCounted(a.rest, lev);
    }
  }

  lemma {:induction false} ExitsAccepted(s: Stmt, lev: nat, h: nat, k: nat)
    requires Sketch(s, lev).Some?
    ensures ExitsFit(Sketch(s, lev).value, h, k) == ExitsHeld(s, h, k)
    decreases s
  {
    hide AssignCode, CondCode, ValueCode, ForHead, ArmTable, Size, HoleCount, OpenExits;
    match s
    case Empty =>
    case Seq(a, b) =>
      ExitsCounted(a, lev);
      ExitsAccepted(a, lev, h, k);
      ExitsAccepted(b, lev, h, k + OpenExits(a));
    case Assign(_, _) =>
    case If(_, t) => ExitsAccepted(t, lev, h, k);
    case IfElse(_, t, f) =>
      ExitsCounted(t, lev);
      ExitsAccepted(t, lev, h, k);
      ExitsAccepted(f, lev, h, k + OpenExits(t));
    case While(g) => GuardsExitsAccepted(g, lev, h, k);
    case Repeat(b, _) => ExitsAccepted(b, lev, h, k);
    case Loop(b) => ExitsAccepted(b, lev, h + 1, k);
    case Exit =>
    case For(_, _, _, _, b) => ExitsAccepted(b, lev, h, k);
    case Case(_, arms, d) =>
      ArmsCounted(arms, lev);
      ArmsExitsAccepted(arms, lev, h, k);
      if d.Else? {
        ExitsAccepted(d.body, lev, h, k + ArmsOpenExits(arms));
      }
  }

  lemma {:induction false} GuardsExitsAccepted(g: Guards, lev: nat, h: nat, k: nat)
    requires SketchGuards(g, lev).Some?
    ensures GuardExitsFit(SketchGuards(g, lev).value, h, k) == GuardsExitsHeld(g, h, k)
    decreases g
  {
    hide CondCode, Sketch, HoleCount, ExitsFit, OpenExits, ExitsHeld;
    ExitsCounted(g.body, lev);
    ExitsAccepted(g.body, lev, h, k);
    if g.More? {
      GuardsExitsAccepted(g.rest, lev, h, k + OpenExits(g.body));
    }
  }

  lemma {:induction false} ArmsExitsAccepted(a: Arms, lev: nat, h: nat, k: nat)
    requires SketchArms(a, lev).Some?
    ensures ArmExitsFit(SketchArms(a, lev).value, h, k) == ArmsExitsHeld(a, h, k)
    decreases a
  {
    hide Sketch, HoleCount, ExitsFit, OpenExits, ExitsHeld;
    if a.Arm? {
      ExitsCounted(a.body, lev);
      ExitsAccepted(a.body, lev, h, k);
      ArmsExitsAccepted(a.rest, lev, h, k + OpenExits(a.body));
    }
  }

  /** The statement is well-typed for some choice of declared variables. */
  ghost predicate Typable(s: Stmt) {
    exists vars :: WellTyped(s, vars)
  }

  /** Code is generated for a well-typed body exactly when it is acceptable and its EXITs are held. */
  lemma {:induction false} BodyAccepted(s: Stmt, lev: nat)
    requires Typable(s)
    ensures Sketch(s, lev).Some? && ExitsFit(Sketch(s, lev).value, 0, 0) <==> Acceptable(s, lev) && ExitsHeld(s, 0, 0)
  {
    hide Sketch, Acceptable, ExitsHeld, ExitsFit, WellTyped;
    var vars :| WellTyped(s, vars);
    StmtAccepted(s, vars, lev);
    if Sketch(s, lev).Some? {
      ExitsAccepted(s, lev, 0, 0);
    }
  }
}
