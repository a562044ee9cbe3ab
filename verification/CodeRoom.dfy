/** How much code a statement takes at most, counted on its source. */
module CodeRoom {
  import opened Words
  import opened Options
  import opened Lang
  import opened StmtLang
  import opened StmtGen
  import opened CaseTable
  import opened AcceptedStmts
  import G = ExprGen
  import T = Tails

  // ---------------------------------------------------------------- expressions

  /** Bytes for an expression: 4 for a variable of another level, 3 for a literal, and the operators. */
  function ExprRoom(e: Expr): (n: nat)
    ensures n >= 3
  {
    match e
    case Num(_) => 3
    case Truth(_) => 3
    case Ref(_) => 4
    case Not(a) => ExprRoom(a) + 1
    case Negate(a) => ExprRoom(a) + 2
    case And(l, r) => ExprRoom(l) + 2 + ExprRoom(r)
    case Or(l, r) => ExprRoom(l) + 2 + ExprRoom(r)
    case Bin(_, l, r) => ExprRoom(l) + ExprRoom(r) + 1
  }

  /** What loading an item may still take. */
  function ItemRoom(x: G.Item): nat {
    if x.ConM? then 3 else if x.VarM? then 4 else 0
  }

  lemma {:induction false} LoadRoom(x: G.Item, lev: nat)
    ensures G.LoadCode(x, lev).Some? ==> |G.LoadCode(x, lev).value| <= ItemRoom(x)
  {
  }

  lemma {:induction false} ForceRoom(f: G.Frag, lev: nat)
    ensures G.Force(f, lev).Some? ==> |G.Force(f, lev).value.code| <= |f.code| + ItemRoom(f.x) && ItemRoom(G.Force(f, lev).value.x) == 0
  {
    LoadRoom(f.x, lev);
    hide G.LoadCode;
  }

  lemma {:induction false} CombineRoom(op: Op, f: G.Frag, h: G.Frag, lev: nat)
    requires f.x.ConM? ==> f.code == []
    ensures G.Combine(op, f, h, lev).Some? ==>
              var c := G.Combine(op, f, h, lev).value;
              |c.code| + ItemRoom(c.x) <= |f.code| + ItemRoom(f.x) + |h.code| + ItemRoom(h.x) + 1
  {
    LoadRoom(h.x, lev);
    hide G.LitCode, G.LoadCode, G.OperandTyp, G.OperatorTyped, G.Fold, G.OddPart, G.Twos, Pow2, G.Opcode;
  }

  lemma {:induction false} NotRoom(f: G.Frag, lev: nat)
    ensures G.GenNot(f, lev).Some? ==> |G.GenNot(f, lev).value.code| + ItemRoom(G.GenNot(f, lev).value.x) <= |f.code| + ItemRoom(f.x) + 1
    ensures G.GenNeg(f, lev).Some? ==> |G.GenNeg(f, lev).value.code| + ItemRoom(G.GenNeg(f, lev).value.x) <= |f.code| + ItemRoom(f.x) + 2
  {
    ForceRoom(f, lev);
    hide G.Force, Wrap, Signed;
  }

  lemma {:induction false} ShortRoom(opc: byte, f: G.Frag, h: G.Frag, lev: nat)
    ensures G.ShortCircuit(opc, f, h, lev).Some? ==>
              var c := G.ShortCircuit(opc, f, h, lev).value;
              |c.code| + ItemRoom(c.x) <= |f.code| + ItemRoom(f.x) + 2 + |h.code| + ItemRoom(h.x)
  {
    ForceRoom(f, lev);
    ForceRoom(h, lev);
    hide G.Force, G.Displacement;
  }

  lemma {:induction false} BinRoom(op: Op, f: G.Frag, h: G.Frag, lev: nat)
    requires f.x.ConM? ==> f.code == []
    ensures G.Force(f, lev).Some? && !G.KeepsConst(op, f.x) && G.Combine(op, G.Force(f, lev).value, h, lev).Some? ==>
              var c := G.Combine(op, G.Force(f, lev).value, h, lev).value;
              |c.code| + ItemRoom(c.x) <= |f.code| + ItemRoom(f.x) + |h.code| + ItemRoom(h.x) + 1
    ensures G.KeepsConst(op, f.x) && G.Combine(op, f, h, lev).Some? ==>
              var c := G.Combine(op, f, h, lev).value;
              |c.code| + ItemRoom(c.x) <= |f.code| + ItemRoom(f.x) + |h.code| + ItemRoom(h.x) + 1
  {
    hide *;
    CombineRoom(op, f, h, lev);
    if G.Force(f, lev).Some? {
      ForceRoom(f, lev);
      ForcedNoConst(f, lev);
      CombineRoom(op, G.Force(f, lev).value, h, lev);
    }
  }

  lemma {:induction false} ForcedNoConst(f: G.Frag, lev: nat)
    ensures G.Force(f, lev).Some? ==> !G.Force(f, lev).value.x.ConM?
  {
  }

  /** The code of an expression, and what loading its item may still take. */
  lemma {:induction false} ExprFits(e: Expr, lev: nat)
    requires G.GenExpr(e, lev).Some?
    ensures var f := G.GenExpr(e, lev).value; |f.code| + ItemRoom(f.x) <= ExprRoom(e) && (f.x.ConM? ==> f.code == [])
    decreases e
  {
    hide G.Combine, G.Force, G.GenNot, G.GenNeg, G.ShortCircuit, T.WellFormed;
    T.GenWellFormed(e, lev);
    NoConstCode(G.GenExpr(e, lev).value);
    match e
    case Num(_) =>
    case Truth(_) =>
    case Ref(_) =>
    case Not(a) =>
      ExprFits(a, lev);
      NotRoom(G.GenExpr(a, lev).value, lev);
    case Negate(a) =>
      ExprFits(a, lev);
      NotRoom(G.GenExpr(a, lev).value, lev);
    case And(l, r) =>
      ExprFits(l, lev);
      ExprFits(r, lev);
      ShortRoom(0x1F, G.GenExpr(l, lev).value, G.GenExpr(r, lev).value, lev);
    case Or(l, r) =>
      ExprFits(l, lev);
      ExprFits(r, lev);
      ShortRoom(0x1E, G.GenExpr(l, lev).value, G.GenExpr(r, lev).value, lev);
    case Bin(op, l, r) =>
      ExprFits(l, lev);
      ExprFits(r, lev);
      BinRoom(op, G.GenExpr(l, lev).value, G.GenExpr(r, lev).value, lev);
  }

  lemma {:induction false} NoConstCode(f: G.Frag)
    requires T.WellFormed(f)
    ensures f.x.ConM? ==> f.code == []
  {
  }

  lemma {:induction false} ValueRoom(e: Expr, lev: nat, base: nat)
    ensures ValueCode(e, lev, base).Some? ==> |ValueCode(e, lev, base).value| <= ExprRoom(e)
  {
    if G.GenExpr(e, lev).Some? {
      ExprFits(e, lev);
      ForceRoom(G.GenExpr(e, lev).value, lev);
    }
    hide G.GenExpr, G.Force, ExprRoom;
  }

  lemma {:induction false} TestedRoom(t: Typ, e: Expr, lev: nat, base: nat)
    ensures CondCode(e, lev).Some? ==> |CondCode(e, lev).value| <= ExprRoom(e)
    ensures AssignedCode(t, e, lev, base).Some? ==> |AssignedCode(t, e, lev, base).value| <= ExprRoom(e) + 1
    ensures LimitCode(t, e, lev, base).Some? ==> |LimitCode(t, e, lev, base).value| <= ExprRoom(e) + 1
  {
    ValueRoom(e, lev, 0);
    ValueRoom(e, lev, base);
    hide G.GenExpr, ValueCode, ExprRoom;
  }

  // --------------------------------------------------------------------- labels

  function Lowest(rs: seq<Range>): int
    requires rs != []
  {
    if |rs| == 1 || rs[0].low < Lowest(rs[1..]) then rs[0].low else Lowest(rs[1..])
  }

  function Highest(rs: seq<Range>): int
    requires rs != []
  {
    if |rs| == 1 || rs[0].high > Highest(rs[1..]) then rs[0].high else Highest(rs[1..])
  }

  /** How many values lie between the lowest and the highest label. */
  function Spread(rs: seq<Range>): nat {
    if rs == [] || Highest(rs) < Lowest(rs) then 0 else Highest(rs) - Lowest(rs) + 1
  }

  lemma {:induction false} Bounded(rs: seq<Range>, r: Range)
    requires r in rs
    ensures Lowest(rs) <= r.low && r.high <= Highest(rs)
  {
    if |rs| > 1 && r != rs[0] {
      assert r in rs[1..];
      Bounded(rs[1..], r);
    }
  }

  /** The ranges in a table are labels. */
  predicate FromLabels(tab: seq<Entry>, rs: seq<Range>) {
    forall i :: 0 <= i < |tab| ==> Range(tab[i].low, tab[i].high) in rs
  }

  lemma {:induction false} InsertFrom(tab: seq<Entry>, x: Entry, rs: seq<Range>)
    requires FromLabels(tab, rs) && Range(x.low, x.high) in rs
    ensures Insert(tab, x).Some? ==> FromLabels(Insert(tab, x).value, rs)
    decreases |tab|
  {
    if tab != [] && tab[|tab| - 1].low > x.high {
      InsertFrom(tab[..|tab| - 1], x, rs);
    }
  }

  lemma {:induction false} LabelsFrom(tab: seq<Entry>, ls: seq<Range>, target: int, rs: seq<Range>)
    requires FromLabels(tab, rs) && forall r :: r in ls ==> r in rs
    ensures InsertAll(tab, ls, target).Some? ==> FromLabels(InsertAll(tab, ls, target).value, rs)
    decreases |ls|
  {
    if ls != [] && ls[0].low <= ls[0].high && |tab| < MAX_CASES {
      var x := Entry(ls[0].low, ls[0].high, target);
      assert ls[0] in rs;
      InsertFrom(tab, x, rs);
      hide Insert;
      if Insert(tab, x).Some? {
        LabelsFrom(Insert(tab, x).value, ls[1..], target, rs);
      }
    }
  }

  lemma {:induction false} TableFrom(a: Arms, fa: FlowArms, at: nat, tab: seq<Entry>, rs: seq<Range>)
    requires FromLabels(tab, rs) && forall r :: r in AllLabels(a) ==> r in rs
    ensures ArmTable(a, fa, at, tab).Some? ==> FromLabels(ArmTable(a, fa, at, tab).value, rs)
    decreases a
  {
    hide InsertAll, Size, FromLabels;
    if a.Arm? && fa.FlowArm? {
      assert AllLabels(a) == a.labels + AllLabels(a.rest);
      LabelsFrom(tab, a.labels, at, rs);
      if InsertAll(tab, a.labels, at).Some? {
        TableFrom(a.rest, fa.rest, at + Size(fa.body) + 1, InsertAll(tab, a.labels, at).value, rs);
      }
    }
  }

  lemma {:induction false} TableRoom(a: Arms, fa: FlowArms)
    ensures ArmTable(a, fa, 0, []).Some? ==> TableLen(ArmTable(a, fa, 0, []).value) <= 6 + 2 * Spread(AllLabels(a))
  {
    hide *;
    var rs := AllLabels(a);
    NothingFrom(rs);
    TableFrom(a, fa, 0, [], rs);
    if ArmTable(a, fa, 0, []).Some? {
      SpanRoom(ArmTable(a, fa, 0, []).value, rs);
    }
  }

  lemma {:induction false} NothingFrom(rs: seq<Range>)
    ensures FromLabels([], rs)
  {
  }

  lemma {:induction false} SpanRoom(tab: seq<Entry>, rs: seq<Range>)
    requires FromLabels(tab, rs)
    ensures TableLen(tab) <= 6 + 2 * Spread(rs)
  {
    if tab != [] {
      Bounded(rs, Range(tab[0].low, tab[0].high));
      Bounded(rs, Range(tab[|tab| - 1].low, tab[|tab| - 1].high));
    }
    hide Lowest, Highest;
  }

  // ----------------------------------------------------------------- statements

  /** Bytes for a statement. */
  function Room(s: Stmt): nat
    decreases s
  {
    match s
    case Empty => 0
    case Seq(a, b) => Room(a) + Room(b)
    case Assign(_, e) => ExprRoom(e) + 5
    case If(c, t) => ExprRoom(c) + 3 + Room(t)
    case IfElse(c, t, f) => ExprRoom(c) + 6 + Room(t) + Room(f)
    case While(g) => GuardsRoom(g)
    case Repeat(b, c) => Room(b) + ExprRoom(c) + 3
    case Loop(b) => Room(b) + 3
    case Exit => 3
    case For(_, low, high, _, b) => ExprRoom(low) + ExprRoom(high) + 14 + Room(b)
    case Case(e, arms, d) => ExprRoom(e) + 9 + ArmsRoom(arms) + 2 * Spread(AllLabels(arms)) + if d.Else? then Room(d.body) + 1 else 2
  }

  function GuardsRoom(g: Guards): nat
    decreases g
  {
    ExprRoom(g.cond) + 6 + Room(g.body) + if g.More? then GuardsRoom(g.rest) else 0
  }

  function ArmsRoom(a: Arms): nat
    decreases a
  {
    if a.NoArms? then 0 else Room(a.body) + 1 + ArmsRoom(a.rest)
  }

  lemma {:induction false} AssignRoom(v: Var, e: Expr, lev: nat)
    ensures AssignCode(v, e, lev).Some? ==> |AssignCode(v, e, lev).value| <= ExprRoom(e) + 5
  {
    hide *;
    TestedRoom(v.typ, e, lev, 0);
    TestedRoom(v.typ, e, lev, 1);
    AssignParts(v, e, lev);
  }

  /** A store takes at most two bytes, and so does the base address before the value. */
  lemma {:induction false} AssignParts(v: Var, e: Expr, lev: nat)
    ensures AssignCode(v, e, lev).Some? ==>
              var c := AssignedCode(v.typ, e, lev, if 0 < v.lev < lev then 1 else 0);
              c.Some? && |AssignCode(v, e, lev).value| <= |c.value| + 4
  {
    hide AssignedCode;
  }

  lemma {:induction false} HeadRoom(v: Var, low: Expr, high: Expr, lev: nat)
    ensures ForHead(v, low, high, lev).Some? ==> |ForHead(v, low, high, lev).value| <= ExprRoom(low) + ExprRoom(high) + 6
  {
    TestedRoom(v.typ, low, lev, 1);
    TestedRoom(v.typ, high, lev, 2);
    hide AssignedCode, LimitCode, ExprRoom;
  }

  /** The code of a statement takes no more. */
  lemma {:induction false} StmtRoom(s: Stmt, lev: nat)
    requires Sketch(s, lev).Some?
    ensures Size(Sketch(s, lev).value) <= Room(s)
    decreases s
  {
    hide AssignCode, CondCode, ValueCode, ForHead, ArmTable, ExprRoom, Spread, TableLen, AllLabels;
    match s
    case Empty =>
    case Seq(a, b) => StmtRoom(a, lev); StmtRoom(b, lev);
    case Assign(v, e) => AssignRoom(v, e, lev);
    case If(c, t) => TestedRoom(Bool, c, lev, 0); StmtRoom(t, lev);
    case IfElse(c, t, f) => TestedRoom(Bool, c, lev, 0); StmtRoom(t, lev); StmtRoom(f, lev);
    case While(g) => GuardsFit(g, lev, 0);
    case Repeat(b, c) => TestedRoom(Bool, c, lev, 0); StmtRoom(b, lev);
    case Loop(b) => StmtRoom(b, lev);
    case Exit =>
    case For(v, low, high, _, b) => HeadRoom(v, low, high, lev); StmtRoom(b, lev);
    case Case(e, arms, d) =>
      ValueRoom(e, lev, 0);
      ArmsFit(arms, lev);
      TableRoom(arms, SketchArms(arms, lev).value);
      if d.Else? {
        StmtRoom(d.body, lev);
      }
  }

  lemma {:induction false} GuardsFit(g: Guards, lev: nat, back: nat)
    requires SketchGuards(g, lev).Some?
    ensures GuardsSize(SketchGuards(g, lev).value, back) <= GuardsRoom(g)
    decreases g
  {
    hide CondCode, Sketch, Size, Room, ExprRoom;
    TestedRoom(Bool, g.cond, lev, 0);
    StmtRoom(g.body, lev);
    if g.More? {
      var f := SketchGuards(g, lev).value;
      GuardsFit(g.rest, lev, back + GuardLen(|f.cond|, Size(f.body), back));
    }
  }

  lemma {:induction false} ArmsFit(a: Arms, lev: nat)
    requires SketchArms(a, lev).Some?
    ensures ArmsSize(SketchArms(a, lev).value) <= ArmsRoom(a)
    decreases a
  {
    hide Sketch, Size, Room;
    if a.Arm? {
      StmtRoom(a.body, lev);
      ArmsFit(a.rest, lev);
    }
  }
}
