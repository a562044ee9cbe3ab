/** The compiler's statement and expression procedures, driving the code generator in one pass.
    A syntax tree stands for the symbols read. */
module Compiler {
  import opened Words
  import opened Options
  import opened Lang
  import opened StmtLang
  import opened ExprGen
  import opened StmtGen
  import opened Tails
  import opened Emitter
  import opened Exits

  // --------------------------------------------------------------- expressions

  /** Fragment o has been emitted; its item is x. */
  twostate predicate Wrote(g: Generator, o: Option<Frag>, x: Item)
    requires old(g.Valid())
    reads g, g.code
  {
    g.Valid() && g.Now() == Fragged(old(g.Now()), o) && (!g.failed ==> o.Some? && x == o.value.x)
  }

  predicate Reachable(g: Generator, e: Expr) {
    forall v :: v in Vars(e) ==> v.lev <= g.curLev
  }

  /** `Expression` with `SimpleExpression`, `Term` and `Factor`. */
  method Expression(g: Generator, e: Expr) returns (x: Item)
    requires g.Valid() && Reachable(g, e)
    modifies g`pc, g`sp, g`failed, g`exp, g.code
    ensures Wrote(g, GenExpr(e, g.curLev), x) && g.Visible(x)
    decreases e, 1
  {
    hide Force, ExprGen.GenNot, ExprGen.GenNeg, Combine, ShortCircuit, LoadTail, NotTail, NegTail, WellFormed, Grow;
    ghost var p := g.Now();
    match e {
      case Num(n) => x := ConM(n, Card); GrowNothing(p, x);
      case Truth(b) => x := ConM(if b then 1 else 0, Bool); GrowNothing(p, x);
      case Ref(v) => x := VarM(v); GrowNothing(p, x);
      case Not(a) =>
        x := Expression(g, a);
        Behind(p, a, g.curLev);
        x := g.GenNot(x);
      case Negate(a) =>
        x := Expression(g, a);
        Behind(p, a, g.curLev);
        x := g.GenNeg(x);
      case And(l, r) => x := ShortExpression(g, e, l, r);
      case Or(l, r) => x := ShortExpression(g, e, l, r);
      case Bin(op, l, r) =>
        x := Operation(g, e, op, l, r);
    }
  }

  lemma {:induction false} GrowNothing(p: Progress, x: Item)
    requires Deferred(x) && (p.At? ==> |p.out| <= CODE_LENGTH && p.sp <= STACK_DEPTH)
    ensures Fragged(p, Some(Frag([], x, 0))) == p
  {
    if p.At? {
      assert p.out + [] == p.out;
    }
  }

  /** What the fragment of an operand becomes behind NOT, minus, or `load`. */
  lemma {:induction false} Behind(p: Progress, e: Expr, lev: nat)
    ensures GenExpr(e, lev) == None ==> GenExpr(Not(e), lev) == None && GenExpr(Negate(e), lev) == None
    ensures GenExpr(e, lev).Some? ==>
            var f := GenExpr(e, lev).value;
            && WellFormed(f)
            && Force(f, lev) == After(f, LoadTail(f.x, lev))
            && GenExpr(Not(e), lev) == After(f, NotTail(f.x, lev))
            && GenExpr(Negate(e), lev) == After(f, NegTail(f.x, lev))
            && Fragged(p, After(f, LoadTail(f.x, lev))) == Tailed(Fragged(p, Some(f)), LoadTail(f.x, lev), Depth(f.x))
            && Fragged(p, After(f, NotTail(f.x, lev))) == Tailed(Fragged(p, Some(f)), NotTail(f.x, lev), Depth(f.x))
            && Fragged(p, After(f, NegTail(f.x, lev))) == Tailed(Fragged(p, Some(f)), NegTail(f.x, lev), Depth(f.x))
  {
    if GenExpr(e, lev).Some? {
      var f := GenExpr(e, lev).value;
      GenWellFormed(e, lev);
      ForceIsTail(f, lev);
      NotIsTail(f, lev);
      NegIsTail(f, lev);
      TailedFrag(p, f, LoadTail(f.x, lev));
      TailedFrag(p, f, NotTail(f.x, lev));
      TailedFrag(p, f, NegTail(f.x, lev));
    }
  }

  /** The same for `load` alone. */
  lemma {:induction false} Loads(p: Progress, e: Expr, lev: nat)
    ensures GenExpr(e, lev).Some? ==>
            var f := GenExpr(e, lev).value;
            && WellFormed(f)
            && Force(f, lev) == After(f, LoadTail(f.x, lev))
            && Fragged(p, Force(f, lev)) == Tailed(Fragged(p, Some(f)), LoadTail(f.x, lev), Depth(f.x))
  {
    Behind(p, e, lev);
  }

  /** AND and OR. */
  method ShortExpression(g: Generator, e: Expr, l: Expr, r: Expr) returns (x: Item)
    requires (e == And(l, r) || e == Or(l, r)) && g.Valid() && Reachable(g, l) && Reachable(g, r)
    modifies g`pc, g`sp, g`failed, g`exp, g.code
    ensures Wrote(g, GenExpr(e, g.curLev), x) && g.Visible(x)
    decreases e, 0
  {
    hide GenExpr, Grow, Combine, ExprGen.GenNot, ExprGen.GenNeg, ShortCircuit, Fragged, Tailed, LoadTail, Force, WellFormed, After,
         NotTail, NegTail;
    ShortUnfolds(e, l, r, g.curLev);
    var opc: byte := if e.And? then 0x1F else 0x1E;
    ghost var p := g.Now();
    x := Expression(g, l);
    Loads(p, l, g.curLev);
    var loc := g.GenShort(opc, x);
    ghost var p2 := g.Now();
    var y := Expression(g, r);
    Loads(p2, r, g.curLev);
    if ItemTyp(y) != Bool {
      g.Err();
    }
    y := g.Load(y);
    g.FixupByte(loc);
    x := ExpM(Bool);
    if GenExpr(l, g.curLev).Some? && GenExpr(r, g.curLev).Some? {
      ShortGrows(p, opc, GenExpr(l, g.curLev).value, GenExpr(r, g.curLev).value, g.curLev, loc);
    }
  }

  /** Both operands, the jump between them, and its displacement stored at loc. */
  lemma {:induction false} ShortGrows(p: Progress, opc: byte, f: Frag, h: Frag, lev: nat, loc: nat)
    requires WellFormed(f) && WellFormed(h)
    requires var p2 := Opened(Fragged(p, Some(f)), ShortTail(opc, f.x, lev), Depth(f.x)); p2.At? ==> loc + 1 == |p2.out|
    ensures var p4 := Fragged(Opened(Fragged(p, Some(f)), ShortTail(opc, f.x, lev), Depth(f.x)), Force(h, lev));
            ItemTyp(h.x) == Bool ==> PatchedByte(p4, loc) == Fragged(p, ShortCircuit(opc, f, h, lev))
    ensures ShortCircuit(opc, f, h, lev).Some? ==> ItemTyp(h.x) == Bool && ShortCircuit(opc, f, h, lev).value.x == ExpM(Bool)
  {
    hide LoadCode;
    ForceIsTail(f, lev);
    ForceIsTail(h, lev);
    if ItemTyp(f.x) == Bool && ItemTyp(h.x) == Bool && Force(f, lev).Some? && Force(h, lev).Some? {
      var g, k := Force(f, lev).value, Force(h, lev).value;
      var t := LoadTail(f.x, lev).value;
      GrowTwice(p, f.code, Depth(f.x), f.peak, t.code + [opc, 0], 0 - Depth(f.x), t.peak);
      assert f.code + (t.code + [opc, 0]) == g.code + [opc, 0];
      ShortPatched(p, g.code, g.peak, opc, k.code, k.peak, loc);
    }
  }

  lemma {:induction false} ShortPatched(p: Progress, c: seq<byte>, i: nat, opc: byte, d: seq<byte>, j: nat, loc: nat)
    requires var p2 := Grow(p, c + [opc, 0], 0, i); p2.At? ==> loc + 1 == |p2.out|
    ensures PatchedByte(Grow(Grow(p, c + [opc, 0], 0, i), d, 1, j), loc)
         == Grow(p, c + ([opc, Displacement(|d| + 1)] + d), 1, Max(i, j))
  {
    GrowTwice(p, c + [opc, 0], 0, i, d, 1, j);
    if Grow(p, c + [opc, 0] + d, 1, Max(i, j)).At? {
      var out := p.out + (c + [opc, 0] + d);
      assert out[loc := Displacement(|d| + 1)] == p.out + (c + ([opc, Displacement(|d| + 1)] + d));
    }
  }

  /** Arithmetic and relations: only the left operands of `*` and `+` stay constants. */
  method Operation(g: Generator, e: Expr, op: Op, l: Expr, r: Expr) returns (x: Item)
    requires e == Bin(op, l, r) && g.Valid() && Reachable(g, l) && Reachable(g, r)
    modifies g`pc, g`sp, g`failed, g`exp, g.code
    ensures Wrote(g, GenExpr(e, g.curLev), x) && g.Visible(x)
    decreases e, 0
  {
    hide GenExpr, Grow, Combine, ExprGen.GenNot, ExprGen.GenNeg, OpTail, LoadTail, Force, NotTail, NegTail, WellFormed;
    BinUnfolds(e, op, l, r, g.curLev);
    ghost var p := g.Now();
    Loads(p, l, g.curLev);
    x := LeftOperand(g, op, l);
    ghost var p2 := g.Now();
    var y := Expression(g, r);
    Loads(p2, r, g.curLev);
    x := g.GenOp(op, x, y);
    if GenExpr(l, g.curLev).Some? && GenExpr(r, g.curLev).Some? {
      OperationGrows(p, op, GenExpr(l, g.curLev).value, GenExpr(r, g.curLev).value, g.curLev);
    }
  }

  /** The left operand: loaded, unless it is a constant of a product or sum. */
  method LeftOperand(g: Generator, op: Op, l: Expr) returns (x: Item)
    requires g.Valid() && Reachable(g, l)
    modifies g`pc, g`sp, g`failed, g`exp, g.code
    ensures Wrote(g, LeftFrag(op, l, g.curLev), x) && g.Visible(x) && !x.VarM? && (x.ConM? ==> op == Times || op == Plus)
    decreases l, 2
  {
    hide GenExpr, Grow, LoadTail, Force, WellFormed;
    ghost var p := g.Now();
    x := Expression(g, l);
    Loads(p, l, g.curLev);
    if !x.ConM? || (op != Times && op != Plus) {
      x := g.Load(x);
    }
  }

  function LeftFrag(op: Op, l: Expr, lev: nat): Option<Frag> {
    match GenExpr(l, lev) case None => None case Some(f) => LeftOf(op, f, lev)
  }

  /** The left operand as `GenOp` gets it. */
  function LeftOf(op: Op, f: Frag, lev: nat): Option<Frag> {
    if KeepsConst(op, f.x) then Some(f) else Force(f, lev)
  }

  lemma {:induction false} OperationGrows(p: Progress, op: Op, f: Frag, h: Frag, lev: nat)
    requires WellFormed(f) && WellFormed(h)
    ensures var k := LeftOf(op, f, lev);
            k.Some? ==>
              && !k.value.x.VarM?
              && Combine(op, k.value, h, lev) == AfterBoth(k.value, h, OpTail(op, k.value.x, h.x, lev))
              && Fragged(p, Combine(op, k.value, h, lev))
              == Tailed(Fragged(Fragged(p, k), Some(h)), OpTail(op, k.value.x, h.x, lev), Depth(k.value.x) + Depth(h.x))
  {
    hide Combine, OpTail, LoadCode, Grow, Tailed, Fragged, AfterBoth;
    ForceIsTail(f, lev);
    var o := LeftOf(op, f, lev);
    if o.Some? {
      var k := o.value;
      OpIsTail(op, k, h, lev);
      TailedBoth(p, k, h, OpTail(op, k.x, h.x, lev));
    }
  }

  function ShortOf(opc: byte, l: Option<Frag>, r: Option<Frag>, lev: nat): Option<Frag> {
    var f :- l;
    var h :- r;
    ShortCircuit(opc, f, h, lev)
  }

  lemma {:induction false} ShortUnfolds(e: Expr, l: Expr, r: Expr, lev: nat)
    requires e == And(l, r) || e == Or(l, r)
    ensures GenExpr(e, lev) == ShortOf(if e.And? then 0x1F else 0x1E, GenExpr(l, lev), GenExpr(r, lev), lev)
  {
    hide Combine, Force, ShortCircuit, ExprGen.GenNot, ExprGen.GenNeg;
  }

  function BinOf(op: Op, l: Option<Frag>, r: Option<Frag>, lev: nat): Option<Frag> {
    var f :- l;
    var k :- LeftOf(op, f, lev);
    var h :- r;
    Combine(op, k, h, lev)
  }

  lemma {:induction false} BinUnfolds(e: Expr, op: Op, l: Expr, r: Expr, lev: nat)
    requires e == Bin(op, l, r)
    ensures GenExpr(e, lev) == BinOf(op, GenExpr(l, lev), GenExpr(r, lev), lev)
  {
    hide Combine, Force, ShortCircuit, ExprGen.GenNot, ExprGen.GenNeg;
  }
}
