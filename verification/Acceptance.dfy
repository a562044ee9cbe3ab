/** Which well-typed programs the compiler accepts, in terms of the source alone: constants in range,
    variables within reach, and few enough words on the expression stack. */
module Acceptance {
  import opened Words
  import opened Options
  import opened Lang
  import opened ExprMeaning
  import opened StmtGen
  import G = ExprGen

  // ----------------------------------------------------------------- constants

  /** The number that a constant operand stands for. Only `*` and `+` are computed when both operands
      are constants. */
  function Constant(e: Expr): Option<int> {
    match e
    case Num(n) => Some(n as int)
    case Truth(b) => Some(if b then 1 else 0)
    case Ref(_) => None
    case Not(a) =>
      var x :- Constant(a);
      Some(1 - x)
    case Negate(a) =>
      var x :- Constant(a);
      Some(0 - x)
    case And(_, _) => None
    case Or(_, _) => None
    case Bin(op, l, r) =>
      if op == Times then
        var x :- Constant(l);
        var y :- Constant(r);
        Some(x * y)
      else if op == Plus then
        var x :- Constant(l);
        var y :- Constant(r);
        Some(x + y)
      else None
  }

  predicate InRange(t: Typ, x: int) {
    match t
    case Card => 0 <= x <= 65535
    case Int => -32767 <= x <= 32767      // the compiler's own bounds
    case Bool => 0 <= x <= 1
  }

  /** Every constant that is computed fits its type. */
  predicate FoldsFit(e: Expr) {
    match e
    case Num(_) => true
    case Truth(_) => true
    case Ref(_) => true
    case Not(a) => FoldsFit(a)
    case Negate(a) => FoldsFit(a)
    case And(l, r) => FoldsFit(l) && FoldsFit(r)
    case Or(l, r) => FoldsFit(l) && FoldsFit(r)
    case Bin(_, l, r) =>
      FoldsFit(l) && FoldsFit(r) && (Constant(e).Some? && TypeOf(e).Some? ==> InRange(TypeOf(e).value, Constant(e).value))
  }

  lemma {:induction false} ProductFits(a: nat, b: nat, m: nat)
    requires a > 0
    ensures b <= m / a <==> a * b <= m
  {
    var q, r := m / a, m % a;
    assert m == a * q + r && 0 <= r < a;
    if b <= q {
      MulMono(a, b, q);
    } else {
      MulMono(a, q + 1, b);
    }
  }

  lemma {:induction false} MulMono(a: nat, x: nat, y: nat)
    requires x <= y
    ensures a * x <= a * y
  {
  }

  lemma {:induction false} CardFold(op: Op, x: int, y: int)
    requires InRange(Card, x) && InRange(Card, y) && (op == Times || op == Plus)
    ensures var z := if op == Times then x * y else x + y;
            z >= 0 && G.Fold(op, Card, x, y) == if InRange(Card, z) then Some(z) else None
  {
    if op == Times && x > 0 {
      ProductFits(x, y, MAX_CARD);
    }
  }

  lemma {:induction false} AbsProduct(x: int, y: int)
    ensures G.Abs(x * y) == G.Abs(x) * G.Abs(y)
  {
  }

  lemma {:induction false} IntFold(op: Op, x: int, y: int)
    requires InRange(Int, x) && InRange(Int, y) && (op == Times || op == Plus)
    ensures var z := if op == Times then x * y else x + y;
            G.Fold(op, Int, Wrap(x), Wrap(y)) == if InRange(Int, z) then Some(Wrap(z)) else None
  {
    SignedWrap(x);
    SignedWrap(y);
    hide Wrap, Signed;
    if op == Times && x != 0 {
      ProductFits(G.Abs(x), G.Abs(y), MAX_INT);
      AbsProduct(x, y);
    }
  }

  lemma {:induction false} SignedWrap(x: int)
    requires InRange(Int, x)
    ensures Signed(Wrap(x)) == x
  {
  }

  // --------------------------------------------------------------- expressions

  /** A variable can be loaded: its level is visible and its address is a byte. */
  predicate Reachable(v: Var, lev: nat) {
    v.lev <= lev && v.adr < 0x100
  }

  lemma {:induction false} VarLoads(v: Var, lev: nat)
    ensures G.VarCode(v, lev).Some? <==> Reachable(v, lev)
  {
  }

  /** The code of the expression can be generated, but for the depth of the stack. */
  predicate Loadable(e: Expr, lev: nat) {
    FoldsFit(e) && forall v :: v in Vars(e) ==> Reachable(v, lev)
  }

  function Larger(a: nat, b: nat): nat { if a >= b then a else b }

  /** The words of the expression stack that an expression needs: operands from left to right, but a
      constant on the left of `*` or `+` is loaded last. */
  function Need(e: Expr): nat {
    if e.Ref? || Constant(e).Some? then 1
    else
      match e
      case Num(_) => 1
      case Truth(_) => 1
      case Ref(_) => 1
      case Not(a) => Need(a)
      case Negate(a) => Need(a)
      case And(l, r) => Larger(Need(l), Need(r))
      case Or(l, r) => Larger(Need(l), Need(r))
      case Bin(op, l, r) =>
        if Constant(l).Some? && (op == Times || op == Plus) then Larger(Need(r), 2) else Larger(Need(l), 1 + Need(r))
  }

  /** What is known of the item of an expression for which code is generated. */
  predicate Itemized(e: Expr, f: G.Frag)
    requires TypeOf(e).Some?
  {
    && G.ItemTyp(f.x) == TypeOf(e).value && (f.x.VarM? <==> e.Ref?) && (e.Ref? ==> f.x.v == e.v)
    && (f.x.ConM? <==> Constant(e).Some?)
    && (f.x.ConM? ==> f.x.val == Wrap(Constant(e).value) && InRange(TypeOf(e).value, Constant(e).value))
    && (G.Deferred(f.x) ==> f.code == [] && f.peak == 0) && (!G.Deferred(f.x) ==> f.peak == Need(e) >= 1)
    && (SmallLiteral(e) ==> f.x == G.ConM(e.n, Card))
  }

  /** Generation succeeds exactly when the expression is loadable, and needs the words it is said to. */
  predicate Matches(e: Expr, lev: nat)
    requires TypeOf(e).Some?
  {
    && (G.GenExpr(e, lev).Some? <==> e.Ref? || Loadable(e, lev))
    && (G.GenExpr(e, lev).Some? ==> Itemized(e, G.GenExpr(e, lev).value))
  }

  /** The same for the expression loaded. */
  lemma {:induction false} LoadedWhen(e: Expr, lev: nat)
    requires TypeOf(e).Some? && Matches(e, lev)
    ensures G.GenLoaded(e, lev).Some? <==> Loadable(e, lev)
    ensures G.GenLoaded(e, lev).Some? ==> G.GenLoaded(e, lev).value.peak == Need(e) >= 1
  {
    hide G.GenExpr, FoldsFit, G.LitCode;
    if e.Ref? {
      VarLoads(e.v, lev);
      RefFolds(e);
    }
    hide G.VarCode;
  }

  lemma {:induction false} RefFolds(e: Expr)
    requires e.Ref?
    ensures FoldsFit(e) && Vars(e) == {e.v}
  {
  }

  lemma {:induction false} ExprAccepted(e: Expr, lev: nat)
    requires TypeOf(e).Some?
    ensures Matches(e, lev)
  {
    match e
    case Num(_) =>
    case Truth(_) =>
    case Ref(_) =>
    case Not(a) =>
      ExprAccepted(a, lev);
      NotAccepted(a, lev);
    case Negate(a) =>
      ExprAccepted(a, lev);
      NegateAccepted(a, lev);
    case And(l, r) =>
      ExprAccepted(l, lev);
      ExprAccepted(r, lev);
      ShortAccepted(e, l, r, 0x1F, lev);
    case Or(l, r) =>
      ExprAccepted(l, lev);
      ExprAccepted(r, lev);
      ShortAccepted(e, l, r, 0x1E, lev);
    case Bin(op, l, r) =>
      ExprAccepted(l, lev);
      ExprAccepted(r, lev);
      BinAccepted(op, l, r, lev);
  }

  lemma {:induction false} NotAccepted(a: Expr, lev: nat)
    requires TypeOf(Expr.Not(a)).Some? && Matches(a, lev)
    ensures Matches(Expr.Not(a), lev)
  {
    hide G.GenExpr, Loadable, G.LoadCode, Wrap, G.GenLoaded;
    LoadedWhen(a, lev);
    NotUnfolds(a, lev);
  }

  lemma {:induction false} NotUnfolds(a: Expr, lev: nat)
    ensures Loadable(Expr.Not(a), lev) == Loadable(a, lev)
    ensures G.GenExpr(Expr.Not(a), lev) == match G.GenExpr(a, lev) case None => None case Some(f) => G.GenNot(f, lev)
    ensures G.GenLoaded(a, lev) == match G.GenExpr(a, lev) case None => None case Some(f) => G.Force(f, lev)
    ensures Wrap(0) == 0 && Wrap(1) == 1
  {
    hide G.GenNot, G.Force, Reachable;
    assert Vars(Expr.Not(a)) == Vars(a);
  }

  lemma {:induction false} NegateAccepted(a: Expr, lev: nat)
    requires TypeOf(Negate(a)).Some? && Matches(a, lev)
    ensures Matches(Negate(a), lev)
  {
    LoadedWhen(a, lev);
    assert Vars(Negate(a)) == Vars(a) && FoldsFit(Negate(a)) == FoldsFit(a);
    assert G.GenExpr(Negate(a), lev) == match G.GenExpr(a, lev) case None => None case Some(f) => G.GenNeg(f, lev);
    hide G.GenExpr, Vars, FoldsFit, G.LoadCode, Wrap, Signed;
    if Constant(a).Some? && G.GenExpr(a, lev).Some? {
      SmallIsInt(a);
      SignedWrap(Constant(a).value);
      NegatedWord(Constant(a).value);
    }
  }

  lemma {:induction false} SmallIsInt(a: Expr)
    requires TypeOf(Negate(a)).Some? && Constant(a).Some? && InRange(TypeOf(a).value, Constant(a).value)
    ensures InRange(Int, Constant(a).value)
  {
  }

  lemma {:induction false} NegatedWord(x: int)
    requires InRange(Int, x)
    ensures Wrap(-x) == Wrap(0 - x) && InRange(Int, 0 - x)
  {
  }

  lemma {:induction false} ShortAccepted(e: Expr, l: Expr, r: Expr, opc: byte, lev: nat)
    requires (e == Expr.And(l, r) && opc == 0x1F) || (e == Expr.Or(l, r) && opc == 0x1E)
    requires TypeOf(e).Some? && TypeOf(l).Some? && TypeOf(r).Some? && Matches(l, lev) && Matches(r, lev)
    ensures Matches(e, lev)
  {
    hide G.GenExpr, Loadable, G.LoadCode, G.Displacement, G.GenLoaded, Wrap;
    LoadedWhen(l, lev);
    LoadedWhen(r, lev);
    ShortUnfolds(e, l, r, opc, lev);
  }

  lemma {:induction false} ShortUnfolds(e: Expr, l: Expr, r: Expr, opc: byte, lev: nat)
    requires (e == Expr.And(l, r) && opc == 0x1F) || (e == Expr.Or(l, r) && opc == 0x1E)
    ensures Loadable(e, lev) == (Loadable(l, lev) && Loadable(r, lev))
    ensures G.GenExpr(e, lev) == if G.GenExpr(l, lev).None? || G.GenExpr(r, lev).None? then None
                                 else G.ShortCircuit(opc, G.GenExpr(l, lev).value, G.GenExpr(r, lev).value, lev)
    ensures G.GenLoaded(l, lev) == match G.GenExpr(l, lev) case None => None case Some(f) => G.Force(f, lev)
    ensures G.GenLoaded(r, lev) == match G.GenExpr(r, lev) case None => None case Some(f) => G.Force(f, lev)
  {
    hide G.ShortCircuit, G.Force, Reachable;
    assert Vars(e) == Vars(l) + Vars(r);
  }

  // --------------------------------------------------------- binary operations

  /** When `GenOp` succeeds on typed operands, and how far the stack grows. */
  lemma {:induction false} CombineAccepts(op: Op, g: G.Frag, h: G.Frag, lev: nat, t: Typ)
    requires G.OperandTyp(g.x, h.x) == Some(t) && G.OperatorTyped(op, t) && !g.x.VarM?
    requires G.Deferred(h.x) ==> h.peak == 0
    ensures var f := G.Combine(op, g, h, lev);
            if g.x.ConM? && h.x.ConM? then
              f == match G.Fold(op, t, g.x.val, h.x.val) case None => None case Some(n) => Some(G.Frag([], G.ConM(n, t), 0))
            else
              && (f.Some? <==> G.LoadCode(h.x, lev).Some?)
              && (f.Some? ==> f.value.x.CldM? || f.value.x.ExpM?)
              && (f.Some? ==> f.value.peak == if g.x.ConM? then G.Max(h.peak, 2) else G.Max(g.peak, 1 + G.Max(h.peak, 1)))
  {
    hide G.OperandTyp, G.OperatorTyped, G.Fold, G.LitCode, G.Opcode, G.OddPart, G.Twos, Pow2, G.VarCode;
  }

  /** Where the operation keeps its operand type, the item is of that type. */
  lemma {:induction false} CombineTyped(op: Op, g: G.Frag, h: G.Frag, lev: nat, t: Typ)
    requires G.OperandTyp(g.x, h.x) == Some(t) && G.OperatorTyped(op, t) && !g.x.VarM? && !(g.x.ConM? && h.x.ConM?)
    requires g.x.ConM? ==> op == Times || op == Plus
    ensures G.Combine(op, g, h, lev).Some? ==> G.ItemTyp(G.Combine(op, g, h, lev).value.x) == if Relation(op) then Bool else t
  {
    hide G.OperandTyp, G.OperatorTyped, G.Fold, G.LitCode, G.Opcode, G.OddPart, G.Twos, Pow2, G.VarCode;
  }

  lemma {:induction false} OperandsTyped(op: Op, l: Expr, r: Expr)
    requires TypeOf(Bin(op, l, r)).Some?
    ensures TypeOf(l).Some? && TypeOf(r).Some? && Common(l, TypeOf(l).value, r, TypeOf(r).value).Some?
    ensures var t := Common(l, TypeOf(l).value, r, TypeOf(r).value).value;
            && G.OperatorTyped(op, t) && TypeOf(Bin(op, l, r)).value == (if Relation(op) then Bool else t)
  {
  }

  lemma {:induction false} BinAccepted(op: Op, l: Expr, r: Expr, lev: nat)
    requires TypeOf(Bin(op, l, r)).Some? && TypeOf(l).Some? && TypeOf(r).Some? && Matches(l, lev) && Matches(r, lev)
    ensures Matches(Bin(op, l, r), lev)
  {
    hide G.GenExpr, G.GenLoaded, Loadable, Itemized, G.Combine, G.Force, TypeOf, Constant;
    LoadedWhen(l, lev);
    LoadedWhen(r, lev);
    BinLoadable(op, l, r, lev);
    BinUnfolds(op, l, r, lev);
    if G.GenExpr(l, lev).Some? && G.GenExpr(r, lev).Some? {
      var f, h := G.GenExpr(l, lev).value, G.GenExpr(r, lev).value;
      if G.KeepsConst(op, f.x) {
        KeptIsLoadable(op, l, lev);
        KeptAccepted(op, l, r, lev, f, h);
      } else if G.Force(f, lev).Some? {
        LoadedAccepted(op, l, r, lev, f, G.Force(f, lev).value, h);
      }
    }
  }

  lemma {:induction false} KeptIsLoadable(op: Op, l: Expr, lev: nat)
    requires TypeOf(l).Some? && Matches(l, lev) && G.GenExpr(l, lev).Some? && G.KeepsConst(op, G.GenExpr(l, lev).value.x)
    ensures Loadable(l, lev)
  {
    hide G.GenExpr, Loadable, TypeOf, Constant;
  }

  lemma {:induction false} BinUnfolds(op: Op, l: Expr, r: Expr, lev: nat)
    ensures G.GenExpr(Bin(op, l, r), lev)
         == match (G.GenExpr(l, lev), G.GenExpr(r, lev))
            case (Some(f), Some(h)) =>
              if G.KeepsConst(op, f.x) then G.Combine(op, f, h, lev)
              else (match G.Force(f, lev) case None => None case Some(g) => G.Combine(op, g, h, lev))
            case _ => None
    ensures G.GenLoaded(l, lev) == match G.GenExpr(l, lev) case None => None case Some(f) => G.Force(f, lev)
    ensures G.GenLoaded(r, lev) == match G.GenExpr(r, lev) case None => None case Some(f) => G.Force(f, lev)
  {
    hide G.Combine, G.Force;
  }

  lemma {:induction false} BinLoadable(op: Op, l: Expr, r: Expr, lev: nat)
    requires TypeOf(Bin(op, l, r)).Some?
    ensures var e := Bin(op, l, r);
            Loadable(e, lev) <==> Loadable(l, lev) && Loadable(r, lev) && (Constant(e).Some? ==> InRange(TypeOf(e).value, Constant(e).value))
  {
    assert Vars(Bin(op, l, r)) == Vars(l) + Vars(r);
    hide Constant, TypeOf;
  }

  /** The left operand is a constant that stays behind. */
  lemma {:induction false} KeptAccepted(op: Op, l: Expr, r: Expr, lev: nat, f: G.Frag, h: G.Frag)
    requires TypeOf(Bin(op, l, r)).Some? && TypeOf(l).Some? && TypeOf(r).Some? && Itemized(l, f) && Itemized(r, h) && G.KeepsConst(op, f.x)
    requires G.GenExpr(Bin(op, l, r), lev) == G.Combine(op, f, h, lev) && Loadable(l, lev)
    requires G.Force(h, lev).Some? <==> Loadable(r, lev)
    ensures Matches(Bin(op, l, r), lev)
  {
    hide G.GenExpr, Loadable, G.Combine, TypeOf, Constant, G.LoadCode, G.OperandTyp, G.OperatorTyped, Common, InRange, Wrap, G.Fold, Need;
    OperandsTyped(op, l, r);
    NeedOf(op, l, r);
    NeedOfRef(r);
    var t := Common(l, TypeOf(l).value, r, TypeOf(r).value).value;
    OperandsAgree(l, TypeOf(l).value, r, TypeOf(r).value, f.x, h.x);
    CombineAccepts(op, f, h, lev, t);
    BinLoadable(op, l, r, lev);
    ConstantOf(op, l, r);
    if h.x.ConM? {
      ConstForced(h, lev);
      FoldAccepted(op, t, l, r, Constant(l).value, Constant(r).value);
    } else {
      CombineTyped(op, f, h, lev, t);
    }
  }

  lemma {:induction false} NeedOf(op: Op, l: Expr, r: Expr)
    ensures Need(Bin(op, l, r)) == if Constant(Bin(op, l, r)).Some? then 1
                                   else if Constant(l).Some? && (op == Times || op == Plus) then Larger(Need(r), 2)
                                   else Larger(Need(l), 1 + Need(r))
  {
    hide Constant;
  }

  lemma {:induction false} NeedOfRef(e: Expr)
    ensures e.Ref? || Constant(e).Some? ==> Need(e) == 1
  {
    hide Constant;
  }

  lemma {:induction false} ConstForced(h: G.Frag, lev: nat)
    requires h.x.ConM?
    ensures G.Force(h, lev).Some?
  {
  }

  lemma {:induction false} ConstantOf(op: Op, l: Expr, r: Expr)
    ensures Constant(Bin(op, l, r)) == if (op == Times || op == Plus) && Constant(l).Some? && Constant(r).Some?
                                       then Some(if op == Times then Constant(l).value * Constant(r).value else Constant(l).value + Constant(r).value)
                                       else None
  {
  }

  /** Two constants are computed exactly when the result fits their type. */
  lemma {:induction false} FoldAccepted(op: Op, t: Typ, l: Expr, r: Expr, x: int, y: int)
    requires op == Times || op == Plus
    requires TypeOf(l).Some? && TypeOf(r).Some? && Common(l, TypeOf(l).value, r, TypeOf(r).value) == Some(t) && G.OperatorTyped(op, t)
    requires Constant(l) == Some(x) && Constant(r) == Some(y) && InRange(TypeOf(l).value, x) && InRange(TypeOf(r).value, y)
    ensures var z := if op == Times then x * y else x + y;
            G.Fold(op, t, Wrap(x), Wrap(y)) == if InRange(t, z) then Some(Wrap(z)) else None
  {
    OperandRange(op, t, l, r, x, y);
    hide G.Fold, Wrap, Constant, TypeOf, Common, G.OperatorTyped;
    if t == Card {
      CardFold(op, x, y);
      CardWords(x, y);
    } else {
      IntFold(op, x, y);
    }
  }

  lemma {:induction false} OperandRange(op: Op, t: Typ, l: Expr, r: Expr, x: int, y: int)
    requires op == Times || op == Plus
    requires TypeOf(l).Some? && TypeOf(r).Some? && Common(l, TypeOf(l).value, r, TypeOf(r).value) == Some(t) && G.OperatorTyped(op, t)
    requires Constant(l) == Some(x) && Constant(r) == Some(y) && InRange(TypeOf(l).value, x) && InRange(TypeOf(r).value, y)
    ensures t != Bool && InRange(t, x) && InRange(t, y)
  {
    if SmallLiteral(l) {
      SmallConstant(l);
    }
    if SmallLiteral(r) {
      SmallConstant(r);
    }
    hide Constant;
  }

  lemma {:induction false} SmallConstant(e: Expr)
    requires SmallLiteral(e)
    ensures Constant(e) == Some(e.n as int) && TypeOf(e) == Some(Card)
  {
  }

  lemma {:induction false} CardWords(x: int, y: int)
    ensures InRange(Card, x) ==> Wrap(x) == x
    ensures InRange(Card, y) ==> Wrap(y) == y
    ensures InRange(Card, x * y) ==> Wrap(x * y) == x * y
    ensures InRange(Card, x + y) ==> Wrap(x + y) == x + y
  {
    WrapSame(x);
    WrapSame(y);
    WrapSame(x * y);
    WrapSame(x + y);
    hide Wrap;
  }

  lemma {:induction false} WrapSame(x: int)
    ensures InRange(Card, x) ==> Wrap(x) == x
  {
  }

  /** The left operand is loaded. */
  lemma {:induction false} LoadedAccepted(op: Op, l: Expr, r: Expr, lev: nat, f: G.Frag, g: G.Frag, h: G.Frag)
    requires TypeOf(Bin(op, l, r)).Some? && TypeOf(l).Some? && TypeOf(r).Some? && Itemized(l, f) && Itemized(r, h) && !G.KeepsConst(op, f.x)
    requires G.Force(f, lev) == Some(g) && g.peak == Need(l)
    requires G.GenExpr(Bin(op, l, r), lev) == G.Combine(op, g, h, lev) && Loadable(l, lev)
    requires G.Force(h, lev).Some? <==> Loadable(r, lev)
    ensures Matches(Bin(op, l, r), lev)
  {
    hide G.GenExpr, Loadable, G.Combine, TypeOf, Constant, G.LoadCode, G.OperandTyp, G.OperatorTyped, Common, InRange, Wrap, G.Fold, Need;
    OperandsTyped(op, l, r);
    NeedOf(op, l, r);
    NeedOfRef(r);
    var t := Common(l, TypeOf(l).value, r, TypeOf(r).value).value;
    OperandsAgree(l, TypeOf(l).value, r, TypeOf(r).value, g.x, h.x);
    CombineAccepts(op, g, h, lev, t);
    CombineTyped(op, g, h, lev, t);
    BinLoadable(op, l, r, lev);
    ConstantOf(op, l, r);
  }
}
