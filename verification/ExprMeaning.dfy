/** Machine words and source values agree operator by operator, and the generator's items
    describe the source expression correctly. No machine runs are involved here. */
module ExprMeaning {
  import opened Words
  import opened Options
  import opened MCode
  import opened Lang
  import G = ExprGen

  function MachineOp(op: Op, t: Typ): BinaryOp {
    match op
    case Times => if t == Int then IMul else UMul
    case Div => if t == Int then IDiv else UDiv
    case Mod => UMod
    case Plus => if t == Int then IAdd else UAdd
    case Minus => if t == Int then ISub else USub
    case Eq => Eql
    case Ne => Neq
    case Lt => if t == Int then ILss else ULss
    case Le => if t == Int then ILeq else ULeq
    case Gt => if t == Int then IGtr else UGtr
    case Ge => if t == Int then IGeq else UGeq
  }

  lemma {:induction false} OpcodeDecodes(op: Op, t: Typ)
    ensures DecodePlain(G.Opcode(op, t)) == Some(Binary(MachineOp(op, t)))
  {
  }

  function EncodeResult(o: Option<Value>): Option<word> {
    match o case None => None case Some(v) => Some(Encode(v))
  }

  lemma {:induction false} EncodeInt(i: int16)
    ensures Signed(Encode(I(i))) == i
  {
  }

  lemma {:induction false} ZeroWord(i: int16)
    ensures Encode(I(i)) == 0 <==> i == 0
  {
  }

  /** An INTEGER result is the low 16 bits of the true result. */
  lemma {:induction false} EncodeWrapped(i: int)
    ensures Encode(I(Wrap16(i))) == Wrap(i)
  {
  }

  lemma {:induction false} AsIntKeepsWord(v: Value, t: Typ)
    ensures Encode(AsInt(v, t)) == Encode(v)
  {
  }

  lemma {:induction false} WrapMulLeft(a: int, b: int)
    ensures Wrap(Wrap(a) * b) == Wrap(a * b)
  {
    var q := a / 0x1_0000;
    assert a == Wrap(a) + 0x1_0000 * q;
    assert a * b == Wrap(a) * b + 0x1_0000 * (q * b);
    WrapShift(Wrap(a) * b, q * b);
  }

  lemma {:induction false} WrapMul(a: int, b: int)
    ensures Wrap(Wrap(a) * Wrap(b)) == Wrap(a * b)
  {
    WrapMulLeft(a, Wrap(b));
    WrapMulLeft(b, a);
    assert a * Wrap(b) == Wrap(b) * a && a * b == b * a;
  }

  /** On operands of the common type t the machine operator computes the source operator. */
  lemma {:induction false} OperatorMeaning(op: Op, t: Typ, a: Value, b: Value)
    requires TypOf(AsInt(a, t)) == t && TypOf(AsInt(b, t)) == t && G.OperatorTyped(op, t)
    ensures Apply(MachineOp(op, t), Encode(a), Encode(b)) == EncodeResult(BinValue(op, t, a, b))
    ensures match BinValue(op, t, a, b)
            case Some(v) => TypOf(v) == if Relation(op) then Bool else t
            case None => op == Div || op == Mod
  {
    AsIntKeepsWord(a, t);
    AsIntKeepsWord(b, t);
    if t == Int {
      IntMeaning(op, AsInt(a, t).i, AsInt(b, t).i);
    }
  }

  lemma {:induction false} IntMeaning(op: Op, i: int16, j: int16)
    requires op != Mod
    ensures Apply(MachineOp(op, Int), Encode(I(i)), Encode(I(j)))
         == if Relation(op) then Some(Flag(Compare(op, i, j))) else EncodeResult(Arith(op, I(i), I(j)))
  {
    hide Wrap, Wrap16, Signed, TruncDiv;
    EncodeInt(i);
    EncodeInt(j);
    ZeroWord(j);
    EncodeWrapped(i * j);
    EncodeWrapped(i + j);
    EncodeWrapped(i - j);
    if j != 0 {
      EncodeWrapped(TruncDiv(i, j));
    }
  }

  // ------------------------------------------------------------- powers of two

  lemma {:induction false} PowerSplit(x: nat)
    requires x > 0
    ensures Pow2(G.Twos(x)) * G.OddPart(x) == x
  {
    if x % 2 == 0 {
      PowerSplit(x / 2);
      Doubled(Pow2(G.Twos(x / 2)), G.OddPart(x / 2));
    }
  }

  lemma {:induction false} Doubled(a: int, b: int)
    ensures (2 * a) * b == 2 * (a * b)
  {
  }

  lemma {:induction false} TwosBound(x: nat, k: nat)
    requires 0 < x < Pow2(k)
    ensures G.Twos(x) < k
  {
    if x % 2 == 0 {
      TwosBound(x / 2, k - 1);
    }
  }

  lemma {:induction false} Pow2Sixteen()
    ensures Pow2(16) == 0x1_0000
  {
    assert Pow2(4) == 16;
    assert Pow2(8) == 256;
    assert Pow2(12) == 4096;
  }

  /** A constant that `clog` finds to be a power of two is 2 to the exponent it finds. */
  lemma {:induction false} PowerConstant(n: word)
    requires G.OddPart(n) == 1
    ensures G.Twos(n) < 16 && Pow2(G.Twos(n)) == n
  {
    assert n > 0;
    PowerSplit(n);
    Pow2Sixteen();
    TwosBound(n, 16);
  }

  /** Shifting and masking replace `*`, DIV and MOD by a power of two. */
  lemma {:induction false} StrengthReduction(x: word, n: word, k: nat)
    requires k < 16 && Pow2(k) == n
    ensures Apply(Shl, x, k) == Some(Wrap(x * n))
    ensures Apply(Shr, x, k) == Apply(UDiv, x, n)
    ensures Apply(MCode.And, x, n - 1) == Apply(UMod, x, n)
  {
    assert k % 16 == k;
    MaskIsRemainder(x, k);
  }

  lemma {:induction false} MulWordsMeaning(t: Typ, a: Value, b: Value)
    requires TypOf(AsInt(a, t)) == t && TypOf(AsInt(b, t)) == t && t != Bool
    ensures Some(Wrap(Encode(a) * Encode(b))) == EncodeResult(BinValue(Times, t, a, b))
  {
    AsIntKeepsWord(a, t);
    AsIntKeepsWord(b, t);
    if t == Int {
      MulIntWords(AsInt(a, t).i, AsInt(b, t).i);
    }
  }

  lemma {:induction false} MulIntWords(i: int16, j: int16)
    ensures Wrap(Encode(I(i)) * Encode(I(j))) == Encode(I(Wrap16(i * j)))
  {
    WrapMul(i, j);
    EncodeWrapped(i * j);
  }

  // ---------------------------------------------------------------- the items

  lemma {:induction false} EvalTyped(e: Expr, s: Store)
    requires TypeOf(e).Some? && Vars(e) <= s.Keys && Typed(s)
    ensures Eval(e, s).Some? ==> TypOf(Eval(e, s).value) == TypeOf(e).value
  {
    match e
    case Num(_) =>
    case Truth(_) =>
    case Ref(_) =>
    case Not(a) => EvalTyped(a, s);
    case Negate(a) => EvalTyped(a, s);
    case And(l, r) => EvalTyped(l, s); EvalTyped(r, s);
    case Or(l, r) => EvalTyped(l, s); EvalTyped(r, s);
    case Bin(op, l, r) =>
      EvalTyped(l, s);
      EvalTyped(r, s);
      if Eval(l, s).Some? && Eval(r, s).Some? {
        BinOperands(op, l, r, s);
        OperatorMeaning(op, Common(l, TypeOf(l).value, r, TypeOf(r).value).value, Eval(l, s).value, Eval(r, s).value);
      }
  }

  /** The operands of a well-typed operation have its common type, once small literals count
      as INTEGER; and that is the type at which `Eval` applies the operator. */
  lemma {:induction false} BinOperands(op: Op, l: Expr, r: Expr, s: Store)
    requires TypeOf(Bin(op, l, r)).Some? && Eval(l, s).Some? && Eval(r, s).Some?
    requires TypOf(Eval(l, s).value) == TypeOf(l).value && TypOf(Eval(r, s).value) == TypeOf(r).value
    ensures var t := Common(l, TypeOf(l).value, r, TypeOf(r).value);
            && t.Some? && G.OperatorTyped(op, t.value)
            && TypOf(AsInt(Eval(l, s).value, t.value)) == t.value
            && TypOf(AsInt(Eval(r, s).value, t.value)) == t.value
            && Eval(Bin(op, l, r), s) == BinValue(op, t.value, Eval(l, s).value, Eval(r, s).value)
  {
  }

  lemma {:induction false} FoldMeaning(op: Op, t: Typ, a: Value, b: Value, n: word)
    requires TypOf(AsInt(a, t)) == t && TypOf(AsInt(b, t)) == t
    requires G.Fold(op, t, Encode(a), Encode(b)) == Some(n)
    ensures EncodeResult(BinValue(op, t, a, b)) == Some(n)
  {
    AsIntKeepsWord(a, t);
    AsIntKeepsWord(b, t);
    if t == Int {
      FoldInt(op, AsInt(a, t).i, AsInt(b, t).i, n);
    }
  }

  lemma {:induction false} FoldInt(op: Op, i: int16, j: int16, n: word)
    requires G.Fold(op, Int, Encode(I(i)), Encode(I(j))) == Some(n)
    ensures EncodeResult(Arith(op, I(i), I(j))) == Some(n)
  {
    EncodeInt(i);
    EncodeInt(j);
    if op == Times {
      EncodeWrapped(i * j);
    } else {
      EncodeWrapped(i + j);
    }
  }

  /** What an item says about its expression before any code runs. */
  ghost predicate Describes(f: G.Frag, e: Expr, t: Typ) {
    && G.ItemTyp(f.x) == t
    && (G.Deferred(f.x) ==> f.code == [] && f.peak == 0)
    && (!G.Deferred(f.x) ==> f.peak >= 1)
    && (f.x.VarM? ==> e == Ref(f.x.v))
    && (SmallLiteral(e) ==> f.x == G.ConM(e.n, Card))
    && (f.x.ConM? ==> forall s :: Eval(e, s).Some? && Encode(Eval(e, s).value) == f.x.val
                                  && TypOf(Eval(e, s).value) == t)
  }

  lemma {:induction false} GenDescribes(e: Expr, lev: nat, f: G.Frag)
    requires TypeOf(e).Some? && G.GenExpr(e, lev) == Some(f)
    ensures Describes(f, e, TypeOf(e).value)
  {
    match e
    case Num(_) =>
    case Truth(_) =>
    case Ref(_) =>
    case Not(a) =>
      GenDescribes(a, lev, G.GenExpr(a, lev).value);
    case Negate(a) =>
      GenDescribes(a, lev, G.GenExpr(a, lev).value);
      NegateDescribes(a, lev, G.GenExpr(a, lev).value, f);
    case And(l, r) =>
      GenDescribes(l, lev, G.GenExpr(l, lev).value);
      GenDescribes(r, lev, G.GenExpr(r, lev).value);
    case Or(l, r) =>
      GenDescribes(l, lev, G.GenExpr(l, lev).value);
      GenDescribes(r, lev, G.GenExpr(r, lev).value);
    case Bin(op, l, r) =>
      var g, h := G.GenExpr(l, lev).value, G.GenExpr(r, lev).value;
      GenDescribes(l, lev, g);
      GenDescribes(r, lev, h);
      LeftForced(op, l, lev, g);
      CombineDescribes(op, l, r, LeftOperand(op, g, lev), h, lev, f);
  }

  /** The left operand as `GenOp` gets it. */
  function LeftOperand(op: Op, g: G.Frag, lev: nat): G.Frag
    requires G.KeepsConst(op, g.x) || G.Force(g, lev).Some?
  {
    if G.KeepsConst(op, g.x) then g else G.Force(g, lev).value
  }

  lemma {:induction false} LeftForced(op: Op, l: Expr, lev: nat, g: G.Frag)
    requires TypeOf(l).Some? && Describes(g, l, TypeOf(l).value)
    requires G.KeepsConst(op, g.x) || G.Force(g, lev).Some?
    ensures var k := LeftOperand(op, g, lev);
            && G.ItemTyp(k.x) == TypeOf(l).value && !k.x.VarM?
            && (k.x.ConM? ==> k == g && (op == Times || op == Plus))
            && (!k.x.ConM? ==> k.peak >= 1)
            && (SmallLiteral(l) ==> (k.x.ConM? || k.x.CldM?) && k.x.val == l.n)
  {
  }

  lemma {:induction false} NegateDescribes(a: Expr, lev: nat, g: G.Frag, f: G.Frag)
    requires TypeOf(Negate(a)).Some? && Describes(g, a, TypeOf(a).value)
    requires G.GenNeg(g, lev) == Some(f)
    ensures Describes(f, Negate(a), Int)
  {
    if g.x.ConM? {
      forall s ensures Eval(Negate(a), s).Some? && Encode(Eval(Negate(a), s).value) == f.x.val
                       && TypOf(Eval(Negate(a), s).value) == Int {
        NegMeaning(Eval(a, s).value, g.x.val);
      }
    }
  }

  lemma {:induction false} NegMeaning(v: Value, n: word)
    requires Encode(v) == n && AsInt(v, Int).I? && Signed(n) >= MIN_INT
    ensures Encode(I(Wrap16(0 - AsInt(v, Int).i))) == Wrap(-Signed(n))
  {
    AsIntKeepsWord(v, Int);
    EncodeInt(AsInt(v, Int).i);
    EncodeWrapped(0 - AsInt(v, Int).i);
  }

  /** An operation that is not folded leaves its result on the stack. */
  lemma {:induction false} CombineShape(op: Op, g: G.Frag, h: G.Frag, lev: nat, f: G.Frag)
    requires G.Combine(op, g, h, lev) == Some(f) && !(g.x.ConM? && h.x.ConM?)
    requires !g.x.VarM? && (!g.x.ConM? ==> g.peak >= 1)
    ensures !G.Deferred(f.x) && f.peak >= 1
    ensures !(g.x.ConM? && Relation(op)) ==>
              G.ItemTyp(f.x) == if Relation(op) then Bool else G.OperandTyp(g.x, h.x).value
  {
  }

  lemma {:induction false} OperandsAgree(l: Expr, tl: Typ, r: Expr, tr: Typ, x: G.Item, y: G.Item)
    requires Common(l, tl, r, tr).Some? && G.ItemTyp(x) == tl && G.ItemTyp(y) == tr
    requires SmallLiteral(l) ==> (x.ConM? || x.CldM?) && x.val == l.n && tl == Card
    requires SmallLiteral(r) ==> y.ConM? && y.val == r.n && tr == Card
    ensures G.OperandTyp(x, y) == Common(l, tl, r, tr)
  {
  }

  lemma {:induction false} CombineDescribes(op: Op, l: Expr, r: Expr, g: G.Frag, h: G.Frag, lev: nat, f: G.Frag)
    requires TypeOf(Bin(op, l, r)).Some?
    requires G.ItemTyp(g.x) == TypeOf(l).value && (SmallLiteral(l) ==> (g.x.ConM? || g.x.CldM?) && g.x.val == l.n)
    requires Describes(h, r, TypeOf(r).value)
    requires g.x.ConM? ==> Describes(g, l, TypeOf(l).value) && (op == Times || op == Plus)
    requires !g.x.VarM? && (!g.x.ConM? ==> g.peak >= 1)
    requires G.Combine(op, g, h, lev) == Some(f)
    ensures G.OperandTyp(g.x, h.x) == Common(l, TypeOf(l).value, r, TypeOf(r).value)
    ensures Describes(f, Bin(op, l, r), TypeOf(Bin(op, l, r)).value)
  {
    OperandsAgree(l, TypeOf(l).value, r, TypeOf(r).value, g.x, h.x);
    if g.x.ConM? && h.x.ConM? {
      var t := G.OperandTyp(g.x, h.x).value;
      FoldDescribes(op, l, r, t, g.x.val, h.x.val, f);
    } else {
      CombineShape(op, g, h, lev, f);
    }
  }

  lemma {:induction false} FoldDescribes(op: Op, l: Expr, r: Expr, t: Typ, a: word, b: word, f: G.Frag)
    requires TypeOf(Bin(op, l, r)).Some? && !Relation(op)
    requires Common(l, TypeOf(l).value, r, TypeOf(r).value) == Some(t)
    requires forall s :: Eval(l, s).Some? && Encode(Eval(l, s).value) == a && TypOf(Eval(l, s).value) == TypeOf(l).value
    requires forall s :: Eval(r, s).Some? && Encode(Eval(r, s).value) == b && TypOf(Eval(r, s).value) == TypeOf(r).value
    requires f.x.ConM? && G.Fold(op, t, a, b) == Some(f.x.val)
    ensures forall s :: Eval(Bin(op, l, r), s).Some? && Encode(Eval(Bin(op, l, r), s).value) == f.x.val
                        && TypOf(Eval(Bin(op, l, r), s).value) == t
  {
    forall s ensures Eval(Bin(op, l, r), s).Some? && Encode(Eval(Bin(op, l, r), s).value) == f.x.val
                     && TypOf(Eval(Bin(op, l, r), s).value) == t {
      BinOperands(op, l, r, s);
      FoldMeaning(op, t, Eval(l, s).value, Eval(r, s).value, f.x.val);
      OperatorMeaning(op, t, Eval(l, s).value, Eval(r, s).value);
    }
  }
}
