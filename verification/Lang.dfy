/** The source language of the code generator model: expressions and statements over one-word
    variables, and what they mean. Values are mathematical; `Encode` is their machine word. */
module Lang {
  import opened Words
  import opened Options

  const MAX_INT: int := 32767
  const MIN_INT: int := -32767   // M2SGL's own constant
  const MAX_CARD: int := 65535

  type int16 = x: int | -0x8000 <= x < 0x8000

  datatype Typ = Card | Int | Bool
  datatype Value = C(n: word) | I(i: int16) | B(b: bool)

  function TypOf(v: Value): Typ {
    match v case C(_) => Card case I(_) => Int case B(_) => Bool
  }

  function Encode(v: Value): word {
    match v
    case C(n) => n
    case I(i) => Wrap(i)
    case B(b) => if b then 1 else 0
  }

  /** A variable: its lexical level (0 for globals), its word address in the frame, its type. */
  datatype Var = Var(lev: nat, adr: nat, typ: Typ)

  type Store = map<Var, Value>

  ghost predicate Typed(s: Store) {
    forall v :: v in s ==> TypOf(s[v]) == v.typ
  }

  datatype Op = Times | Div | Mod | Plus | Minus | Eq | Ne | Lt | Le | Gt | Ge

  datatype Expr =
    | Num(n: word)
    | Truth(b: bool)
    | Ref(v: Var)
    | Not(a: Expr)
    | Negate(a: Expr)
    | And(l: Expr, r: Expr)
    | Or(l: Expr, r: Expr)
    | Bin(op: Op, l: Expr, r: Expr)

  predicate Relation(op: Op) {
    op.Eq? || op.Ne? || op.Lt? || op.Le? || op.Gt? || op.Ge?
  }

  /** A literal that fits both CARDINAL and INTEGER. */
  predicate SmallLiteral(e: Expr) {
    e.Num? && e.n <= MAX_INT
  }

  /** The common type of two operands l and r of types tl and tr: equal types, or an
      INTEGER and a small literal. */
  function Common(l: Expr, tl: Typ, r: Expr, tr: Typ): Option<Typ> {
    if tl == tr then Some(tl)
    else if tl == Int && SmallLiteral(r) then Some(Int)
    else if tr == Int && SmallLiteral(l) then Some(Int)
    else None
  }

  function TypeOf(e: Expr): Option<Typ>
    decreases e
  {
    match e
    case Num(_) => Some(Card)
    case Truth(_) => Some(Bool)
    case Ref(v) => Some(v.typ)
    case Not(a) => if TypeOf(a) == Some(Bool) then Some(Bool) else None
    case Negate(a) => if TypeOf(a) == Some(Int) || SmallLiteral(a) then Some(Int) else None
    case And(l, r) => if TypeOf(l) == Some(Bool) && TypeOf(r) == Some(Bool) then Some(Bool) else None
    case Or(l, r) => if TypeOf(l) == Some(Bool) && TypeOf(r) == Some(Bool) then Some(Bool) else None
    case Bin(op, l, r) =>
      var tl :- TypeOf(l);
      var tr :- TypeOf(r);
      var t :- Common(l, tl, r, tr);
      if Relation(op) then Some(Bool)
      else if t == Card || (t == Int && op != Mod) then Some(t)
      else None
  }

  function Vars(e: Expr): set<Var> {
    match e
    case Num(_) => {}
    case Truth(_) => {}
    case Ref(v) => {v}
    case Not(a) => Vars(a)
    case Negate(a) => Vars(a)
    case And(l, r) => Vars(l) + Vars(r)
    case Or(l, r) => Vars(l) + Vars(r)
    case Bin(_, l, r) => Vars(l) + Vars(r)
  }

  /** INTEGER arithmetic wraps around at 16 bits. */
  function Wrap16(i: int): int16 {
    var w := Wrap(i);
    if w < 0x8000 then w else w - 0x1_0000
  }

  /** Where an INTEGER is wanted, a small CARDINAL literal is one. */
  function AsInt(v: Value, t: Typ): Value {
    if t == Int && v.C? && v.n <= MAX_INT then I(v.n) else v
  }

  function Arith(op: Op, a: Value, b: Value): Option<Value> {
    match (a, b)
    case (C(m), C(n)) =>
      (match op
       case Times => Some(C(Wrap(m * n)))
       case Div => if n == 0 then None else Some(C(m / n))
       case Mod => if n == 0 then None else Some(C(m % n))
       case Plus => Some(C(Wrap(m + n)))
       case Minus => Some(C(Wrap(m - n)))
       case _ => None)
    case (I(i), I(j)) =>
      (match op
       case Times => Some(I(Wrap16(i * j)))
       case Div => if j == 0 then None else Some(I(Wrap16(TruncDiv(i, j))))
       case Plus => Some(I(Wrap16(i + j)))
       case Minus => Some(I(Wrap16(i - j)))
       case _ => None)
    case _ => None
  }

  /** The ordinal number by which values of one type are compared. */
  function Ordinal(v: Value): int {
    match v case C(n) => n case I(i) => i case B(b) => if b then 1 else 0
  }

  predicate Compare(op: Op, x: int, y: int) {
    match op
    case Eq => x == y
    case Ne => x != y
    case Lt => x < y
    case Le => x <= y
    case Gt => x > y
    case Ge => x >= y
    case _ => false
  }

  function BinValue(op: Op, t: Typ, a: Value, b: Value): Option<Value> {
    if Relation(op) then Some(B(Compare(op, Ordinal(AsInt(a, t)), Ordinal(AsInt(b, t)))))
    else Arith(op, AsInt(a, t), AsInt(b, t))
  }

  /** The value of an expression; None when a division by zero is evaluated. */
  function Eval(e: Expr, s: Store): Option<Value> {
    match e
    case Num(n) => Some(C(n))
    case Truth(b) => Some(B(b))
    case Ref(v) => if v in s then Some(s[v]) else None
    case Not(a) =>
      var x :- Eval(a, s);
      if x.B? then Some(B(!x.b)) else None
    case Negate(a) =>
      var x :- Eval(a, s);
      (match AsInt(x, Int) case I(i) => Some(I(Wrap16(0 - i))) case _ => None)
    case And(l, r) =>
      var x :- Eval(l, s);
      if x == B(false) then Some(x) else Eval(r, s)
    case Or(l, r) =>
      var x :- Eval(l, s);
      if x == B(true) then Some(x) else Eval(r, s)
    case Bin(op, l, r) =>
      var x :- Eval(l, s);
      var y :- Eval(r, s);
      BinValue(op, if x.I? || y.I? then Int else TypOf(x), x, y)
  }
}
