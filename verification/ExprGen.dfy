/** The code the single-pass generator emits for an expression, as a function: deferred
    constants and variables, swapped operands, strength reduction, short-circuit jumps.
    `None` stands for every reported compile error. */
module ExprGen {
  import opened Words
  import opened Options
  import opened Lang

  /** An item describes an operand: not yet loaded (ConM, VarM) or on the stack (CldM, ExpM). */
  datatype Item =
    | ConM(val: word, typ: Typ)
    | CldM(val: word, typ: Typ)
    | VarM(v: Var)
    | ExpM(typ: Typ)

  function ItemTyp(x: Item): Typ {
    if x.VarM? then x.v.typ else x.typ
  }

  predicate Deferred(x: Item) {
    x.ConM? || x.VarM?
  }

  /** Emitted code, the item left behind, and the highest stack growth on the way. */
  datatype Frag = Frag(code: seq<byte>, x: Item, peak: nat)

  function LitCode(n: word): (s: seq<byte>)
    ensures 1 <= |s| <= 3
  {
    if n < 0x10 then [n]                         // LIn
    else if n < 0x100 then [0x10, n]             // LIB
    else if n == 0xFFFF then [0xD5]              // LIN
    else [0x12] + Bytes(n)                       // LIW
  }

  /** `PutOpArg`: the address is part of the opcode when it is below 16. */
  function OpArg(m: nat, n: nat): Option<seq<byte>>
    requires m + 0x10 <= 0x100
  {
    if n < 0x10 then Some([m + n]) else if n < 0x100 then Some([m, n]) else None
  }

  /** `PutOpArg1`: the long form has its own opcode, 40B higher. */
  function OpArg1(m: nat, n: nat): Option<seq<byte>>
    requires m + 0x20 < 0x100
  {
    if n < 0x10 then Some([m + n]) else if n < 0x100 then Some([m + 0x20, n]) else None
  }

  /** The base address of the frame n levels out. */
  function BaseCode(n: nat): seq<byte> {
    if n == 1 then [0xE9] else [0xE8, n % 0x100]
  }

  /** `PutLd` for one word. */
  function VarCode(v: Var, lev: nat): Option<seq<byte>> {
    if v.lev == 0 then OpArg(0x40, v.adr)
    else if v.lev == lev then OpArg(0x20, v.adr)
    else if v.lev < lev then
      var c :- OpArg1(0x60, v.adr);
      Some(BaseCode(lev - v.lev) + c)
    else None
  }

  function LoadCode(x: Item, lev: nat): Option<seq<byte>> {
    match x
    case ConM(n, _) => Some(LitCode(n))
    case VarM(v) => VarCode(v, lev)
    case _ => Some([])
  }

  function Loaded(x: Item): Item {
    match x
    case ConM(n, t) => CldM(n, t)
    case CldM(_, _) => x
    case _ => ExpM(ItemTyp(x))
  }

  function Max(a: nat, b: nat): nat { if a >= b then a else b }

  /** `load` behind the code emitted so far. */
  function Force(f: Frag, lev: nat): Option<Frag> {
    var c :- LoadCode(f.x, lev);
    Some(Frag(f.code + c, Loaded(f.x), if Deferred(f.x) then Max(f.peak, 1) else f.peak))
  }

  /** `clog`: the odd part of x, and how often 2 divides x. */
  function OddPart(x: nat): nat {
    if x == 0 || x % 2 == 1 then x else OddPart(x / 2)
  }

  function Twos(x: nat): (n: nat)
    ensures n <= x
    ensures x > 0 ==> Pow2(n) <= x
  {
    if x == 0 || x % 2 == 1 then 0 else 1 + Twos(x / 2)
  }

  predicate PowerConst(x: Item) {
    x.ConM? && OddPart(x.val) == 1
  }

  function Opcode(op: Op, t: Typ): byte {
    match op
    case Times => if t == Int then 0xDA else 0xBA
    case Div => if t == Int then 0xDB else 0xBB
    case Mod => 0xBC
    case Plus => if t == Int then 0xD8 else 0xB8
    case Minus => if t == Int then 0xD9 else 0xB9
    case Eq => 0xC8
    case Ne => 0xC9
    case Lt => if t == Int then 0xCA else 0xAA
    case Le => if t == Int then 0xCB else 0xAB
    case Gt => if t == Int then 0xCC else 0xAC
    case Ge => if t == Int then 0xCD else 0xAD
  }

  /** The operand types `GenOp` accepts, after it has turned small constants into INTEGERs. */
  function OperandTyp(x: Item, y: Item): Option<Typ> {
    var tx, ty := ItemTyp(x), ItemTyp(y);
    if tx == ty then Some(tx)
    else if tx == Int && ty == Card && y.ConM? && y.val <= MAX_INT then Some(Int)
    else if tx == Card && ty == Int && (x.ConM? || x.CldM?) && x.val <= MAX_INT then Some(Int)
    else None
  }

  function Abs(i: int): nat { if i < 0 then -i else i }

  /** Constant folding, with the range tests of `GenOp`. Only `*` and `+` can meet two
      constants, since every other operator loads its left operand first. */
  function Fold(op: Op, t: Typ, a: word, b: word): Option<word> {
    var i, j := Signed(a), Signed(b);
    match (op, t)
    case (Times, Card) => if a == 0 || b <= MAX_CARD / a then Some(Wrap(a * b)) else None
    case (Times, Int) => if i == 0 || Abs(j) <= MAX_INT / Abs(i) then Some(Wrap(i * j)) else None
    case (Plus, Card) => if b <= MAX_CARD - a then Some(a + b) else None
    case (Plus, Int) =>
      if (i >= 0 && j <= MAX_INT - i) || (i < 0 && j >= MIN_INT - i) then Some(Wrap(i + j)) else None
    case _ => None
  }

  predicate OperatorTyped(op: Op, t: Typ) {
    Relation(op) || t == Card || (t == Int && op != Mod)
  }

  function ResultItem(op: Op, x: Item, t: Typ): Item {
    if Relation(op) then (match Loaded(x) case CldM(n, _) => CldM(n, Bool) case _ => ExpM(Bool))
    else (match Loaded(x) case CldM(n, _) => CldM(n, t) case _ => ExpM(t))
  }

  /** `GenOp` for operands f and h, emitted one behind the other. */
  function Combine(op: Op, f: Frag, h: Frag, lev: nat): Option<Frag> {
    var t :- OperandTyp(f.x, h.x);
    if !OperatorTyped(op, t) then None
    else if f.x.ConM? && h.x.ConM? then
      var n :- Fold(op, t, f.x.val, h.x.val);
      Some(Frag([], ConM(n, t), 0))
    else
      var both := f.code + h.code;
      if f.x.ConM? then
        var ly :- LoadCode(h.x, lev);
        if op == Times && PowerConst(f.x) then
          Some(Frag(both + ly + LitCode(Twos(f.x.val)) + [0xBE], ExpM(t), Max(h.peak, 2)))
        else
          Some(Frag(both + ly + LitCode(f.x.val) + [Opcode(op, t)],
                    ResultItem(op, f.x, t), Max(h.peak, 2)))
      else if op == Times && PowerConst(h.x) then
        Some(Frag(both + LitCode(Twos(h.x.val)) + [0xBE], ResultItem(op, f.x, t), Max(f.peak, 2)))
      else if op == Div && t == Card && PowerConst(h.x) then
        Some(Frag(both + LitCode(Twos(h.x.val)) + [0xBF], ResultItem(op, f.x, t), Max(f.peak, 2)))
      else if op == Mod && PowerConst(h.x) then
        Some(Frag(both + LitCode(Pow2(Twos(h.x.val)) - 1) + [0xD2],
                  ResultItem(op, f.x, t), Max(f.peak, 2)))
      else
        var ly :- LoadCode(h.x, lev);
        Some(Frag(both + ly + [Opcode(op, t)], ResultItem(op, f.x, t),
                  Max(f.peak, 1 + Max(h.peak, 1))))
  }

  /** Only the left operands of `*` and `+` stay deferred when they are constants. */
  predicate KeepsConst(op: Op, x: Item) {
    x.ConM? && (op == Times || op == Plus)
  }

  /** The operand byte of ANDJP and ORJP, as `fixupByte` stores it. */
  function Displacement(n: nat): byte {
    n % 0x100
  }

  function ShortCircuit(opc: byte, f: Frag, h: Frag, lev: nat): Option<Frag> {
    if ItemTyp(f.x) != Bool || ItemTyp(h.x) != Bool then None
    else
      var l :- Force(f, lev);
      var r :- Force(h, lev);
      Some(Frag(l.code + ([opc, Displacement(|r.code| + 1)] + r.code), ExpM(Bool), Max(l.peak, r.peak)))
  }

  function GenNot(f: Frag, lev: nat): Option<Frag> {
    if ItemTyp(f.x) != Bool then None
    else if f.x.ConM? then Some(f.(x := ConM(if f.x.val == 0 then 1 else 0, Bool)))
    else
      var l :- Force(f, lev);
      Some(l.(code := l.code + [0xD7]))
  }

  function GenNeg(f: Frag, lev: nat): Option<Frag> {
    if f.x.ConM? then
      if (f.x.typ == Int || (f.x.typ == Card && f.x.val <= MAX_INT)) && Signed(f.x.val) >= MIN_INT then
        Some(f.(x := ConM(Wrap(-Signed(f.x.val)), Int)))
      else None
    else
      var l :- Force(f, lev);
      match ItemTyp(f.x)
      case Int => Some(l.(code := l.code + [0xCF]))
      case Card => Some(l.(code := l.code + [0xC7, 0xCF]))
      case Bool => None
  }

  function GenExpr(e: Expr, lev: nat): Option<Frag> {
    match e
    case Num(n) => Some(Frag([], ConM(n, Card), 0))
    case Truth(b) => Some(Frag([], ConM(if b then 1 else 0, Bool), 0))
    case Ref(v) => Some(Frag([], VarM(v), 0))
    case Not(a) =>
      var f :- GenExpr(a, lev);
      GenNot(f, lev)
    case Negate(a) =>
      var f :- GenExpr(a, lev);
      GenNeg(f, lev)
    case And(l, r) =>
      var f :- GenExpr(l, lev);
      var h :- GenExpr(r, lev);
      ShortCircuit(0x1F, f, h, lev)
    case Or(l, r) =>
      var f :- GenExpr(l, lev);
      var h :- GenExpr(r, lev);
      ShortCircuit(0x1E, f, h, lev)
    case Bin(op, l, r) =>
      var f :- GenExpr(l, lev);
      var g :- if KeepsConst(op, f.x) then Some(f) else Force(f, lev);
      var h :- GenExpr(r, lev);
      Combine(op, g, h, lev)
  }

  /** An expression with its value forced onto the stack. */
  function GenLoaded(e: Expr, lev: nat): Option<Frag> {
    var f :- GenExpr(e, lev);
    Force(f, lev)
  }

  /** Every right operand of AND and OR is short enough for the byte-sized jump over it. */
  predicate ShortJumpsFit(e: Expr, lev: nat) {
    match e
    case Num(_) => true
    case Truth(_) => true
    case Ref(_) => true
    case Not(a) => ShortJumpsFit(a, lev)
    case Negate(a) => ShortJumpsFit(a, lev)
    case And(l, r) => ShortJumpsFit(l, lev) && ShortJumpsFit(r, lev) && RightFits(r, lev)
    case Or(l, r) => ShortJumpsFit(l, lev) && ShortJumpsFit(r, lev) && RightFits(r, lev)
    case Bin(_, l, r) => ShortJumpsFit(l, lev) && ShortJumpsFit(r, lev)
  }

  predicate RightFits(r: Expr, lev: nat) {
    match GenLoaded(r, lev)
    case Some(h) => |h.code| + 1 < 0x100
    case None => true
  }
}
