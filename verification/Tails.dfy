/** What each step of expression generation appends to the code emitted so far. */
module Tails {
  import opened Words
  import opened Options
  import opened Lang
  import opened ExprGen
  import opened StmtGen

  /** Words an operand has on the expression stack. */
  function Depth(x: Item): nat { if Deferred(x) then 0 else 1 }

  /** Appended code, the item left behind, and how far the stack grows meanwhile. */
  datatype Tail = Tail(code: seq<byte>, x: Item, peak: nat)

  function LoadTail(x: Item, lev: nat): Option<Tail> {
    var c :- LoadCode(x, lev);
    Some(Tail(c, Loaded(x), if Deferred(x) then 1 else 0))
  }

  function NotTail(x: Item, lev: nat): Option<Tail> {
    if ItemTyp(x) != Bool then None
    else if x.ConM? then Some(Tail([], ConM(if x.val == 0 then 1 else 0, Bool), 0))
    else
      var t :- LoadTail(x, lev);
      Some(Tail(t.code + [0xD7], t.x, t.peak))
  }

  function NegTail(x: Item, lev: nat): Option<Tail> {
    if x.ConM? then
      if (x.typ == Int || (x.typ == Card && x.val <= MAX_INT)) && Signed(x.val) >= MIN_INT then
        Some(Tail([], ConM(Wrap(0 - Signed(x.val)), Int), 0))
      else None
    else
      var t :- LoadTail(x, lev);
      match ItemTyp(x)
      case Int => Some(Tail(t.code + [0xCF], t.x, t.peak))
      case Card => Some(Tail(t.code + [0xC7, 0xCF], t.x, t.peak))
      case Bool => None
  }

  /** `GenOp` behind the code of both operands. */
  function OpTail(op: Op, x: Item, y: Item, lev: nat): Option<Tail> {
    var t :- OperandTyp(x, y);
    if !OperatorTyped(op, t) then None
    else if x.ConM? && y.ConM? then
      var n :- Fold(op, t, x.val, y.val);
      Some(Tail([], ConM(n, t), 0))
    else if x.ConM? then
      var ly :- LoadCode(y, lev);
      var grow := 1 + if Deferred(y) then 1 else 0;
      if op == Times && PowerConst(x) then Some(Tail(ly + LitCode(Twos(x.val)) + [0xBE], ExpM(t), grow))
      else Some(Tail(ly + LitCode(x.val) + [Opcode(op, t)], ResultItem(op, x, t), grow))
    else if op == Times && PowerConst(y) then
      Some(Tail(LitCode(Twos(y.val)) + [0xBE], ResultItem(op, x, t), 1))
    else if op == Div && t == Card && PowerConst(y) then
      Some(Tail(LitCode(Twos(y.val)) + [0xBF], ResultItem(op, x, t), 1))
    else if op == Mod && PowerConst(y) then
      Some(Tail(LitCode(Pow2(Twos(y.val)) - 1) + [0xD2], ResultItem(op, x, t), 1))
    else
      var ly :- LoadCode(y, lev);
      Some(Tail(ly + [Opcode(op, t)], ResultItem(op, x, t), if Deferred(y) then 1 else 0))
  }

  /** Operators replaced by a shift or a mask. */
  predicate Reduced(op: Op, t: Typ, x: Item, y: Item) {
    || (op == Times && (PowerConst(x) || PowerConst(y)))
    || (op == Div && t == Card && PowerConst(y))
    || (op == Mod && PowerConst(y))
  }

  /** Code of `load2`. */
  function Load2Code(x: Item, y: Item, lev: nat): Option<seq<byte>> {
    var c :- LoadCode(y, lev);
    Some(if x.ConM? then c + LitCode(x.val) else c)
  }

  function Load2Peak(x: Item, y: Item): nat {
    (if Deferred(y) then 1 else 0) + (if x.ConM? then 1 else 0)
  }

  function FoldTail(op: Op, t: Typ, x: Item, y: Item): Option<Tail>
    requires x.ConM? && y.ConM?
  {
    var n :- Fold(op, t, x.val, y.val);
    Some(Tail([], ConM(n, t), 0))
  }

  lemma {:induction false} FoldedTail(op: Op, x: Item, y: Item, lev: nat)
    ensures OperandTyp(x, y) == None || !OperatorTyped(op, OperandTyp(x, y).value) ==> OpTail(op, x, y, lev) == None
    ensures OperandTyp(x, y).Some? && OperatorTyped(op, OperandTyp(x, y).value) && x.ConM? && y.ConM? ==>
              OpTail(op, x, y, lev) == FoldTail(op, OperandTyp(x, y).value, x, y)
  {
    hide OperandTyp, OperatorTyped, Fold;
  }

  /** A constant power of two as left operand: the other operand, then a shift. */
  function SwappedShift(t: Typ, x: Item, y: Item, lev: nat): Option<Tail>
    requires x.ConM?
  {
    var c :- LoadCode(y, lev);
    Some(Tail(c + (LitCode(Twos(x.val)) + [0xBE]), ExpM(t), 1 + if Deferred(y) then 1 else 0))
  }

  lemma {:induction false} PowerTail(op: Op, x: Item, y: Item, lev: nat, t: Typ)
    requires OperandTyp(x, y) == Some(t) && OperatorTyped(op, t) && !(x.ConM? && y.ConM?) && op == Times
    ensures PowerConst(x) ==> OpTail(op, x, y, lev) == SwappedShift(t, x, y, lev)
    ensures !x.ConM? && PowerConst(y) ==>
              OpTail(op, x, y, lev) == Some(Tail(LitCode(Twos(y.val)) + [0xBE], ResultItem(op, x, t), 1))
  {
    hide LitCode, OddPart, Twos, VarCode, OperandTyp, Opcode, Pow2;
    if PowerConst(x) && LoadCode(y, lev).Some? {
      var c, n := LoadCode(y, lev).value, LitCode(Twos(x.val));
      assert c + n + [0xBE] == c + (n + [0xBE]);
    }
  }

  lemma {:induction false} PlainTail(op: Op, x: Item, y: Item, lev: nat, t: Typ)
    requires OperandTyp(x, y) == Some(t) && OperatorTyped(op, t) && !(x.ConM? && y.ConM?) && !Reduced(op, t, x, y)
    ensures OpTail(op, x, y, lev)
         == match Load2Code(x, y, lev)
            case None => None
            case Some(c) => Some(Tail(c + [Opcode(op, t)], ResultItem(op, x, t), Load2Peak(x, y)))
  {
    hide LitCode, OddPart, Twos, VarCode, OperandTyp, Opcode, Pow2;
  }

  /** AND and OR: the left operand loaded, and a jump whose displacement is still open. */
  function ShortTail(opc: byte, x: Item, lev: nat): Option<Tail> {
    if ItemTyp(x) != Bool then None
    else
      var t :- LoadTail(x, lev);
      Some(Tail(t.code + [opc, 0], t.x, t.peak))
  }

  /** The condition loaded, and a conditional jump forward. */
  function BranchTail(x: Item, lev: nat): Option<Tail> {
    if ItemTyp(x) != Bool then None
    else
      var t :- LoadTail(x, lev);
      Some(Tail(t.code + [0x18, 0, 0], t.x, t.peak))
  }

  /** The condition loaded, and a conditional jump back over it and n bytes before it. */
  function UntilTail(x: Item, n: int, lev: nat): Option<Tail> {
    if ItemTyp(x) != Bool then None
    else
      var t :- LoadTail(x, lev);
      Some(Tail(t.code + BackJump(0x1C, 0x18, if n >= 0 then n + |t.code| else 0), t.x, t.peak))
  }

  /** `CheckAssComp`: a value where one of type t is wanted. */
  function AssignTail(t: Typ, x: Item, lev: nat): Option<Tail> {
    var l :- LoadTail(x, lev);
    if ItemTyp(x) == t then Some(l)
    else if t == Bool || ItemTyp(x) == Bool then None
    else if !x.ConM? then Some(Tail(l.code + [0xC7], l.x, l.peak))
    else if x.val <= MAX_INT then Some(l)
    else None
  }

  /** `GenFor2`: the limit of a FOR. */
  function LimitTail(t: Typ, x: Item, lev: nat): Option<Tail> {
    var l :- LoadTail(x, lev);
    if ItemTyp(x) == t then Some(l)
    else if t != Bool && ItemTyp(x) != Bool then Some(Tail(l.code + [0xC7], l.x, l.peak))
    else None
  }

  /** `GenCase1`: the selector, and the jump through the table. */
  function SelectTail(x: Item, lev: nat): Option<Tail> {
    var t :- LoadTail(x, lev);
    Some(Tail(t.code + [0xC2, 0, 0], t.x, t.peak))
  }

  // ------------------------------------------- the same as the whole fragments

  /** Code f with a tail behind it. */
  function After(f: Frag, o: Option<Tail>): Option<Frag> {
    var t :- o;
    Some(Frag(f.code + t.code, t.x, Max(f.peak, Depth(f.x) + t.peak)))
  }

  /** Code f, then code h. */
  function Both(f: Frag, h: Frag): Frag {
    Frag(f.code + h.code, h.x, Max(f.peak, Depth(f.x) + h.peak))
  }

  /** Code f and h, and a tail behind both operands. */
  function AfterBoth(f: Frag, h: Frag, o: Option<Tail>): Option<Frag> {
    var t :- o;
    Some(Frag(f.code + h.code + t.code, t.x, Max(Both(f, h).peak, Depth(f.x) + Depth(h.x) + t.peak)))
  }

  predicate WellFormed(f: Frag) {
    if Deferred(f.x) then f.code == [] && f.peak == 0 else f.peak >= 1
  }

  lemma {:induction false} GenWellFormed(e: Expr, lev: nat)
    requires GenExpr(e, lev).Some?
    ensures WellFormed(GenExpr(e, lev).value)
  {
    hide GenNot, GenNeg, ShortCircuit, Combine, Force, WellFormed;
    match e
    case Num(n) => DeferredWell(ConM(n, Card));
    case Truth(b) => DeferredWell(ConM(if b then 1 else 0, Bool));
    case Ref(v) => DeferredWell(VarM(v));
    case Not(a) =>
      GenWellFormed(a, lev);
      UnaryWell(GenExpr(a, lev).value, lev);
    case Negate(a) =>
      GenWellFormed(a, lev);
      UnaryWell(GenExpr(a, lev).value, lev);
    case And(l, r) =>
      GenWellFormed(l, lev);
      GenWellFormed(r, lev);
      ShortWell(0x1F, GenExpr(l, lev).value, GenExpr(r, lev).value, lev);
    case Or(l, r) =>
      GenWellFormed(l, lev);
      GenWellFormed(r, lev);
      ShortWell(0x1E, GenExpr(l, lev).value, GenExpr(r, lev).value, lev);
    case Bin(op, l, r) =>
      GenWellFormed(l, lev);
      GenWellFormed(r, lev);
      var f := GenExpr(l, lev).value;
      ForcedWell(f, lev);
      CombineWell(op, if KeepsConst(op, f.x) then f else Force(f, lev).value, GenExpr(r, lev).value, lev);
  }

  lemma {:induction false} DeferredWell(x: Item)
    requires Deferred(x)
    ensures WellFormed(Frag([], x, 0))
  {
  }

  lemma {:induction false} ForcedWell(f: Frag, lev: nat)
    requires WellFormed(f)
    ensures Force(f, lev).Some? ==> WellFormed(Force(f, lev).value)
  {
    hide LoadCode;
  }

  lemma {:induction false} UnaryWell(f: Frag, lev: nat)
    requires WellFormed(f)
    ensures GenNot(f, lev).Some? ==> WellFormed(GenNot(f, lev).value)
    ensures GenNeg(f, lev).Some? ==> WellFormed(GenNeg(f, lev).value)
  {
    hide LoadCode;
  }

  lemma {:induction false} ShortWell(opc: byte, f: Frag, h: Frag, lev: nat)
    requires WellFormed(f) && WellFormed(h)
    ensures ShortCircuit(opc, f, h, lev).Some? ==> WellFormed(ShortCircuit(opc, f, h, lev).value)
  {
    hide LoadCode, Displacement;
  }

  lemma {:induction false} CombineWell(op: Op, f: Frag, h: Frag, lev: nat)
    requires WellFormed(f) && WellFormed(h)
    ensures Combine(op, f, h, lev).Some? ==> WellFormed(Combine(op, f, h, lev).value)
  {
    hide LoadCode, Fold, LitCode, Opcode, OddPart, Twos, OperandTyp, OperatorTyped, Pow2;
  }

  lemma {:induction false} ForceIsTail(f: Frag, lev: nat)
    requires WellFormed(f)
    ensures Force(f, lev) == After(f, LoadTail(f.x, lev))
    ensures Force(f, lev).Some? ==> WellFormed(Force(f, lev).value)
  {
  }

  lemma {:induction false} NotIsTail(f: Frag, lev: nat)
    requires WellFormed(f)
    ensures ExprGen.GenNot(f, lev) == After(f, NotTail(f.x, lev))
  {
    assert f.code + [] == f.code;
    if LoadTail(f.x, lev).Some? {
      assert f.code + LoadTail(f.x, lev).value.code + [0xD7] == f.code + (LoadTail(f.x, lev).value.code + [0xD7]);
    }
  }

  lemma {:induction false} NegIsTail(f: Frag, lev: nat)
    requires WellFormed(f)
    ensures ExprGen.GenNeg(f, lev) == After(f, NegTail(f.x, lev))
  {
    assert f.code + [] == f.code;
    if LoadTail(f.x, lev).Some? {
      var c := LoadTail(f.x, lev).value.code;
      assert f.code + c + [0xCF] == f.code + (c + [0xCF]);
      assert f.code + c + [0xC7, 0xCF] == f.code + (c + [0xC7, 0xCF]);
    }
  }

  lemma {:induction false} OpIsTail(op: Op, f: Frag, h: Frag, lev: nat)
    requires WellFormed(f) && WellFormed(h) && !f.x.VarM?
    ensures Combine(op, f, h, lev) == AfterBoth(f, h, OpTail(op, f.x, h.x, lev))
  {
    hide Combine, OpTail, AfterBoth, WellFormed, OperandTyp, OperatorTyped, Reduced;
    var t := OperandTyp(f.x, h.x);
    if t == None || !OperatorTyped(op, t.value) || (f.x.ConM? && h.x.ConM?) {
      FoldIsTail(op, f, h, lev);
    } else if f.x.ConM? {
      ConstIsTail(op, f, h, lev, t.value);
    } else if Reduced(op, t.value, f.x, h.x) {
      ReducedIsTail(op, f, h, lev, t.value);
    } else {
      PlainIsTail(op, f, h, lev, t.value);
    }
  }

  lemma {:induction false} FoldIsTail(op: Op, f: Frag, h: Frag, lev: nat)
    requires WellFormed(f) && WellFormed(h)
    requires OperandTyp(f.x, h.x) == None || !OperatorTyped(op, OperandTyp(f.x, h.x).value) || (f.x.ConM? && h.x.ConM?)
    ensures Combine(op, f, h, lev) == AfterBoth(f, h, OpTail(op, f.x, h.x, lev))
  {
    hide Fold, LitCode, Opcode, OperandTyp, OperatorTyped, Pow2, OddPart, Twos, LoadCode, ResultItem;
    assert f.x.ConM? && h.x.ConM? ==> f.code + h.code + [] == [];
  }

  lemma {:induction false} ConstIsTail(op: Op, f: Frag, h: Frag, lev: nat, t: Typ)
    requires OperandTyp(f.x, h.x) == Some(t) && OperatorTyped(op, t) && f.x.ConM? && !h.x.ConM? && WellFormed(f) && WellFormed(h)
    ensures Combine(op, f, h, lev) == AfterBoth(f, h, OpTail(op, f.x, h.x, lev))
  {
    hide Fold, LitCode, Opcode, OperandTyp, OperatorTyped, Pow2, OddPart, Twos, LoadCode, ResultItem;
    if LoadCode(h.x, lev).Some? {
      ThreeBehind(f.code + h.code, LoadCode(h.x, lev).value, LitCode(Twos(f.x.val)), [0xBE]);
      ThreeBehind(f.code + h.code, LoadCode(h.x, lev).value, LitCode(f.x.val), [Opcode(op, t)]);
    }
  }

  lemma {:induction false} ReducedIsTail(op: Op, f: Frag, h: Frag, lev: nat, t: Typ)
    requires OperandTyp(f.x, h.x) == Some(t) && OperatorTyped(op, t) && !f.x.ConM? && !f.x.VarM? && Reduced(op, t, f.x, h.x)
    requires WellFormed(f) && WellFormed(h)
    ensures Combine(op, f, h, lev) == AfterBoth(f, h, OpTail(op, f.x, h.x, lev))
  {
    hide Fold, LitCode, Opcode, OperandTyp, OperatorTyped, Pow2, OddPart, Twos, LoadCode, ResultItem;
    TwoBehind(f.code + h.code, LitCode(Twos(h.x.val)), [0xBE]);
    TwoBehind(f.code + h.code, LitCode(Twos(h.x.val)), [0xBF]);
    if op == Mod {
      MaskIsWord(h.x.val);
      TwoBehind(f.code + h.code, LitCode(Pow2(Twos(h.x.val)) - 1), [0xD2]);
    }
  }

  lemma {:induction false} MaskIsWord(x: word)
    requires OddPart(x) == 1
    ensures 0 <= Pow2(Twos(x)) - 1 < 0x1_0000
  {
    hide Twos, Pow2;
  }

  lemma {:induction false} PlainIsTail(op: Op, f: Frag, h: Frag, lev: nat, t: Typ)
    requires OperandTyp(f.x, h.x) == Some(t) && OperatorTyped(op, t) && !f.x.ConM? && !f.x.VarM? && !Reduced(op, t, f.x, h.x)
    requires WellFormed(f) && WellFormed(h)
    ensures Combine(op, f, h, lev) == AfterBoth(f, h, OpTail(op, f.x, h.x, lev))
  {
    hide Fold, LitCode, Opcode, OperandTyp, OperatorTyped, Pow2, OddPart, Twos, LoadCode, ResultItem;
    if LoadCode(h.x, lev).Some? {
      TwoBehind(f.code + h.code, LoadCode(h.x, lev).value, [Opcode(op, t)]);
    }
  }

  lemma {:induction false} TwoBehind(s: seq<byte>, a: seq<byte>, b: seq<byte>)
    ensures s + a + b == s + (a + b)
  {
  }

  lemma {:induction false} ThreeBehind(s: seq<byte>, a: seq<byte>, b: seq<byte>, c: seq<byte>)
    ensures s + a + b + c == s + (a + b + c)
  {
  }
}
