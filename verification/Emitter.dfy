/** The code generator at work: it appends bytes to a buffer, counts the words on the expression
    stack, and stores displacements into jumps emitted before. An index outside the buffer, which
    stops the compiler, and every reported error set `failed`. */
module Emitter {
  import opened Words
  import opened Options
  import opened Lang
  import opened ExprGen
  import opened StmtGen
  import opened Tails

  const CODE_LENGTH: nat := 12000

  /** How far code generation has come: the code so far and the words on the stack, or an error. */
  datatype Progress = Stopped | At(out: seq<byte>, sp: int)

  /** Code c appended, with d more words on the stack and at most `peak` more meanwhile, if there
      is room for both. */
  function Grow(a: Progress, c: seq<byte>, d: int, peak: int): (b: Progress)
    ensures b.At? ==> a.At? && |b.out| == |a.out| + |c| && b.sp == a.sp + d
  {
    if a.Stopped? || |a.out| + |c| > CODE_LENGTH || a.sp + peak > STACK_DEPTH then Stopped else At(a.out + c, a.sp + d)
  }

  lemma {:induction false} GrowTwice(a: Progress, c1: seq<byte>, d1: int, p1: int, c2: seq<byte>, d2: int, p2: int)
    ensures Grow(Grow(a, c1, d1, p1), c2, d2, p2) == Grow(a, c1 + c2, d1 + d2, if p1 >= d1 + p2 then p1 else d1 + p2)
  {
    if a.At? {
      assert a.out + c1 + c2 == a.out + (c1 + c2);
    }
  }

  /** A tail behind operands with d words on the stack. */
  function Tailed(a: Progress, o: Option<Tail>, d: int): (b: Progress)
    ensures b.At? ==> a.At? && |a.out| <= |b.out|
  {
    match o
    case None => Stopped
    case Some(t) => Grow(a, t.code, Depth(t.x) - d, t.peak)
  }

  /** A tail that takes the operand off the stack again: a jump on it. */
  function Opened(a: Progress, o: Option<Tail>, d: int): (b: Progress)
    ensures b.At? ==> a.At? && |a.out| <= |b.out|
  {
    match o
    case None => Stopped
    case Some(t) => Grow(a, t.code, 0 - d, t.peak)
  }

  /** A whole fragment. */
  function Fragged(a: Progress, o: Option<Frag>): (b: Progress)
    ensures b.At? ==> o.Some? && a.At? && |a.out| <= |b.out|
  {
    match o
    case None => Stopped
    case Some(f) => Grow(a, f.code, Depth(f.x), f.peak)
  }

  lemma {:induction false} TailedFrag(a: Progress, f: Frag, o: Option<Tail>)
    ensures Tailed(Fragged(a, Some(f)), o, Depth(f.x)) == Fragged(a, After(f, o))
  {
    if o.Some? {
      GrowTwice(a, f.code, Depth(f.x), f.peak, o.value.code, Depth(o.value.x) - Depth(f.x), o.value.peak);
    }
  }

  lemma {:induction false} TailedBoth(a: Progress, f: Frag, h: Frag, o: Option<Tail>)
    ensures Tailed(Fragged(Fragged(a, Some(f)), Some(h)), o, Depth(f.x) + Depth(h.x)) == Fragged(a, AfterBoth(f, h, o))
  {
    var both := Both(f, h);
    GrowTwice(a, f.code, Depth(f.x), f.peak, h.code, Depth(h.x), h.peak);
    if o.Some? {
      GrowTwice(a, both.code, Depth(f.x) + Depth(h.x), both.peak,
                o.value.code, Depth(o.value.x) - Depth(f.x) - Depth(h.x), o.value.peak);
    }
  }

  lemma {:induction false} Load2Grows(a: Progress, x: Item, y: Item, lev: nat)
    requires !x.VarM? && LoadTail(y, lev).Some?
    ensures LoadTail(x, lev).Some? && Load2Code(x, y, lev).Some?
    ensures Tailed(Tailed(a, LoadTail(y, lev), Depth(y)), LoadTail(x, lev), Depth(x))
         == Grow(a, Load2Code(x, y, lev).value, 2 - Depth(x) - Depth(y), Load2Peak(x, y))
  {
    var t, u := LoadTail(y, lev).value, LoadTail(x, lev).value;
    GrowTwice(a, t.code, 1 - Depth(y), t.peak, u.code, 1 - Depth(x), u.peak);
    assert !x.ConM? ==> t.code + u.code == t.code;
  }

  function Zeros(n: nat): (s: seq<byte>)
    ensures |s| == n
    ensures n == 1 ==> s == [0]
    ensures n == 2 ==> s == [0, 0]
  {
    seq(n, _ => 0)
  }

  /** An operand loaded, and a jump on it. */
  lemma {:induction false} JumpGrows(a: Progress, x: Item, lev: nat, jump: seq<byte>)
    ensures LoadTail(x, lev).Some? ==>
              var t := LoadTail(x, lev).value;
              Grow(Tailed(a, Some(t), Depth(x)), jump, -1, 0) == Grow(a, t.code + jump, 0 - Depth(x), t.peak)
  {
    if LoadTail(x, lev).Some? {
      var t := LoadTail(x, lev).value;
      GrowTwice(a, t.code, Depth(t.x) - Depth(x), t.peak, jump, -1, 0);
    }
  }

  /** A tail, and INEG or CHKS INEG behind it. */
  lemma {:induction false} NegGrows(a: Progress, x: Item, lev: nat, t: Tail)
    requires LoadTail(x, lev) == Some(t)
    ensures var b := Tailed(a, Some(t), Depth(x));
            && Grow(b, [0xCF], 0, 0) == Tailed(a, Some(Tail(t.code + [0xCF], t.x, t.peak)), Depth(x))
            && Grow(Grow(b, [0xC7], 0, 0), [0xCF], 0, 0) == Tailed(a, Some(Tail(t.code + [0xC7, 0xCF], t.x, t.peak)), Depth(x))
  {
    var d := Depth(t.x) - Depth(x);
    GrowTwice(a, t.code, d, t.peak, [0xCF], 0, 0);
    GrowTwice(a, t.code, d, t.peak, [0xC7], 0, 0);
    GrowTwice(a, t.code + [0xC7], d, t.peak, [0xCF], 0, 0);
    assert t.code + [0xC7] + [0xCF] == t.code + [0xC7, 0xCF];
  }

  /** A constant is loaded when there is room for its code and for one more word. */
  lemma {:induction false} ConstGrows(a: Progress, x: Item, lev: nat)
    requires x.ConM?
    ensures Tailed(a, LoadTail(x, lev), Depth(x)).Stopped? <==>
              a.Stopped? || |a.out| + |LitCode(x.val)| > CODE_LENGTH || a.sp + 1 > STACK_DEPTH
  {
    hide LitCode;
  }

  /** Two loaded operands and an operator. */
  lemma {:induction false} PlainGrows(a: Progress, op: Op, x: Item, y: Item, t: Typ, c: seq<byte>, opc: byte)
    requires !x.VarM? && !(x.ConM? && y.ConM?)
    ensures Grow(Grow(a, c, 2 - Depth(x) - Depth(y), Load2Peak(x, y)), [opc], -1, 0)
         == Tailed(a, Some(Tail(c + [opc], ResultItem(op, x, t), Load2Peak(x, y))), Depth(x) + Depth(y))
  {
    GrowTwice(a, c, 2 - Depth(x) - Depth(y), Load2Peak(x, y), [opc], -1, 0);
    hide Grow;
  }

  lemma {:induction false} ResultVisible(op: Op, x: Item, t: Typ, lev: nat)
    ensures ResultItem(op, x, t).VarM? ==> ResultItem(op, x, t).v.lev <= lev
  {
  }

  /** A jump back, in both forms. */
  lemma {:induction false} BackGrows(a: Progress, near: byte, d: byte, far: byte, w: word, s: int)
    requires s <= 0 && (a.At? ==> a.sp <= STACK_DEPTH)
    ensures Grow(Grow(a, [near], s, s), [d], 0, 0) == Grow(a, [near, d], s, 0)
    ensures Grow(Grow(a, [far], s, s), Bytes(w), 0, 0) == Grow(a, [far] + Bytes(w), s, 0)
  {
    GrowTwice(a, [near], s, s, [d], 0, 0);
    GrowTwice(a, [far], s, s, Bytes(w), 0, 0);
    assert [near] + [d] == [near, d];
    hide Bytes;
  }

  /** FOR1 with its direction and a hole. */
  lemma {:induction false} HeadGrows(a: Progress, b: byte)
    requires a.At? ==> a.sp <= STACK_DEPTH
    ensures Grow(Grow(Grow(a, [0xC0], -3, -3), [b], 0, 0), Bytes(0), 0, 0) == Grow(a, [0xC0, b] + [0, 0], -3, 0)
  {
    GrowTwice(a, [0xC0], -3, -3, [b], 0, 0);
    assert [0xC0] + [b] == [0xC0, b] && Bytes(0) == [0, 0];
    GrowTwice(a, [0xC0, b], -3, -3, [0, 0], 0, 0);
  }

  /** FOR2 with its step and the jump back. */
  lemma {:induction false} ForBackGrows(a: Progress, b: byte, w: word)
    ensures Grow(Grow(Grow(a, [0xC1], 0, 0), [b], 0, 0), Bytes(w), 0, 0) == Grow(a, [0xC1, b] + Bytes(w), 0, 0)
  {
    hide Bytes;
    GrowTwice(a, [0xC1], 0, 0, [b], 0, 0);
    assert [0xC1] + [b] == [0xC1, b];
    GrowTwice(a, [0xC1, b], 0, 0, Bytes(w), 0, 0);
  }

  class Generator {
    const code: array<byte>
    const curLev: nat
    var pc: nat
    var sp: int
    var exp: nat
    var failed: bool

    ghost predicate Valid()
      reads this
    {
      code.Length == CODE_LENGTH && pc <= CODE_LENGTH && (!failed ==> sp <= STACK_DEPTH)
    }

    ghost function Out(): seq<byte>
      requires Valid()
      reads this, code
    {
      code[..pc]
    }

    ghost function Now(): Progress
      requires Valid()
      reads this, code
    {
      if failed then Stopped else At(Out(), sp)
    }

    /** Bytes c have been appended, leaving d more words on the stack and at most `peak` more
        meanwhile; or there was no room for one or the other. */
    twostate predicate Appended(c: seq<byte>, d: int, peak: int)
      requires old(Valid())
      reads this, code
    {
      Valid() && Now() == Grow(old(Now()), c, d, peak)
    }

    /** A tail has been appended behind operands with d words on the stack, or reported an error. */
    twostate predicate Gave(o: Option<Tail>, d: int, y: Item)
      requires old(Valid())
      reads this, code
    {
      Valid() && Now() == Tailed(old(Now()), o, d) && (!failed ==> o.Some? && y == o.value.x)
    }

    constructor (level: nat)
      ensures Valid() && !failed && Out() == [] && sp == 0 && curLev == level && fresh(code)
    {
      code := new byte[CODE_LENGTH];
      curLev := level;
      pc, sp, exp, failed := 0, 0, 0, false;
    }

    method Err()
      requires Valid()
      modifies this`failed
      ensures Valid() && failed
    {
      failed := true;
    }

    // -------------------------------------------------------- single bytes

    method PutByte(n: byte)
      requires Valid()
      modifies this`pc, this`failed, code
      ensures Appended([n], 0, 0)
    {
      if pc < CODE_LENGTH {
        code[pc] := n;
        pc := pc + 1;
      } else {
        failed := true;
      }
    }

    method PutWord(n: word)
      requires Valid()
      modifies this`pc, this`failed, code
      ensures Appended(Bytes(n), 0, 0)
    {
      PutByte(n / 0x100);
      PutByte(n % 0x100);
    }

    method PutOp(n: byte, s: int)
      requires Valid()
      modifies this`pc, this`sp, this`failed, code
      ensures Appended([n], s, s)
    {
      PutByte(n);
      sp := sp + s;
      if sp > STACK_DEPTH {
        failed := true;
      }
    }

    method PutOpZ(n: byte)
      requires Valid()
      modifies this`pc, this`failed, code
      ensures Appended([n], 0, 0)
    {
      PutByte(n);
    }

    method PutOpU(n: byte)
      requires Valid()
      modifies this`pc, this`sp, this`failed, code
      ensures Appended([n], 1, 1)
    {
      PutOp(n, 1);
    }

    method PutOpD(n: byte)
      requires Valid()
      modifies this`pc, this`sp, this`failed, code
      ensures Appended([n], -1, 0)
    {
      PutByte(n);
      sp := sp - 1;
    }

    method PutOpArg(m: byte, n: nat, s: int)
      requires Valid() && m + 0x10 <= 0x100
      modifies this`pc, this`sp, this`failed, code
      ensures match OpArg(m, n) case None => Valid() && failed case Some(c) => Appended(c, s, s)
    {
      sp := sp + s;
      if sp > STACK_DEPTH {
        failed := true;
      }
      if n < 0x10 {
        PutByte(m + n);
      } else if n < 0x100 {
        PutByte(m);
        PutByte(n);
      } else {
        failed := true;
      }
    }

    method PutOpArg1(m: byte, n: nat, s: int)
      requires Valid() && m + 0x20 < 0x100
      modifies this`pc, this`sp, this`failed, code
      ensures match OpArg1(m, n) case None => Valid() && failed case Some(c) => Appended(c, s, s)
    {
      sp := sp + s;
      if sp > STACK_DEPTH {
        failed := true;
      }
      if n < 0x10 {
        PutByte(m + n);
      } else if n < 0x100 {
        PutByte(m + 0x20);
        PutByte(n);
      } else {
        failed := true;
      }
    }

    method PutLit(n: word)
      requires Valid()
      modifies this`pc, this`sp, this`failed, code
      ensures Appended(LitCode(n), 1, 1)
    {
      if n < 0x10 {
        PutOpU(n);
      } else if n < 0x100 {
        PutOpU(0x10);
        PutByte(n);
      } else if n == 0xFFFF {
        PutOpU(0xD5);
      } else {
        PutOpU(0x12);
        PutWord(n);
      }
    }

    /** GB1 or GB: the frame n levels out. */
    method PutBase(n: nat)
      requires Valid()
      modifies this`pc, this`sp, this`failed, code
      ensures Appended(BaseCode(n), 1, 1)
    {
      if n == 1 {
        PutOpU(0xE9);
      } else {
        PutOpU(0xE8);
        PutByte(n % 0x100);
      }
    }

    method PutLd(v: Var)
      requires Valid() && v.lev <= curLev
      modifies this`pc, this`sp, this`failed, code
      ensures match VarCode(v, curLev) case None => Valid() && failed case Some(c) => Appended(c, 1, 1)
    {
      if v.lev == 0 {
        PutOpArg(0x40, v.adr, 1);
      } else if v.lev == curLev {
        PutOpArg(0x20, v.adr, 1);
      } else {
        PutBase(curLev - v.lev);
        PutOpArg1(0x60, v.adr, 0);
      }
    }

    // ----------------------------------------------------------- operands

    predicate Visible(x: Item) {
      x.VarM? ==> x.v.lev <= curLev
    }

    method Load(x: Item) returns (y: Item)
      requires Valid() && Visible(x)
      modifies this`pc, this`sp, this`failed, code
      ensures Gave(LoadTail(x, curLev), Depth(x), y) && y == Loaded(x)
    {
      match x {
        case ConM(n, t) =>
          PutLit(n);
          y := CldM(n, t);
        case VarM(v) =>
          PutLd(v);
          y := ExpM(v.typ);
        case _ =>
          y := x;
      }
    }

    method GenNot(x: Item) returns (y: Item)
      requires Valid() && Visible(x)
      modifies this`pc, this`sp, this`failed, code
      ensures Gave(NotTail(x, curLev), Depth(x), y) && Visible(y)
    {
      y := x;
      if ItemTyp(x) != Bool {
        Err();
      } else if x.ConM? {
        y := ConM(if x.val == 0 then 1 else 0, Bool);
      } else {
        y := Load(x);
        PutOpZ(0xD7);
      }
    }

    method GenNeg(x: Item) returns (y: Item)
      requires Valid() && Visible(x)
      modifies this`pc, this`sp, this`failed, code
      ensures Gave(NegTail(x, curLev), Depth(x), y) && Visible(y)
    {
      hide LoadCode;
      y := x;
      if x.ConM? {
        if x.typ == Int || (x.typ == Card && x.val <= MAX_INT) {
          if Signed(x.val) >= MIN_INT {
            y := ConM(Wrap(0 - Signed(x.val)), Int);
          } else {
            Err();
          }
        } else {
          Err();
        }
      } else {
        y := NegLoaded(x);
      }
    }

    method NegLoaded(x: Item) returns (y: Item)
      requires Valid() && Visible(x) && !x.ConM?
      modifies this`pc, this`sp, this`failed, code
      ensures Gave(NegTail(x, curLev), Depth(x), y) && Visible(y)
    {
      hide LoadTail, Grow;
      ghost var a := Now();
      if LoadTail(x, curLev).Some? {
        NegGrows(a, x, curLev, LoadTail(x, curLev).value);
      }
      y := Load(x);
      match ItemTyp(x) {
        case Int => PutOpZ(0xCF);
        case Card => PutOpZ(0xC7); PutOpZ(0xCF);
        case Bool => Err();
      }
    }

    /** The odd part of x; how often 2 divides it is left in `exp`. */
    method Clog(x: word) returns (r: word)
      requires Valid()
      modifies this`exp
      ensures Valid() && r == OddPart(x) && exp == Twos(x)
    {
      r := x;
      exp := 0;
      if r > 0 {
        while r % 2 == 0
          invariant 0 < r <= x && Valid() && OddPart(r) == OddPart(x) && exp + Twos(r) == Twos(x)
          decreases r
        {
          r := r / 2;
          exp := exp + 1;
        }
      }
    }

    /** Whether x is a constant power of two; then `exp` is its exponent. */
    method PowerOfTwo(x: Item) returns (b: bool)
      requires Valid()
      modifies this`exp
      ensures Valid() && b == PowerConst(x) && (b ==> exp == Twos(x.val))
    {
      b := false;
      if x.ConM? {
        var r := Clog(x.val);
        b := r == 1;
      }
    }

    /** `load2`: a constant left operand is loaded behind the right one. */
    method Load2(x: Item, y: Item) returns (r: Item)
      requires Valid() && Visible(y) && !x.VarM?
      modifies this`pc, this`sp, this`failed, code
      ensures match Load2Code(x, y, curLev)
              case None => Valid() && failed
              case Some(c) => Appended(c, 2 - Depth(x) - Depth(y), Load2Peak(x, y))
      ensures r == Loaded(x)
    {
      hide LitCode, VarCode, LoadCode, Grow;
      ghost var a := Now();
      var z := Load(y);
      r := Load(x);
      if LoadTail(y, curLev).Some? {
        Load2Grows(a, x, y, curLev);
      }
    }

    /** `GenOp` for the arithmetic and relational operators. */
    method GenOp(op: Op, x: Item, y: Item) returns (r: Item)
      requires Valid() && Visible(y) && !x.VarM? && (x.ConM? ==> op == Times || op == Plus)
      modifies this`pc, this`sp, this`failed, this`exp, code
      ensures Gave(OpTail(op, x, y, curLev), Depth(x) + Depth(y), r) && Visible(r)
    {
      hide Fold, OpTail, Appended, Out, OperandTyp, OddPart, Twos;
      FoldedTail(op, x, y, curLev);
      r := x;
      var typ := OperandTyp(x, y);
      if typ == None || !OperatorTyped(op, typ.value) {
        Err();
      } else if x.ConM? && y.ConM? {
        r := FoldConstants(op, typ.value, x, y);
      } else {
        match op {
          case Times => r := GenTimes(typ.value, x, y);
          case Div => r := GenDiv(typ.value, x, y);
          case Mod => r := GenMod(typ.value, x, y);
          case _ => r := GenPlain(op, typ.value, x, y);
        }
      }
    }

    method FoldConstants(op: Op, t: Typ, x: Item, y: Item) returns (r: Item)
      requires Valid() && x.ConM? && y.ConM?
      modifies this`failed
      ensures match Fold(op, t, x.val, y.val)
              case None => Valid() && failed
              case Some(n) => Gave(Some(Tail([], ConM(n, t), 0)), 0, r)
      ensures Visible(r)
    {
      r := x;
      var a, b, i, j := x.val, y.val, Signed(x.val), Signed(y.val);
      if op == Times && t == Card {
        if a == 0 || b <= MAX_CARD / a {
          r := ConM(Wrap(a * b), t);
        } else {
          Err();
        }
      } else if op == Times && t == Int {
        if i == 0 || Abs(j) <= MAX_INT / Abs(i) {
          r := ConM(Wrap(i * j), t);
        } else {
          Err();
        }
      } else if op == Plus && t == Card {
        if b <= MAX_CARD - a {
          r := ConM(a + b, t);
        } else {
          Err();
        }
      } else if op == Plus && t == Int {
        if (i >= 0 && j <= MAX_INT - i) || (i < 0 && j >= MIN_INT - i) {
          r := ConM(Wrap(i + j), t);
        } else {
          Err();
        }
      } else {
        Err();
      }
    }

    method GenPlain(op: Op, t: Typ, x: Item, y: Item) returns (r: Item)
      requires Valid() && Visible(y) && !x.VarM? && OperandTyp(x, y) == Some(t) && OperatorTyped(op, t)
      requires !(x.ConM? && y.ConM?) && !Reduced(op, t, x, y)
      modifies this`pc, this`sp, this`failed, code
      ensures Gave(OpTail(op, x, y, curLev), Depth(x) + Depth(y), r) && Visible(r)
    {
      hide OperandTyp, Reduced, Opcode, OpTail, LoadCode, Load2Code, Load2Peak, Grow, ResultItem, Depth, Loaded;
      PlainTail(op, x, y, curLev, t);
      if Load2Code(x, y, curLev).Some? {
        PlainGrows(Now(), op, x, y, t, Load2Code(x, y, curLev).value, Opcode(op, t));
      }
      ResultVisible(op, x, t, curLev);
      var z := Load2(x, y);
      PutOpD(Opcode(op, t));
      r := ResultItem(op, x, t);
    }

    /** A literal and the operation on it. */
    method PutLitOp(n: word, opc: byte)
      requires Valid()
      modifies this`pc, this`sp, this`failed, code
      ensures Appended(LitCode(n) + [opc], 0, 1)
    {
      hide LitCode;
      PutLit(n);
      PutOpD(opc);
    }

    method GenTimes(t: Typ, x: Item, y: Item) returns (r: Item)
      requires Valid() && Visible(y) && !x.VarM? && OperandTyp(x, y) == Some(t) && OperatorTyped(Times, t)
      requires !(x.ConM? && y.ConM?)
      modifies this`pc, this`sp, this`failed, this`exp, code
      ensures Gave(OpTail(Times, x, y, curLev), Depth(x) + Depth(y), r) && Visible(r)
    {
      hide LitCode, OddPart, Twos, LoadCode, OperandTyp, OpTail, Grow, Pow2;
      PowerTail(Times, x, y, curLev, t);
      ghost var a := Now();
      var power := PowerOfTwo(x);
      if power {
        var z := Load(y);
        PutLitOp(exp, 0xBE);
        if LoadCode(y, curLev).Some? {
          GrowTwice(a, LoadCode(y, curLev).value, 1 - Depth(y), if Deferred(y) then 1 else 0,
                    LitCode(Twos(x.val)) + [0xBE], 0, 1);
        }
        r := ExpM(t);
      } else {
        power := PowerOfTwo(y);
        if power {
          PutLitOp(exp, 0xBE);
          r := ResultItem(Times, x, t);
        } else {
          r := GenPlain(Times, t, x, y);
        }
      }
    }

    method GenDiv(t: Typ, x: Item, y: Item) returns (r: Item)
      requires Valid() && Visible(y) && !Deferred(x) && OperandTyp(x, y) == Some(t) && OperatorTyped(Div, t)
      modifies this`pc, this`sp, this`failed, this`exp, code
      ensures Gave(OpTail(Div, x, y, curLev), Depth(x) + Depth(y), r) && Visible(r)
    {
      hide LitCode, OddPart, Twos, VarCode, OperandTyp, Load2Code;
      var power := false;
      if t == Card {
        power := PowerOfTwo(y);
      }
      if power {
        PutLitOp(exp, 0xBF);
        r := ResultItem(Div, x, t);
      } else {
        r := GenPlain(Div, t, x, y);
      }
    }

    method GenMod(t: Typ, x: Item, y: Item) returns (r: Item)
      requires Valid() && Visible(y) && !Deferred(x) && OperandTyp(x, y) == Some(t) && OperatorTyped(Mod, t)
      modifies this`pc, this`sp, this`failed, this`exp, code
      ensures Gave(OpTail(Mod, x, y, curLev), Depth(x) + Depth(y), r) && Visible(r)
    {
      hide LitCode, OddPart, Twos, VarCode, OperandTyp, Load2Code;
      var power := PowerOfTwo(y);
      if power {
        PutLitOp(Pow2(exp) - 1, 0xD2);
        r := ResultItem(Mod, x, t);
      } else {
        r := GenPlain(Mod, t, x, y);
      }
    }

    // -------------------------------------------------------------- jumps

    /** Store the distance from loc to here in the byte at loc. */
    method FixupByte(loc: nat)
      requires Valid() && (!failed ==> loc < pc)
      modifies this`failed, code
      ensures Valid() && Now() == PatchedByte(old(Now()), loc)
    {
      if loc < CODE_LENGTH {
        code[loc] := (pc - loc) % 0x100;
      } else {
        failed := true;
      }
    }

    /** Store the distance from loc to here in the word at loc. */
    method Fixup(loc: nat)
      requires Valid() && (!failed ==> loc + 1 < pc)
      modifies this`failed, code
      ensures Valid() && pc == old(pc) && Now() == Patched(old(Now()), loc)
    {
      hide Patch;
      if !failed {
        PatchIs(Out(), loc, pc - loc);
      }
      if loc + 1 < CODE_LENGTH {
        code[loc] := ((pc - loc) / 0x100) % 0x100;
        code[loc + 1] := (pc - loc) % 0x100;
        assert !failed ==> Out() == old(Out())[loc := code[loc]][loc + 1 := code[loc + 1]];
      } else {
        failed := true;
      }
    }

    /** An opcode and n bytes that are stored later, at loc. */
    method PutJump(opc: byte, n: nat, s: int) returns (loc: nat)
      requires Valid() && (n == 1 || n == 2) && s <= 0
      modifies this`pc, this`sp, this`failed, code
      ensures Appended([opc] + Zeros(n), s, 0) && (!failed ==> loc + n == pc)
    {
      PutOp(opc, s);
      loc := pc;
      if n == 1 {
        PutByte(0);
      } else {
        PutWord(0);
      }
    }

    /** ANDJP or ORJP behind the left operand; loc is where the displacement goes. */
    method GenShort(opc: byte, x: Item) returns (loc: nat)
      requires Valid() && Visible(x)
      modifies this`pc, this`sp, this`failed, code
      ensures Valid() && Now() == Opened(old(Now()), ShortTail(opc, x, curLev), Depth(x))
      ensures !failed ==> loc + 1 == pc
    {
      hide LoadTail, Grow;
      ghost var a := Now();
      if ItemTyp(x) != Bool {
        Err();
      }
      var y := Load(x);
      loc := PutJump(opc, 1, -1);
      assert [opc] + Zeros(1) == [opc, 0];
      JumpGrows(a, x, curLev, [opc, 0]);
    }

    method GenFJ() returns (loc: nat)
      requires Valid()
      modifies this`pc, this`sp, this`failed, code
      ensures Appended([0x19, 0, 0], 0, 0) && (!failed ==> loc + 2 == pc)
    {
      loc := PutJump(0x19, 2, 0);
    }

    method GenCFJ(x: Item) returns (loc: nat)
      requires Valid() && Visible(x)
      modifies this`pc, this`sp, this`failed, code
      ensures Valid() && Now() == Opened(old(Now()), BranchTail(x, curLev), Depth(x))
      ensures !failed ==> loc + 2 == pc
    {
      hide LoadTail, Grow;
      ghost var a := Now();
      if ItemTyp(x) != Bool {
        Err();
      }
      var y := Load(x);
      loc := PutJump(0x18, 2, -1);
      assert [0x18] + Zeros(2) == [0x18, 0, 0];
      JumpGrows(a, x, curLev, [0x18, 0, 0]);
    }

    // --------------------------------------------- values, variables, FOR, CASE

    /** A loaded value, tested by CHKS. */
    method LoadChecked(x: Item) returns (y: Item)
      requires Valid() && Visible(x)
      modifies this`pc, this`sp, this`failed, code
      ensures Valid() && y == Loaded(x)
      ensures Now() == match LoadTail(x, curLev)
                       case None => Stopped
                       case Some(t) => Grow(old(Now()), t.code + [0xC7], 1 - Depth(x), t.peak)
    {
      hide LoadCode, Grow;
      ghost var a := Now();
      y := Load(x);
      PutOpZ(0xC7);
      if LoadTail(x, curLev).Some? {
        var t := LoadTail(x, curLev).value;
        GrowTwice(a, t.code, 1 - Depth(x), t.peak, [0xC7], 0, 0);
      }
    }

    /** `CheckAssComp` for one-word types, with range checks on. */
    method CheckAssComp(t: Typ, x: Item) returns (y: Item)
      requires Valid() && Visible(x)
      modifies this`pc, this`sp, this`failed, code
      ensures Gave(AssignTail(t, x, curLev), Depth(x), y)
      ensures x.ConM? && !old(failed) && (x.typ == t || (x.typ != Bool && t != Bool)) ==>
                (failed <==> (x.typ != t && x.val > MAX_INT) || old(pc) + |LitCode(x.val)| > CODE_LENGTH || old(sp) == STACK_DEPTH)
    {
      if x.ConM? {
        ConstGrows(Now(), x, curLev);
      }
      hide Grow, LitCode;
      if ItemTyp(x) == t {
        y := Load(x);
      } else if t == Bool || ItemTyp(x) == Bool {
        y := x;
        Err();
      } else if x.ConM? {
        y := Load(x);
        if x.val > MAX_INT {
          Err();
        }
      } else {
        y := LoadChecked(x);
      }
    }

    /** `GenFor2`; the mode has just been changed by `load`, so that constants are tested, too. */
    method GenFor2(t: Typ, x: Item) returns (y: Item)
      requires Valid() && Visible(x)
      modifies this`pc, this`sp, this`failed, code
      ensures Gave(LimitTail(t, x, curLev), Depth(x), y)
    {
      hide Grow;
      if ItemTyp(x) == t {
        y := Load(x);
      } else if t != Bool && ItemTyp(x) != Bool {
        y := LoadChecked(x);
      } else {
        y := x;
        Err();
      }
    }

    /** `GenCase1`: the selector and ENTC; loc is where the way to the table is stored. */
    method GenCase1(x: Item) returns (loc: nat)
      requires Valid() && Visible(x)
      modifies this`pc, this`sp, this`failed, code
      ensures Valid() && Now() == Opened(old(Now()), SelectTail(x, curLev), Depth(x))
      ensures !failed ==> loc + 2 == pc
    {
      hide LoadTail, Grow;
      ghost var a := Now();
      var y := Load(x);
      loc := PutJump(0xC2, 2, -1);
      assert [0xC2] + Zeros(2) == [0xC2, 0, 0];
      JumpGrows(a, x, curLev, [0xC2, 0, 0]);
    }

    /** `PutSto` for a variable of this procedure or of the module. */
    method PutSto(v: Var)
      requires Valid() && (v.lev == 0 || v.lev == curLev)
      modifies this`pc, this`sp, this`failed, code
      ensures match OpArg(if v.lev == 0 then 0x50 else 0x30, v.adr)
              case None => Valid() && failed
              case Some(c) => Appended(c, -1, -1)
    {
      if v.lev == 0 {
        PutOpArg(0x50, v.adr, -1);
      } else {
        PutOpArg(0x30, v.adr, -1);
      }
    }

    /** `loadAdr` of a one-word variable. */
    method LoadAdr(v: Var)
      requires Valid() && v.lev <= curLev
      modifies this`pc, this`sp, this`failed, code
      ensures AddressCode(v, curLev).Some? && Appended(AddressCode(v, curLev).value, 1, 1)
    {
      hide BaseCode;
      if v.lev == 0 {
        PutOpU(0x15);
        PutByte(v.adr % 0x100);
      } else if v.lev == curLev {
        PutOpU(0x14);
        PutByte(v.adr % 0x100);
      } else {
        hide BaseCode;
        PutBase(curLev - v.lev);
        PutOpZ(0x16);
        PutByte(v.adr % 0x100);
      }
    }

    /** `GenFor3`: FOR1, its direction, and the open way to the end. */
    method GenFor3(step: int) returns (loc: nat)
      requires Valid()
      modifies this`pc, this`sp, this`failed, code
      ensures if step == 0 then Valid() && failed
              else Appended([0xC0, if step > 0 then 0 else 1] + [0, 0], -3, 0)
      ensures !failed ==> loc + 2 == pc
    {
      hide Bytes, Grow;
      HeadGrows(Now(), if step > 0 then 0 else 1);
      PutOp(0xC0, -3);
      if step > 0 {
        PutByte(0);
      } else if step < 0 {
        PutByte(1);
      } else {
        Err();
      }
      loc := pc;
      PutWord(0);
    }

    /** `GenFor4`: FOR2 and the way back to the body, which starts at `body`; then the way from
        FOR1 to this place. */
    method GenFor4(step: int, loc: nat, body: nat)
      requires Valid() && (!failed ==> loc + 1 < pc && body <= pc)
      modifies this`pc, this`failed, code
      ensures Valid() && (old(failed) ==> failed)
      ensures !old(failed) ==> Now() == Patched(Grow(old(Now()), ForBack(step, old(pc) - body), 0, 0), loc)
    {
      hide Bytes, Wrap, Grow, Patched;
      ForBackGrows(Now(), step % 0x100, Wrap(body - pc - 2));
      PutOpZ(0xC1);
      PutByte(step % 0x100);
      PutWord(Wrap(body - pc));
      Fixup(loc);
    }

    /** `GenTrap`. */
    method GenTrap(n: word)
      requires Valid()
      modifies this`pc, this`sp, this`failed, code
      ensures Appended(LitCode(n) + [0xC4], 0, 1)
    {
      PutLitOp(n, 0xC4);
    }

    /** A jump back to loc, in its short form when the distance fits a byte. */
    method PutBack(near: byte, far: byte, loc: nat, s: int)
      requires Valid() && (!failed ==> loc <= pc) && s <= 0
      modifies this`pc, this`sp, this`failed, code
      ensures Valid() && (old(failed) ==> failed)
      ensures !old(failed) ==> Appended(BackJump(near, far, old(pc) - loc), s, 0)
    {
      hide Bytes, Wrap, Grow;
      BackGrows(Now(), near, (pc + 1 - loc) % 0x100, far, Wrap(loc - pc - 1), s);
      if pc < loc + 0xFF {
        PutOp(near, s);
        PutByte((pc - loc) % 0x100);
      } else {
        PutOp(far, s);
        PutWord(Wrap(loc - pc));
      }
    }

    method GenBJ(loc: nat)
      requires Valid() && (!failed ==> loc <= pc)
      modifies this`pc, this`sp, this`failed, code
      ensures Valid() && (old(failed) ==> failed)
      ensures !old(failed) ==> Appended(BackJump(0x1D, 0x19, old(pc) - loc), 0, 0)
    {
      PutBack(0x1D, 0x19, loc, 0);
    }

    /** The condition loaded, and a conditional jump back to loc. */
    method GenCBJ(x: Item, loc: nat)
      requires Valid() && Visible(x) && (!failed ==> loc <= pc)
      modifies this`pc, this`sp, this`failed, code
      ensures Valid() && Now() == Opened(old(Now()), UntilTail(x, old(pc) - loc, curLev), Depth(x))
    {
      hide BackJump, LoadCode;
      if ItemTyp(x) != Bool {
        Err();
      }
      var y := Load(x);
      PutBack(0x1C, 0x18, loc, -1);
    }
  }

  /** The distance from loc to the end of the code stored in the byte at loc. */
  function PatchedByte(a: Progress, loc: nat): (b: Progress)
    ensures b.At? == a.At? && (b.At? ==> |b.out| == |a.out| && b.sp == a.sp)
  {
    if a.Stopped? || loc >= |a.out| then a else a.(out := a.out[loc := Displacement(|a.out| - loc)])
  }

  /** The distance from loc to the end of the code stored in the word at loc. */
  function Patched(a: Progress, loc: nat): (b: Progress)
    ensures b.At? == a.At? && (b.At? ==> |b.out| == |a.out| && b.sp == a.sp)
  {
    if a.Stopped? || loc + 1 >= |a.out| then a else a.(out := Patch(a.out, loc, |a.out| - loc))
  }

  /** The word d stored at position loc. */
  function Patch(c: seq<byte>, loc: nat, d: int): (r: seq<byte>)
    requires loc + 1 < |c|
    ensures |r| == |c|
  {
    c[loc := Wrap(d) / 0x100][loc + 1 := Wrap(d) % 0x100]
  }

  lemma {:induction false} PatchIs(c: seq<byte>, loc: nat, d: nat)
    requires loc + 1 < |c|
    ensures Patch(c, loc, d) == c[loc := (d / 0x100) % 0x100][loc + 1 := d % 0x100]
  {
    assert (d % 0x1_0000) / 0x100 == (d / 0x100) % 0x100 && (d % 0x1_0000) % 0x100 == d % 0x100;
  }
}
