/** The M-code machine as a function from states to states: decoding of the byte code
    and the effect of every instruction the model covers. A step that the emulator ends with a
    trap, with a host fault, or outside its arrays has no successor. */
module MCode {
  import opened Words
  import opened Options

  const MEM_SIZE: nat := 0x1_0000
  const EXS_SIZE: nat := 15

  type memory = m: seq<word> | |m| == MEM_SIZE witness seq(MEM_SIZE, _ => 0)

  datatype BinaryOp =
    | UAdd | USub | UMul | UDiv | UMod | Shl | Shr
    | Eql | Neq | ULss | ULeq | UGtr | UGeq
    | ILss | ILeq | IGtr | IGeq
    | IAdd | ISub | IMul | IDiv | And

  /** Jump operands are already resolved to the byte they lead to. */
  datatype Instr =
    | Push(w: word)
    | LocalAdr(n: byte) | GlobalAdr(n: byte) | StackAdr(n: byte)
    | JumpFalse(to: word) | Jump(to: word) | OrJump(to: word) | AndJump(to: word)
    | LoadLocal(n: byte) | StoreLocal(n: byte)
    | LoadGlobal(n: byte) | StoreGlobal(n: byte)
    | LoadStack(n: byte) | LoadStackFar(n: byte) | StoreStack(n: byte)
    | Binary(op: BinaryOp) | Not | Neg | CheckSign | CopyTop
    | For1(down: bool, to: word) | For2(step: int, to: word)
    | EnterCase(table: word) | ExitCase
    | SaveStack | ReloadWord | ReloadPair | ToStack | DropStack | TestSet | Nop | Trap
    | Base(n: byte) | Enter(n: byte) | Return
    | CallExt(m: byte, n: byte) | CallLevel(n: byte) | CallFormal | CallLocal(n: byte)
    | LoadPair(n: byte) | StorePair(n: byte)
    | LoadExt(m: byte, n: byte) | StoreExt(m: byte, n: byte)

  datatype Module = Module(code: seq<byte>, proc: seq<word>, dataOfs: word)

  datatype State = State(
    modn: nat, pc: word, g: word, l: word, s: word, cs: word,
    mem: memory, es: seq<word>)

  datatype Decoded = Decoded(instr: Instr, next: word)

  // ---------------------------------------------------------------- decoding

  function BinaryOpOf(op: byte): Option<BinaryOp> {
    if op == 0xAA then Some(ULss)        // 252B
    else if op == 0xAB then Some(ULeq)
    else if op == 0xAC then Some(UGtr)
    else if op == 0xAD then Some(UGeq)
    else if op == 0xB8 then Some(UAdd)   // 270B
    else if op == 0xB9 then Some(USub)
    else if op == 0xBA then Some(UMul)
    else if op == 0xBB then Some(UDiv)
    else if op == 0xBC then Some(UMod)
    else if op == 0xBE then Some(Shl)    // 276B
    else if op == 0xBF then Some(Shr)
    else if op == 0xC8 then Some(Eql)    // 310B
    else if op == 0xC9 then Some(Neq)
    else if op == 0xCA then Some(ILss)
    else if op == 0xCB then Some(ILeq)
    else if op == 0xCC then Some(IGtr)
    else if op == 0xCD then Some(IGeq)
    else if op == 0xD2 then Some(And)    // 322B
    else if op == 0xD8 then Some(IAdd)   // 330B
    else if op == 0xD9 then Some(ISub)
    else if op == 0xDA then Some(IMul)
    else if op == 0xDB then Some(IDiv)
    else None
  }

  /** Instructions of a single byte. */
  function DecodePlain(op: byte): Option<Instr> {
    if op < 0x10 then Some(Push(op))                                   // LI0..LI15
    else if 0x24 <= op < 0x30 then Some(LoadLocal(op - 0x20))          // LLW4..LLW15
    else if 0x34 <= op < 0x40 then Some(StoreLocal(op - 0x30))         // SLW4..SLW15
    else if 0x42 <= op < 0x50 then Some(LoadGlobal(op - 0x40))         // LGW2..LGW15
    else if 0x52 <= op < 0x60 then Some(StoreGlobal(op - 0x50))        // SGW2..SGW15
    else if 0x60 <= op < 0x70 then Some(LoadStack(op - 0x60))          // LSW0..LSW15
    else if 0x70 <= op < 0x80 then Some(StoreStack(op - 0x70))         // SSW0..SSW15
    else if op == 0x94 then Some(TestSet)                              // 224B
    else if op == 0xB0 then Some(ReloadWord)                           // 260B LODFW
    else if op == 0xB1 then Some(ReloadPair)                           // 261B LODFD
    else if op == 0xB2 then Some(SaveStack)                            // 262B STORE
    else if op == 0xB4 then Some(ToStack)                              // 264B STOT
    else if op == 0xB5 then Some(CopyTop)                              // 265B COPT
    else if op == 0xB6 then Some(DropStack)                            // 266B DECS
    else if op == 0xC3 then Some(ExitCase)                             // 303B EXC
    else if op == 0xC4 then Some(Trap)                                 // 304B
    else if op == 0xC7 then Some(CheckSign)                            // 307B CHKS
    else if op == 0xCF then Some(Neg)                                  // 317B
    else if op == 0xD5 then Some(Push(0xFFFF))                         // 325B LIN
    else if op == 0xD7 then Some(Not)                                  // 327B
    else if op == 0xDE then Some(Nop)                                  // 336B
    else if op == 0xE9 then Some(Base(1))                              // 351B GB1
    else if op == 0xEC then Some(Return)                               // 354B RTN
    else if op == 0xEF then Some(CallFormal)                           // 357B CLF
    else if op > 0xF0 then Some(CallLocal(op - 0xF0))                  // CLL1..CLL15
    else match BinaryOpOf(op)
      case Some(b) => Some(Binary(b))
      case None => None
  }

  /** Instructions with one operand byte b, which stands at position at. */
  function DecodeByte(op: byte, b: byte, at: word): Option<Instr> {
    if op == 0x10 then Some(Push(b))                                   // 20B LIB
    else if op == 0x14 then Some(LocalAdr(b))                          // 24B LLA
    else if op == 0x15 then Some(GlobalAdr(b))                         // 25B LGA
    else if op == 0x16 then Some(StackAdr(b))                          // 26B LSA
    else if op == 0x1A then Some(JumpFalse(Wrap(at + b)))              // 32B JPFC
    else if op == 0x1B then Some(Jump(Wrap(at + b)))                   // 33B JPF
    else if op == 0x1C then Some(JumpFalse(Wrap(at - b)))              // 34B JPBC
    else if op == 0x1D then Some(Jump(Wrap(at - b)))                   // 35B JPB
    else if op == 0x1E then Some(OrJump(Wrap(at + b)))                 // 36B ORJP
    else if op == 0x1F then Some(AndJump(Wrap(at + b)))                // 37B ANDJP
    else if op == 0x20 then Some(LoadLocal(b))                         // 40B LLW
    else if op == 0x21 then Some(LoadPair(b))                          // 41B LLD
    else if op == 0x30 then Some(StoreLocal(b))                        // 60B SLW
    else if op == 0x31 then Some(StorePair(b))                         // 61B SLD
    else if op == 0x40 then Some(LoadGlobal(b))                        // 100B LGW
    else if op == 0x50 then Some(StoreGlobal(b))                       // 120B SGW
    else if op == 0x80 then Some(LoadStackFar(b))                      // 200B LSW
    else if op == 0xE8 then Some(Base(b))                              // 350B GB
    else if op == 0xEB then Some(Enter(b))                             // 353B ENTR
    else if op == 0xEE then Some(CallLevel(b))                         // 356B CLI
    else if op == 0xF0 then Some(CallLocal(b))                         // 360B CLL
    else None
  }

  /** Instructions with two operand bytes, the first at position at. */
  function DecodeTwo(op: byte, b0: byte, b1: byte, at: word): Option<Instr> {
    if op == 0x12 then Some(Push(Join(b0, b1)))                        // 22B LIW
    else if op == 0x18 then Some(JumpFalse(Wrap(at + Join(b0, b1))))   // 30B JPC
    else if op == 0x19 then Some(Jump(Wrap(at + Join(b0, b1))))        // 31B JP
    else if op == 0x22 then Some(LoadExt(b0, b1))                      // 42B LEW
    else if op == 0x32 then Some(StoreExt(b0, b1))                     // 62B SEW
    else if op == 0xC2 then Some(EnterCase(Wrap(at + Join(b0, b1))))   // 302B ENTC
    else if op == 0xED then Some(CallExt(b0, b1))                      // 355B CLX
    else None
  }

  /** FOR1 and FOR2: a byte at position at and a jump word behind it. */
  function DecodeThree(op: byte, b0: byte, b1: byte, b2: byte, at: word): Option<Instr> {
    if op == 0xC0 then Some(For1(b0 != 0, Wrap(at + 1 + Join(b1, b2))))            // 300B
    else if op == 0xC1 then Some(For2(SignedByte(b0), Wrap(at + 1 + Join(b1, b2))))  // 301B
    else None
  }

  function Decode(code: seq<byte>, pc: word): Option<Decoded> {
    if pc >= |code| then None
    else
      var op := code[pc];
      var at := Wrap(pc + 1);
      match DecodePlain(op)
      case Some(i) => Some(Decoded(i, at))
      case None =>
        if pc + 1 >= |code| then None
        else match DecodeByte(op, code[pc + 1], at)
        case Some(i) => Some(Decoded(i, Wrap(pc + 2)))
        case None =>
          if pc + 2 >= |code| then None
          else match DecodeTwo(op, code[pc + 1], code[pc + 2], at)
          case Some(i) => Some(Decoded(i, Wrap(pc + 3)))
          case None =>
            if pc + 3 >= |code| then None
            else match DecodeThree(op, code[pc + 1], code[pc + 2], code[pc + 3], at)
            case Some(i) => Some(Decoded(i, Wrap(pc + 4)))
            case None => None
  }

  // --------------------------------------------------------------- execution

  function Apply(op: BinaryOp, i: word, j: word): Option<word> {
    match op
    case UAdd => Some(Wrap(i + j))
    case USub => Some(Wrap(i - j))
    case UMul => Some(Wrap(i * j))
    case UDiv => if j == 0 then None else Some(Quotient(i, j))
    case UMod => if j == 0 then None else Some(Remainder(i, j))
    case Shl => Some(ShiftLeft(i, j % 16))
    case Shr => Some(ShiftRight(i, j % 16))
    case Eql => Some(Flag(i == j))
    case Neq => Some(Flag(i != j))
    case ULss => Some(Flag(i < j))
    case ULeq => Some(Flag(i <= j))
    case UGtr => Some(Flag(i > j))
    case UGeq => Some(Flag(i >= j))
    case ILss => Some(Flag(Signed(i) < Signed(j)))
    case ILeq => Some(Flag(Signed(i) <= Signed(j)))
    case IGtr => Some(Flag(Signed(i) > Signed(j)))
    case IGeq => Some(Flag(Signed(i) >= Signed(j)))
    case IAdd => Some(Wrap(Signed(i) + Signed(j)))
    case ISub => Some(Wrap(Signed(i) - Signed(j)))
    case IMul => Some(Wrap(Signed(i) * Signed(j)))
    case IDiv => if j == 0 then None else Some(Wrap(TruncDiv(Signed(i), Signed(j))))
    case And => Some(CommonBits(i, j))
  }

  function Quotient(i: word, j: word): word
    requires j != 0
  {
    QuotientShrinks(i, j);
    i / j
  }

  function Remainder(i: word, j: word): word
    requires j != 0
  {
    i % j
  }

  function CommonBits(i: word, j: word): word {
    BitAnd(i, j)
  }

  function ShiftLeft(i: word, n: nat): word {
    Wrap(i * Pow2(n))
  }

  function ShiftRight(i: word, n: nat): word {
    QuotientShrinks(i, Pow2(n));
    i / Pow2(n)
  }

  function Flag(b: bool): word { if b then 1 else 0 }

  /** `es_push`: the emulator's expression stack holds 15 words. */
  function PushWord(st: State, w: int): Option<State> {
    if |st.es| < EXS_SIZE then Some(st.(es := st.es + [Wrap(w)])) else None
  }

  predicate Holds(st: State, n: nat) { |st.es| >= n }

  function Top(st: State): word
    requires Holds(st, 1)
  {
    st.es[|st.es| - 1]
  }

  function Second(st: State): word
    requires Holds(st, 2)
  {
    st.es[|st.es| - 2]
  }

  function Pop(st: State, n: nat): State
    requires Holds(st, n)
  {
    st.(es := st.es[..|st.es| - n])
  }

  /** A word access whose address is a C `int`. */
  function Fetch(st: State, a: int): Option<State> {
    if 0 <= a < MEM_SIZE then PushWord(st, st.mem[a]) else None
  }

  function Put(st: State, a: int, w: word): Option<State> {
    if 0 <= a < MEM_SIZE then Some(st.(mem := st.mem[a := w])) else None
  }

  /** `GB n`: n links up the static chain from frame i. */
  function Chain(mem: memory, i: word, n: nat): Option<word>
    decreases n
  {
    if n == 0 then Some(i)
    else if i + 1 >= MEM_SIZE then None
    else Chain(mem, mem[i + 1], n - 1)
  }

  /** The expression stack as `es_save` leaves it above S: top of stack first, then the count. */
  function Reverse(s: seq<word>): (r: seq<word>)
    ensures |r| == |s|
  {
    if s == [] then [] else Reverse(s[1..]) + [s[0]]
  }

  function WriteAll(mem: memory, at: nat, ws: seq<word>): memory
    requires at + |ws| <= MEM_SIZE
  {
    mem[..at] + ws + mem[at + |ws|..]
  }

  function Save(st: State): Option<State> {
    if st.s + |st.es| >= MEM_SIZE then None
    else Some(st.(mem := WriteAll(st.mem, st.s, Reverse(st.es) + [Wrap(|st.es|)]),
                  s := Wrap(st.s + |st.es| + 1), es := []))
  }

  function Restore(st: State): Option<State> {
    if st.s == 0 then None
    else
      var c := st.mem[st.s - 1];
      if c > st.s - 1 || |st.es| + c > EXS_SIZE then None
      else Some(st.(es := st.es + Reverse(st.mem[st.s - 1 - c..st.s - 1]), s := st.s - 1 - c))
  }

  datatype CallType = ToExternal | ToFormal | ToLocal | ToLevel

  /** `stk_mark`: open a frame of four words at S. */
  function Mark(st: State, ct: CallType, arg: word): Option<State> {
    if st.s + 2 >= MEM_SIZE then None
    else
      var link := if ct == ToExternal || ct == ToFormal then arg else Wrap(st.cs + 0x100);
      var outer := if ct == ToLevel then arg else st.l;
      Some(st.(mem := st.mem[st.s := link][st.s + 1 := outer][st.s + 2 := st.pc],
               s := Wrap(st.s + 4), cs := st.s, l := st.s))
  }

  /** A call into module m: `stk_mark`, `set_module_ptr` and the jump to procedure n. */
  function CallAway(p: seq<Module>, st: State, ct: CallType, m: nat, n: nat): Option<State> {
    match Mark(st, ct, Wrap(st.modn))
    case None => None
    case Some(f) =>
      if m < |p| && n < |p[m].proc| then
        Some(f.(modn := m, g := p[m].dataOfs, pc := p[m].proc[n]))
      else None
  }

  /** A call within the running module. */
  function CallHere(p: seq<Module>, st: State, ct: CallType, base: word, n: nat): Option<State>
    requires st.modn < |p|
  {
    match Mark(st, ct, base)
    case None => None
    case Some(f) =>
      if n < |p[st.modn].proc| then Some(f.(pc := p[st.modn].proc[n])) else None
  }

  function ReturnFrom(p: seq<Module>, st: State): Option<State> {
    if st.cs + 2 >= MEM_SIZE then None
    else
      var link := st.mem[st.cs];
      var back := st.(s := st.cs, pc := st.mem[st.cs + 2]);
      if link >= 0x100 then Some(back.(cs := link - 0x100, l := link - 0x100))
      else
        var frame := st.mem[st.cs + 1];
        if link < |p| then
          Some(back.(l := frame, cs := frame, modn := link, g := p[link].dataOfs))
        else None
  }

  function EnterFor(st: State, down: bool, to: word): Option<State> {
    if !Holds(st, 3) then None
    else
      var hi, low, adr := Top(st), Second(st), st.es[|st.es| - 3];
      var rest := Pop(st, 3);
      if (!down && Signed(low) <= Signed(hi)) || (down && Signed(low) >= Signed(hi)) then
        if st.s + 1 >= MEM_SIZE then None
        else Some(rest.(mem := st.mem[adr := low][st.s := adr][st.s + 1 := hi],
                        s := Wrap(st.s + 2)))
      else Some(rest.(pc := to))
  }

  function NextFor(st: State, step: int, to: word): Option<State> {
    if st.s < 2 then None
    else
      var hi, adr := Signed(st.mem[st.s - 1]), st.mem[st.s - 2];
      var i := Wrap(st.mem[adr] + step);
      if (step >= 0 && Signed(i) > hi) || (step <= 0 && Signed(i) < hi) then
        Some(st.(s := st.s - 2))
      else Some(st.(mem := st.mem[adr := i], pc := to))
  }

  function WordAt(code: seq<byte>, at: int): Option<word> {
    if 0 <= at && at + 1 < |code| then Some(Join(code[at], code[at + 1])) else None
  }

  function JumpThrough(code: seq<byte>, st: State, at: int): Option<State> {
    match WordAt(code, at)
    case None => None
    case Some(d) => Some(st.(pc := Wrap(at + d)))
  }

  /** ENTC: the table starts with the lowest and the highest label and the jump for ELSE. */
  function DoEnterCase(code: seq<byte>, st: State, table: word): Option<State> {
    if !Holds(st, 1) then None
    else match (WordAt(code, table), WordAt(code, table + 2))
    case (Some(low), Some(high)) =>
      var k := Top(st);
      var at := table + 4;
      var inside := low <= k <= high;
      var rest := Pop(st, 1).(mem := st.mem[st.s := Wrap(at + 2 * (high - low) + 4)],
                              s := Wrap(st.s + 1));
      JumpThrough(code, rest, if inside then at + 2 * (k - low + 1) else at)
    case _ => None
  }

  function ExecJump(st: State, i: Instr): Option<State>
    requires i.JumpFalse? || i.Jump? || i.OrJump? || i.AndJump?
  {
    if i.Jump? then Some(st.(pc := i.to))
    else if !Holds(st, 1) then None
    else
      var rest := Pop(st, 1);
      match i
      case JumpFalse(to) => Some(if Top(st) == 0 then rest.(pc := to) else rest)
      case OrJump(to) => if Top(st) == 0 then Some(rest) else PushWord(rest.(pc := to), 1)
      case AndJump(to) => if Top(st) == 0 then PushWord(rest.(pc := to), 0) else Some(rest)
  }

  function ExecUnary(st: State, i: Instr): Option<State>
    requires i.Not? || i.Neg? || i.CheckSign? || i.CopyTop? || i.StackAdr? || i.LoadStack? || i.LoadStackFar?
  {
    if !Holds(st, 1) then None
    else
      var x, rest := Top(st), Pop(st, 1);
      match i
      case Not => PushWord(rest, if x % 2 == 1 then 0 else 1)
      case Neg => PushWord(rest, -Signed(x))
      case CheckSign => if x >= 0x8000 then None else Some(st)
      case CopyTop => PushWord(st, x)
      case StackAdr(n) => PushWord(rest, x + n)
      case LoadStack(n) => Fetch(rest, x + n)
      case LoadStackFar(n) => Fetch(rest, Wrap(x + n))
  }

  function ExecFrame(p: seq<Module>, st: State, i: Instr): Option<State>
    requires i.Base? || i.Enter? || i.Return? || i.CallExt? || i.CallLevel? || i.CallFormal? || i.CallLocal?
    requires st.modn < |p|
  {
    match i
    case Base(n) =>
      (match Chain(st.mem, st.l, if n == 0 then 0x100 else n)
       case None => None
       case Some(b) => PushWord(st, b))
    case Enter(n) => if st.s < MEM_SIZE - n then Some(st.(s := Wrap(st.s + n))) else None
    case Return => ReturnFrom(p, st)
    case CallExt(m, n) =>
      if m == 0 && n == 0 then Some(st) else CallAway(p, st, ToExternal, m, n)
    case CallLevel(n) =>
      if Holds(st, 1) then CallHere(p, Pop(st, 1), ToLevel, Top(st), n) else None
    case CallFormal =>
      if st.s == 0 then None
      else
        var w := st.mem[st.s - 1];
        CallAway(p, st, ToFormal, w / 0x100, w % 0x100)
    case CallLocal(n) => CallHere(p, st, ToLocal, 0, n)
  }

  function ExecBinary(st: State, op: BinaryOp): Option<State> {
    if !Holds(st, 2) then None
    else Replace2(st, Apply(op, Second(st), Top(st)))
  }

  /** Replace the two top words by a result, if there is one. */
  function Replace2(st: State, r: Option<word>): Option<State>
    requires Holds(st, 2)
  {
    match r
    case None => None
    case Some(w) => PushWord(Pop(st, 2), w)
  }

  function PushBoth(st: State, x: word, y: word): Option<State> {
    match PushWord(st, x)
    case None => None
    case Some(one) => PushWord(one, y)
  }

  /** The effect of one decoded instruction; st.pc already stands behind it. */
  function Exec(p: seq<Module>, st: State, i: Instr): Option<State>
    requires st.modn < |p|
  {
    match i
    case Push(w) => PushWord(st, w)
    case LocalAdr(n) => PushWord(st, st.l + n)
    case GlobalAdr(n) => PushWord(st, st.g + n)
    case JumpFalse(_) => ExecJump(st, i)
    case Jump(_) => ExecJump(st, i)
    case OrJump(_) => ExecJump(st, i)
    case AndJump(_) => ExecJump(st, i)
    case LoadLocal(n) => Fetch(st, st.l + n)
    case LoadGlobal(n) => Fetch(st, st.g + n)
    case StoreLocal(n) => if Holds(st, 1) then Put(Pop(st, 1), st.l + n, Top(st)) else None
    case StoreGlobal(n) => if Holds(st, 1) then Put(Pop(st, 1), st.g + n, Top(st)) else None
    case StoreStack(n) =>
      if Holds(st, 2) then Put(Pop(st, 2), Wrap(Second(st) + n), Top(st)) else None
    case LoadExt(m, n) => if m < |p| then Fetch(st, p[m].dataOfs + n) else None
    case StoreExt(m, n) =>
      if m < |p| && Holds(st, 1) then Put(Pop(st, 1), p[m].dataOfs + n, Top(st)) else None
    case LoadPair(n) =>
      (match Fetch(st, Wrap(st.l + n))
       case None => None
       case Some(one) => Fetch(one, Wrap(st.l + n) + 1))
    case StorePair(n) =>
      if !Holds(st, 2) then None
      else
        (match Put(Pop(st, 2), Wrap(st.l + n) + 1, Top(st))
         case None => None
         case Some(one) => Put(one, Wrap(st.l + n), Second(st)))
    case Binary(op) => ExecBinary(st, op)
    case Not => ExecUnary(st, i)
    case Neg => ExecUnary(st, i)
    case CheckSign => ExecUnary(st, i)
    case CopyTop => ExecUnary(st, i)
    case StackAdr(_) => ExecUnary(st, i)
    case LoadStack(_) => ExecUnary(st, i)
    case LoadStackFar(_) => ExecUnary(st, i)
    case For1(down, to) => EnterFor(st, down, to)
    case For2(step, to) => NextFor(st, step, to)
    case EnterCase(table) => DoEnterCase(p[st.modn].code, st, table)
    case ExitCase => Some(st.(pc := st.mem[Wrap(st.s - 1)], s := Wrap(st.s - 1)))
    case SaveStack => Save(st)
    case ReloadWord =>
      if !Holds(st, 1) then None
      else (match Restore(Pop(st, 1))
            case None => None
            case Some(r) => PushWord(r, Top(st)))
    case ReloadPair =>
      if !Holds(st, 2) then None
      else (match Restore(Pop(st, 2))
            case None => None
            case Some(r) => PushBoth(r, Second(st), Top(st)))
    case ToStack =>
      if Holds(st, 1) then Some(Pop(st, 1).(mem := st.mem[st.s := Top(st)], s := Wrap(st.s + 1))) else None
    case DropStack => Some(st.(s := Wrap(st.s - 1)))
    case TestSet =>
      if Holds(st, 1) then
        PushWord(Pop(st, 1).(mem := st.mem[Top(st) := 1]), st.mem[Top(st)])
      else None
    case Nop => Some(st)
    case Trap => None
    case Base(_) => ExecFrame(p, st, i)
    case Enter(_) => ExecFrame(p, st, i)
    case Return => ExecFrame(p, st, i)
    case CallExt(_, _) => ExecFrame(p, st, i)
    case CallLevel(_) => ExecFrame(p, st, i)
    case CallFormal => ExecFrame(p, st, i)
    case CallLocal(_) => ExecFrame(p, st, i)
  }

  /** One turn of the fetch-execute loop, which ends when the program counter is 0. */
  function Step(p: seq<Module>, st: State): Option<State> {
    if st.pc == 0 || st.modn >= |p| then None
    else match Decode(p[st.modn].code, st.pc)
    case None => None
    case Some(d) => Exec(p, st.(pc := d.next), d.instr)
  }
}

/** The machine as a step relation, and code lying in a module. */
module Machines {
  import opened Words
  import opened Options
  import opened MCode
  import opened Runs

  /** `Step` for a fixed program. Only its graph is exposed to the solver, one state at a time. */
  ghost function Machine(p: seq<Module>): (f: State -> Option<State>)
    ensures forall st {:trigger Step(p, st)} :: f(st) == Step(p, st)
  {
    assert Graph(x => Step(p, x), p);
    var f: State -> Option<State> :| Graph(f, p);
    f
  }

  ghost predicate Graph(f: State -> Option<State>, p: seq<Module>) {
    forall st {:trigger Step(p, st)} :: f(st) == Step(p, st)
  }

  predicate Halted(st: State) {
    st.pc == 0
  }

  predicate CodeAt(code: seq<byte>, at: int, frag: seq<byte>) {
    0 <= at && at + |frag| <= |code| && code[at..at + |frag|] == frag
  }

  lemma {:induction false} CodeAtParts(code: seq<byte>, at: int, a: seq<byte>, b: seq<byte>)
    requires CodeAt(code, at, a + b)
    ensures CodeAt(code, at, a) && CodeAt(code, at + |a|, b)
  {
    assert code[at..at + |a|] == (a + b)[..|a|];
    assert code[at + |a|..at + |a| + |b|] == (a + b)[|a|..];
  }

  lemma {:induction false} CodeAtByte(code: seq<byte>, at: int, frag: seq<byte>, k: nat)
    requires CodeAt(code, at, frag) && k < |frag|
    ensures code[at + k] == frag[k]
  {
    assert code[at..at + |frag|][k] == code[at + k];
  }

  /** `Exec` for a fixed program, exposed to the solver in the same way. */
  ghost function Effect(p: seq<Module>): (f: (State, Instr) -> Option<State>)
    ensures EffectGraph(f, p)
  {
    assert EffectGraph((st: State, i) => if st.modn < |p| then Exec(p, st, i) else None, p);
    var f: (State, Instr) -> Option<State> :| EffectGraph(f, p);
    f
  }

  ghost predicate EffectGraph(f: (State, Instr) -> Option<State>, p: seq<Module>) {
    forall st: State, i {:trigger Exec(p, st, i)} :: st.modn < |p| ==> f(st, i) == Exec(p, st, i)
  }

  /** A step is the effect of the instruction found at the program counter. */
  lemma {:induction false} StepIsEffect(p: seq<Module>, st: State, d: Decoded)
    requires st.modn < |p| && st.pc != 0 && Decode(p[st.modn].code, st.pc) == Some(d)
    ensures Machine(p)(st) == Effect(p)(st.(pc := d.next), d.instr)
  {
    assert Step(p, st) == Exec(p, st.(pc := d.next), d.instr);
  }

  /** Where a run leads: to a state, or to a fault. */
  ghost predicate LeadsTo(p: seq<Module>, a: State, o: Option<State>) {
    match o
    case Some(b) => Reaches(Machine(p), a, b)
    case None => Faults(Machine(p), Halted, a)
  }

  /** `LeadsTo` for a fixed program, exposed one pair at a time. */
  ghost function Leads(p: seq<Module>): (f: (State, Option<State>) -> bool)
    ensures LeadsGraph(f, p)
  {
    assert LeadsGraph((a, o) => LeadsTo(p, a, o), p);
    var f: (State, Option<State>) -> bool :| LeadsGraph(f, p);
    f
  }

  ghost predicate LeadsGraph(f: (State, Option<State>) -> bool, p: seq<Module>) {
    forall a, o {:trigger LeadsTo(p, a, o)} :: f(a, o) == LeadsTo(p, a, o)
  }

  lemma {:induction false} LeadsOn(p: seq<Module>, a: State, b: State, o: Option<State>)
    requires Leads(p)(a, Some(b)) && Leads(p)(b, o)
    ensures Leads(p)(a, o)
  {
    assert LeadsTo(p, a, Some(b)) && LeadsTo(p, b, o);
    if o.Some? {
      Chained(Machine(p), a, b, o.value);
    } else {
      ChainedFault(Machine(p), Halted, a, b);
    }
    assert LeadsTo(p, a, o);
  }

  /** The instruction at the program counter leads where its effect says. */
  lemma {:induction false} LeadsByEffect(p: seq<Module>, st: State, d: Decoded, o: Option<State>)
    requires st.modn < |p| && st.pc != 0 && Decode(p[st.modn].code, st.pc) == Some(d)
    requires Effect(p)(st.(pc := d.next), d.instr) == o
    ensures Leads(p)(st, o)
  {
    StepIsEffect(p, st, d);
    if o.Some? {
      OneStep(Machine(p), st, o.value);
    } else {
      StuckFaults(Machine(p), Halted, st);
    }
    assert LeadsTo(p, st, o);
  }
}
