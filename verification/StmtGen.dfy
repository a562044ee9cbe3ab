/** The code the generator emits for statements, with every jump already resolved. */
module StmtGen {
  import opened Words
  import opened Options
  import opened Lang
  import opened StmtLang
  import opened ExprGen

  // ------------------------------------------------------------------- jumps

  function FarJump(opc: byte, d: int): (s: seq<byte>)
    ensures |s| == 3
  {
    [opc] + Bytes(Wrap(d))
  }

  /** `GenBJ` and `GenCBJ`: back by n bytes, with a byte operand when that is enough. */
  function BackJump(near: byte, far: byte, n: nat): (s: seq<byte>)
    ensures |s| <= 3
  {
    if n < 0xFF then [near, n + 1] else FarJump(far, -(n + 1))
  }

  /** An expression forced onto the stack, within the compiler's stack limit. */
  const STACK_DEPTH: nat := 16

  function ValueCode(e: Expr, lev: nat, base: nat): Option<seq<byte>> {
    var f :- GenLoaded(e, lev);
    if base + f.peak <= STACK_DEPTH then Some(f.code) else None
  }

  function CondCode(c: Expr, lev: nat): Option<seq<byte>> {
    var f :- GenExpr(c, lev);
    if ItemTyp(f.x) == Bool then ValueCode(c, lev, 0) else None
  }

  /** `CheckAssComp` for one-word types, with range checks on: a value of the other of the types
      CARDINAL and INTEGER is tested at run time by CHKS, a constant when it is compiled. */
  function AssignedCode(t: Typ, e: Expr, lev: nat, base: nat): Option<seq<byte>> {
    var f :- GenExpr(e, lev);
    var c :- ValueCode(e, lev, base);
    if ItemTyp(f.x) == t then Some(c)
    else if t == Bool || ItemTyp(f.x) == Bool then None
    else if !f.x.ConM? then Some(c + [0xC7])
    else if f.x.val <= MAX_INT then Some(c)
    else None
  }

  /** `PrepAss`, the value, and `PutSto` or SSW. */
  function AssignCode(v: Var, e: Expr, lev: nat): Option<seq<byte>> {
    if v.lev == 0 then
      var c :- AssignedCode(v.typ, e, lev, 0);
      var st :- OpArg(0x50, v.adr);
      Some(c + st)
    else if v.lev == lev then
      var c :- AssignedCode(v.typ, e, lev, 0);
      var st :- OpArg(0x30, v.adr);
      Some(c + st)
    else if v.lev < lev then
      var c :- AssignedCode(v.typ, e, lev, 1);
      var st :- OpArg1(0x70, v.adr);
      Some(BaseCode(lev - v.lev) + c + st)
    else None
  }

  /** `loadAdr` of a one-word variable. */
  function AddressCode(v: Var, lev: nat): Option<seq<byte>> {
    if v.lev == 0 then Some([0x15, v.adr % 0x100])
    else if v.lev == lev then Some([0x14, v.adr % 0x100])
    else if v.lev < lev then Some(BaseCode(lev - v.lev) + [0x16, v.adr % 0x100])
    else None
  }

  /** `GenFor2`: the limit of a FOR. The test that a mixed CARDINAL/INTEGER limit is below
      2^15 is emitted for literals, too, because `load` has just changed their mode. */
  function LimitCode(t: Typ, e: Expr, lev: nat, base: nat): Option<seq<byte>> {
    var f :- GenExpr(e, lev);
    var c :- ValueCode(e, lev, base);
    if ItemTyp(f.x) == t then Some(c)
    else if t != Bool && ItemTyp(f.x) != Bool then Some(c + [0xC7])
    else None
  }

  // -------------------------------------------------------------- case tables

  /** A label range and where its code starts, counted from the first arm. */
  datatype Entry = Entry(low: int, high: int, target: int)

  const MAX_CASES: nat := 128

  /** `CaseLabelList`: put a range into the ordered table; None is error 62. */
  function Insert(tab: seq<Entry>, x: Entry): Option<seq<Entry>>
    decreases |tab|
  {
    if tab == [] then Some([x])
    else
      var last := tab[|tab| - 1];
      if last.low <= x.high then
        if last.high >= x.low then None else Some(tab + [x])
      else
        var t :- Insert(tab[..|tab| - 1], x);
        Some(t + [last])
  }

  function InsertAll(tab: seq<Entry>, rs: seq<Range>, target: int): Option<seq<Entry>>
    decreases |rs|
  {
    if rs == [] then Some(tab)
    else if rs[0].high < rs[0].low || |tab| >= MAX_CASES then None      // errors 63, 92
    else
      var t :- Insert(tab, Entry(rs[0].low, rs[0].high, target));
      InsertAll(t, rs[1..], target)
  }

  /** Where selector value k leads: the label of the range that contains it, else the ELSE part. */
  function Lookup(tab: seq<Entry>, k: int, otherwise: int): int {
    if tab == [] then otherwise
    else if tab[0].low <= k <= tab[0].high then tab[0].target
    else Lookup(tab[1..], k, otherwise)
  }

  /** n jump words for selector values from k on, the first at position pos. */
  function Jumps(tab: seq<Entry>, otherwise: int, k: int, n: nat, pos: int): (s: seq<byte>)
    ensures |s| == 2 * n
    decreases n
  {
    if n == 0 then []
    else Bytes(Wrap(Lookup(tab, k, otherwise) - pos)) + Jumps(tab, otherwise, k + 1, n - 1, pos + 2)
  }

  function TableLow(tab: seq<Entry>): int { if tab == [] then 1 else tab[0].low }

  function TableHigh(tab: seq<Entry>): int { if tab == [] then 0 else tab[|tab| - 1].high }

  /** `GenCase3`: the table at position pos. */
  function TableCode(tab: seq<Entry>, otherwise: int, pos: int): (s: seq<byte>)
    ensures |s| == TableLen(tab)
  {
    Bytes(Wrap(TableLow(tab))) + Bytes(Wrap(TableHigh(tab))) + Bytes(Wrap(otherwise - (pos + 4)))
    + Jumps(tab, otherwise, TableLow(tab), TableSpan(tab), pos + 6)
  }

  function TableSpan(tab: seq<Entry>): nat {
    var n := TableHigh(tab) - TableLow(tab) + 1;
    if n >= 0 then n else 0
  }

  function TableLen(tab: seq<Entry>): nat {
    6 + 2 * TableSpan(tab)
  }

  // ------------------------------------------- how statements are put together

  function IfCode(cc: seq<byte>, ct: seq<byte>): (s: seq<byte>)
    ensures |s| == |cc| + 3 + |ct|
  {
    cc + FarJump(0x18, |ct| + 2) + ct
  }

  function IfElseCode(cc: seq<byte>, ct: seq<byte>, cf: seq<byte>): (s: seq<byte>)
    ensures |s| == |cc| + 6 + |ct| + |cf|
  {
    cc + FarJump(0x18, |ct| + 5) + ct + FarJump(0x19, |cf| + 2) + cf
  }

  /** A guard whose loop starts `back` bytes before it. */
  function GuardCode(cc: seq<byte>, cb: seq<byte>, back: nat): (s: seq<byte>)
    ensures |s| == GuardLen(|cc|, |cb|, back)
  {
    var bj := BackJump(0x1D, 0x19, back + |cc| + 3 + |cb|);
    cc + FarJump(0x18, |cb| + |bj| + 2) + cb + bj
  }

  function GuardLen(n: nat, m: nat, back: nat): nat {
    n + 3 + m + |BackJump(0x1D, 0x19, back + n + 3 + m)|
  }

  function RepeatCode(cb: seq<byte>, cc: seq<byte>): (s: seq<byte>)
    ensures |s| == |cb| + |cc| + |BackJump(0x1C, 0x18, |cb| + |cc|)|
  {
    cb + cc + BackJump(0x1C, 0x18, |cb| + |cc|)
  }

  function LoopCode(cb: seq<byte>): (s: seq<byte>)
    ensures |s| == LoopLen(|cb|)
  {
    cb + BackJump(0x1D, 0x19, |cb|)
  }

  function LoopLen(n: nat): nat {
    n + |BackJump(0x1D, 0x19, n)|
  }

  /** FOR1 before a body of n bytes: entered upwards or downwards, else left for its end. */
  function ForFront(step: int, n: nat): (s: seq<byte>)
    ensures |s| == 4
  {
    [0xC0, if step > 0 then 0 else 1] + Bytes(Wrap(n + 6))
  }

  /** FOR2 behind a body of n bytes. */
  function ForBack(step: int, n: nat): (s: seq<byte>)
    ensures |s| == 4
  {
    [0xC1, step % 0x100] + Bytes(Wrap(0 - n - 2))
  }

  function ForCode(head: seq<byte>, step: int, cb: seq<byte>): (s: seq<byte>)
    ensures |s| == |head| + 8 + |cb|
  {
    head + ForFront(step, |cb|) + cb + ForBack(step, |cb|)
  }

  function ForHead(v: Var, low: Expr, high: Expr, lev: nat): Option<seq<byte>> {
    var ca :- AddressCode(v, lev);
    var cl :- AssignedCode(v.typ, low, lev, 1);
    var ch :- LimitCode(v.typ, high, lev, 2);
    Some(ca + cl + ch)
  }

  function CaseCode(ce: seq<byte>, ca: seq<byte>, cd: seq<byte>, tab: seq<Entry>): (s: seq<byte>)
    ensures |s| == |ce| + 3 + |ca| + |cd| + TableLen(tab)
  {
    var pos := |ca| + |cd|;
    ce + FarJump(0xC2, pos + 2) + ca + cd + TableCode(tab, |ca|, pos)
  }

  const TRAP_CODE: seq<byte> := [4, 0xC4]      // LI4 TRAP

  // ----------------------------------------------------------- control flow

  /** A statement whose expressions and assignments are already code, while its jumps are
      still open. */
  datatype Flow =
    | Straight(code: seq<byte>)
    | Chain(first: Flow, second: Flow)
    | Branch(cond: seq<byte>, thn: Flow)
    | Branch2(cond: seq<byte>, thn: Flow, els: Flow)
    | Rounds(guards: FlowGuards)
    | Until(body: Flow, cond: seq<byte>)
    | Forever(body: Flow)
    | Leave
    | Count(head: seq<byte>, step: int, body: Flow)
    | Choice(sel: seq<byte>, arms: FlowArms, default: FlowDefault, tab: seq<Entry>)

  datatype FlowGuards =
    | LastGuard(cond: seq<byte>, body: Flow)
    | MoreGuards(cond: seq<byte>, body: Flow, rest: FlowGuards)

  datatype FlowArms = NoFlowArms | FlowArm(body: Flow, rest: FlowArms)

  datatype FlowDefault = TrapHere | ElseHere(body: Flow)

  /** How many bytes a statement takes, jumps included. */
  function Size(f: Flow): nat
    decreases f
  {
    match f
    case Straight(c) => |c|
    case Chain(a, b) => Size(a) + Size(b)
    case Branch(cc, t) => |cc| + 3 + Size(t)
    case Branch2(cc, t, e) => |cc| + 6 + Size(t) + Size(e)
    case Rounds(g) => GuardsSize(g, 0)
    case Until(b, cc) => Size(b) + |cc| + |BackJump(0x1C, 0x18, Size(b) + |cc|)|
    case Forever(b) => LoopLen(Size(b))
    case Leave => 3
    case Count(head, _, b) => |head| + 8 + Size(b)
    case Choice(ce, arms, d, tab) => |ce| + 3 + ArmsSize(arms) + DefaultSize(d) + TableLen(tab)
  }

  function GuardsSize(g: FlowGuards, back: nat): nat
    decreases g
  {
    var k := GuardLen(|g.cond|, Size(g.body), back);
    if g.LastGuard? then k else k + GuardsSize(g.rest, back + k)
  }

  function ArmsSize(a: FlowArms): nat
    decreases a
  {
    if a.NoFlowArms? then 0 else Size(a.body) + 1 + ArmsSize(a.rest)
  }

  function DefaultSize(d: FlowDefault): nat
    decreases d
  {
    if d.TrapHere? then 2 else Size(d.body) + 1
  }

  /** The bytes of a statement; exit is where an EXIT goes, counted from the first of them. */
  function Assemble(f: Flow, exit: int): (c: seq<byte>)
    ensures |c| == Size(f)
    decreases f
  {
    match f
    case Straight(c) => c
    case Chain(a, b) => Assemble(a, exit) + Assemble(b, exit - Size(a))
    case Branch(cc, t) => IfCode(cc, Assemble(t, exit - |cc| - 3))
    case Branch2(cc, t, e) =>
      IfElseCode(cc, Assemble(t, exit - |cc| - 3), Assemble(e, exit - |cc| - 6 - Size(t)))
    case Rounds(g) => AssembleGuards(g, exit, 0)
    case Until(b, cc) => RepeatCode(Assemble(b, exit), cc)
    case Forever(b) => LoopCode(Assemble(b, LoopLen(Size(b))))
    case Leave => FarJump(0x19, exit - 1)
    case Count(head, step, b) => ForCode(head, step, Assemble(b, exit - |head| - 4))
    case Choice(ce, arms, d, tab) =>
      CaseCode(ce, AssembleArms(arms, exit - |ce| - 3),
               AssembleDefault(d, exit - |ce| - 3 - ArmsSize(arms)), tab)
  }

  /** Guards from g on; back is how far the start of the loop lies behind this code. */
  function AssembleGuards(g: FlowGuards, exit: int, back: nat): (c: seq<byte>)
    ensures |c| == GuardsSize(g, back)
    decreases g
  {
    var round := GuardCode(g.cond, Assemble(g.body, exit - |g.cond| - 3), back);
    if g.LastGuard? then round
    else round + AssembleGuards(g.rest, exit - |round|, back + |round|)
  }

  function AssembleArms(a: FlowArms, exit: int): (c: seq<byte>)
    ensures |c| == ArmsSize(a)
    decreases a
  {
    if a.NoFlowArms? then []
    else Assemble(a.body, exit) + [0xC3] + AssembleArms(a.rest, exit - Size(a.body) - 1)
  }

  function AssembleDefault(d: FlowDefault, exit: int): (c: seq<byte>)
    ensures |c| == DefaultSize(d)
    decreases d
  {
    if d.TrapHere? then TRAP_CODE else Assemble(d.body, exit) + [0xC3]
  }

  // --------------------------------------------------------------- statements

  /** Compiling the expressions of a statement; None when an error is reported. */
  function Sketch(s: Stmt, lev: nat): Option<Flow>
    decreases s
  {
    match s
    case Empty => Some(Straight([]))
    case Seq(a, b) =>
      var fa :- Sketch(a, lev);
      var fb :- Sketch(b, lev);
      Some(Chain(fa, fb))
    case Assign(v, e) =>
      var c :- AssignCode(v, e, lev);
      Some(Straight(c))
    case If(c, t) =>
      var cc :- CondCode(c, lev);
      var ft :- Sketch(t, lev);
      Some(Branch(cc, ft))
    case IfElse(c, t, e) =>
      var cc :- CondCode(c, lev);
      var ft :- Sketch(t, lev);
      var fe :- Sketch(e, lev);
      Some(Branch2(cc, ft, fe))
    case While(g) =>
      var fg :- SketchGuards(g, lev);
      Some(Rounds(fg))
    case Repeat(b, c) =>
      var fb :- Sketch(b, lev);
      var cc :- CondCode(c, lev);
      Some(Until(fb, cc))
    case Loop(b) =>
      var fb :- Sketch(b, lev);
      Some(Forever(fb))
    case Exit => Some(Leave)
    case For(v, low, high, step, b) =>
      var head :- ForHead(v, low, high, lev);
      var fb :- Sketch(b, lev);
      if step == 0 then None else Some(Count(head, step, fb))
    case Case(e, arms, d) =>
      var ce :- ValueCode(e, lev, 0);
      var fa :- SketchArms(arms, lev);
      var fd :- SketchDefault(d, lev);
      var tab :- ArmTable(arms, fa, 0, []);
      Some(Choice(ce, fa, fd, tab))
  }

  function SketchGuards(g: Guards, lev: nat): Option<FlowGuards>
    decreases g
  {
    var cc :- CondCode(g.cond, lev);
    var fb :- Sketch(g.body, lev);
    if g.Last? then Some(LastGuard(cc, fb))
    else
      var rest :- SketchGuards(g.rest, lev);
      Some(MoreGuards(cc, fb, rest))
  }

  function SketchArms(a: Arms, lev: nat): Option<FlowArms>
    decreases a
  {
    if a.NoArms? then Some(NoFlowArms)
    else
      var fb :- Sketch(a.body, lev);
      var rest :- SketchArms(a.rest, lev);
      Some(FlowArm(fb, rest))
  }

  function SketchDefault(d: Default, lev: nat): Option<FlowDefault>
    decreases d
  {
    if d.Trapping? then Some(TrapHere)
    else
      var fb :- Sketch(d.body, lev);
      Some(ElseHere(fb))
  }

  /** The table after all arms from a on, the first of which starts at position at. */
  function ArmTable(a: Arms, fa: FlowArms, at: nat, tab: seq<Entry>): Option<seq<Entry>>
    decreases a
  {
    if a.NoArms? || fa.NoFlowArms? then Some(tab)
    else
      var t :- InsertAll(tab, a.labels, at);
      ArmTable(a.rest, fa.rest, at + Size(fa.body) + 1, t)
  }

  /** The code of a body: its statement, and RTN. */
  function BodyCode(s: Stmt, lev: nat): Option<seq<byte>> {
    var f :- Sketch(s, lev);
    Some(Assemble(f, 0) + [0xEC])
  }
}
