/** Procedure calls from the compiler to the machine: what `GenCall`, `PrepCall` and `adjustStack`
    emit, the instructions these bytes decode to, and what an expression with calls does when its
    bytes are executed. */
module CallGen {
  import opened Words
  import opened Options
  import opened MCode
  import opened Machines
  import opened ExprProof
  import opened Emitter
  import StmtGen
  import opened Calls
  import opened Relocation
  import opened Pending
  import G = ExprGen

  // ------------------------------------------------------- the bytes of a call

  /** A procedure as `GenCall` sees it: its module (0 is the one being compiled), the level it is
      declared at, its number, and how many words of parameters it takes. */
  datatype Callee = Callee(pmod: nat, lev: nat, num: nat, arity: nat)

  /** What `GenCall` emits at level `level`; None when the number is too large for CLL. */
  function CallBytes(c: Callee, level: nat): (r: Option<seq<byte>>)
    requires c.lev <= level
  {
    if c.pmod != 0 then Some([0xED, c.pmod % 0x100, c.num % 0x100])
    else if c.lev == 0 || c.lev == level then G.OpArg(0xF0, c.num)
    else Some(G.BaseCode(level - c.lev) + [0xEE, c.num % 0x100])
  }

  /** The bytes from at on decode to these instructions and end at `end`. */
  predicate DecodesTo(code: seq<byte>, at: word, instrs: seq<Instr>, end: word)
    decreases |instrs|
  {
    if instrs == [] then at == end
    else
      match Decode(code, at)
      case None => false
      case Some(d) => d.instr == instrs[0] && at < d.next && DecodesTo(code, d.next, instrs[1..], end)
  }

  function Local(q: Proc): Callee
    requires q.level >= 1
  {
    Callee(0, q.level - 1, q.num, 0)
  }

  /** The procedure is called with CLL. */
  predicate Direct(q: Proc, level: nat)
    requires q.level >= 1
  {
    q.level == 1 || q.level - 1 == level
  }

  lemma {:induction false} DecodesOne(code: seq<byte>, at: word, i: Instr, end: word)
    requires at < end
    ensures DecodesTo(code, at, [i], end) <==> Decode(code, at) == Some(Decoded(i, end))
  {
    hide Decode;
    assert [i][1..] == [];
  }

  lemma {:induction false} DecodesTwo(code: seq<byte>, at: word, i: Instr, mid: word, j: Instr, end: word)
    requires Decode(code, at) == Some(Decoded(i, mid)) && Decode(code, mid) == Some(Decoded(j, end)) && at < mid < end
    ensures DecodesTo(code, at, [i, j], end)
  {
    hide Decode;
    DecodesOne(code, mid, j, end);
    assert [i, j][1..] == [j];
  }

  /** At every lexical distance the bytes decode to the call the procedure's level demands, with
      one exception: number 0 in a CLL, which the machine takes for the prefix of the long form.
      Procedures are numbered from 1, 0 being the module's body. */
  lemma {:induction false} CallDecodes(code: seq<byte>, at: word, q: Proc, level: nat, b: seq<byte>)
    requires 1 <= q.level <= level + 1 && q.num < 0x100 && CallBytes(Local(q), level) == Some(b)
    requires CodeAt(code, at, b) && |code| < 0x1_0000
    ensures DecodesTo(code, at, CallCode(q, level), at + |b|) <==> !(Direct(q, level) && q.num == 0)
  {
    hide Decode, DecodePlain, DecodeByte, DecodesTo, CodeAt, G.BaseCode, G.OpArg;
    if Direct(q, level) {
      DirectDecodes(code, at, q.num, b);
      DecodesOne(code, at, CallLocal(q.num), at + |b|);
    } else {
      var base := G.BaseCode(level - (q.level - 1));
      CodeAtParts(code, at, base, [0xEE, q.num]);
      BaseDecodes(code, at, level - (q.level - 1));
      LevelDecodes(code, at + |base|, q.num);
      DecodesTwo(code, at, Base((level - (q.level - 1)) % 0x100), at + |base|, CallLevel(q.num), at + |b|);
    }
  }

  lemma {:induction false} DirectDecodes(code: seq<byte>, at: word, num: byte, b: seq<byte>)
    requires G.OpArg(0xF0, num) == Some(b) && CodeAt(code, at, b) && |code| < 0x1_0000
    ensures num > 0 ==> Decode(code, at) == Some(Decoded(CallLocal(num), at + |b|))
    ensures num == 0 ==> Decode(code, at) != Some(Decoded(CallLocal(num), at + |b|))
    ensures 0 < |b| && at + |b| < 0x1_0000
  {
    CodeAtByte(code, at, b, 0);
    if num >= 0x10 {
      CodeAtByte(code, at, b, 1);
    }
  }

  lemma {:induction false} BaseDecodes(code: seq<byte>, at: word, n: nat)
    requires n > 0 && CodeAt(code, at, G.BaseCode(n)) && |code| < 0x1_0000
    ensures Decode(code, at) == Some(Decoded(Base(n % 0x100), at + |G.BaseCode(n)|))
  {
    CodeAtByte(code, at, G.BaseCode(n), 0);
    if n != 1 {
      CodeAtByte(code, at, G.BaseCode(n), 1);
    }
  }

  lemma {:induction false} LevelDecodes(code: seq<byte>, at: word, num: byte)
    requires CodeAt(code, at, [0xEE, num]) && |code| < 0x1_0000
    ensures Decode(code, at) == Some(Decoded(CallLevel(num), at + 2))
  {
    CodeAtByte(code, at, [0xEE, num], 0);
    CodeAtByte(code, at, [0xEE, num], 1);
  }

  // -------------------------------------------------- moves of a run, as bytes

  /** The bytes behind a call or a return of a run: CLL or GB and CLI, CLX after relocation, CLF,
      RTN. */
  function MoveBytes(procs: seq<Proc>, stack: seq<Activation>, m: Move): Option<seq<byte>>
    requires Declared(procs) && stack != [] && stack[|stack| - 1].proc < |procs|
  {
    match m
    case Near(q) =>
      var level := procs[stack[|stack| - 1].proc].level;
      if q < |procs| && 1 <= procs[q].level <= level + 1 then CallBytes(Local(procs[q]), level) else None
    case Far(q, formal) =>
      if formal then Some([0xEF])
      else if q < |procs| && 0 < procs[q].modn then CallBytes(Callee(procs[q].modn, 0, procs[q].num, 0), 0)
      else None
    case Leave => Some([0xEC])
    case Work(_) => None
  }

  /** When a call or a return of a run is executed from its bytes, the machine goes where the run
      goes: a run in the sense of `Calls.IsRun` is a run of the machine. */
  lemma {:induction false} MoveRuns(p: seq<Module>, procs: seq<Proc>, st: State, stack: seq<Activation>, m: Move, b: seq<byte>, o: State)
    requires Declared(procs) && Rooted(procs, stack) && Ready(p, st, b) && st.pc + |b| < 0x1_0000
    requires Legal(p, procs, Skip(st, |b|), stack, m) && MoveBytes(procs, stack, m) == Some(b) && (m.Near? ==> procs[m.q].num > 0)
    requires Moved(p, procs, Skip(st, |b|), stack, m).Some? && Moved(p, procs, Skip(st, |b|), stack, m).value.0 == o
    ensures Leads(p)(st, Some(o))
  {
    hide Decode, Exec, ExecAll, Rooted, Visible, Leads, DecodesTo, Live, Ancestor, Up;
    var code := p[st.modn].code;
    match m
    case Near(q) =>
      var level := procs[stack[|stack| - 1].proc].level;
      CallDecodes(code, st.pc, procs[q], level, b);
      NearRuns(p, st, CallCode(procs[q], level), |b|, o);
    case Far(q, formal) =>
      var i := if formal then CallFormal else CallExt(procs[q].modn, procs[q].num);
      FarDecodes(code, st.pc, i, b);
      ExecOne(p, Skip(st, |b|), i);
      LeadsByExec(p, st, Decoded(i, st.pc + |b|), o);
    case Leave =>
      FarDecodes(code, st.pc, Return, b);
      ExecOne(p, Skip(st, |b|), Return);
      LeadsByExec(p, st, Decoded(Return, st.pc + |b|), o);
  }

  lemma {:induction false} FarDecodes(code: seq<byte>, at: word, i: Instr, b: seq<byte>)
    requires CodeAt(code, at, b) && |code| < 0x1_0000
    requires match i case CallExt(m, n) => b == [0xED, m, n] case CallFormal => b == [0xEF] case Return => b == [0xEC] case _ => false
    ensures Decode(code, at) == Some(Decoded(i, at + |b|))
  {
    CodeAtByte(code, at, b, 0);
    if i.CallExt? {
      CodeAtByte(code, at, b, 1);
      CodeAtByte(code, at, b, 2);
    }
  }

  lemma {:induction false} NearRuns(p: seq<Module>, st: State, instrs: seq<Instr>, k: nat, o: State)
    requires st.modn < |p| && 0 < st.pc && st.pc + k < 0x1_0000 && |p[st.modn].code| < 0x1_0000
    requires |instrs| == 1 || (|instrs| == 2 && instrs[0].Base?)
    requires DecodesTo(p[st.modn].code, st.pc, instrs, st.pc + k) && ExecAll(p, Skip(st, k), instrs) == Some(o)
    ensures Leads(p)(st, Some(o))
  {
    hide Decode, Exec, ExecAll, Leads;
    var d := Decode(p[st.modn].code, st.pc).value;
    if |instrs| == 1 {
      assert instrs[1..] == [] && instrs == [d.instr];
      ExecOne(p, Skip(st, k), d.instr);
      LeadsByExec(p, st, d, o);
    } else {
      assert DecodesTo(p[st.modn].code, d.next, instrs[1..], st.pc + k) && instrs[1..][0] == instrs[1];
      var e := Decode(p[st.modn].code, d.next).value;
      assert DecodesTo(p[st.modn].code, e.next, instrs[1..][1..], st.pc + k) && instrs[1..][1..] == [];
      assert instrs == [d.instr, e.instr];
      BaseThen(p, st, d, e, k, o);
    }
  }

  lemma {:induction false} LeadsByExec(p: seq<Module>, st: State, d: Decoded, o: State)
    requires st.modn < |p| && 0 < st.pc && Decode(p[st.modn].code, st.pc) == Some(d)
    requires Exec(p, st.(pc := d.next), d.instr) == Some(o)
    ensures Leads(p)(st, Some(o))
  {
    hide Decode, Exec, Leads;
    LeadsByEffect(p, st, d, Some(o));
  }

  /** GB does not look at the program counter. */
  lemma {:induction false} BaseThen(p: seq<Module>, st: State, d: Decoded, e: Decoded, k: nat, o: State)
    requires st.modn < |p| && 0 < st.pc && st.pc + k < 0x1_0000 && d.instr.Base? && e.next == st.pc + k
    requires Decode(p[st.modn].code, st.pc) == Some(d) && Decode(p[st.modn].code, d.next) == Some(e) && d.next > 0
    requires ExecAll(p, Skip(st, k), [d.instr, e.instr]) == Some(o)
    ensures Leads(p)(st, Some(o))
  {
    hide Decode, Exec, ExecAll, Leads;
    TwoParts(p, Skip(st, k), d.instr, e.instr, o);
    BaseOnly(p, Skip(st, k), d.next, d.instr);
    assert Skip(st, k).(pc := d.next) == st.(pc := d.next);
    var one := Exec(p, Skip(st, k), d.instr).value.(pc := d.next);
    LeadsByExec(p, st, d, one);
    LeadsByExec(p, one, e, o);
    LeadsOn(p, st, one, Some(o));
  }

  lemma {:induction false} TwoParts(p: seq<Module>, st: State, i: Instr, j: Instr, o: State)
    requires st.modn < |p| && ExecAll(p, st, [i, j]) == Some(o)
    ensures var one := Exec(p, st, i); one.Some? && one.value.modn < |p| && Exec(p, one.value, j) == Some(o)
  {
    hide Exec;
    assert [i, j][1..] == [j];
    ExecOne(p, Exec(p, st, i).value, j);
  }

  lemma {:induction false} BaseOnly(p: seq<Module>, st: State, pc: word, i: Instr)
    requires st.modn < |p| && i.Base?
    ensures match Exec(p, st, i)
            case None => Exec(p, st.(pc := pc), i) == None
            case Some(b) => Exec(p, st.(pc := pc), i) == Some(b.(pc := pc)) && b.pc == st.pc && b.modn == st.modn
  {
    hide MCode.Chain;
  }

  // ------------------------------------------------- expressions with calls, as bytes

  /** The functions that may be called, and the level of the code that calls them. */
  datatype Scope = Scope(procs: seq<Callee>, level: nat)

  predicate InScope(c: Scope) {
    forall k :: 0 <= k < |c.procs| ==> c.procs[k].lev <= c.level
  }

  function ProcOf(c: Scope, f: nat): (q: Callee)
    ensures InScope(c) ==> q.lev <= c.level
  {
    if f < |c.procs| then c.procs[f] else Callee(0, 0, 0, 0)
  }

  /** Only declared functions are called, each with as many arguments as it has parameters. */
  predicate Known(c: Scope, e: FExpr)
    decreases e, 1
  {
    match e
    case Const(_) => true
    case Both(_, l, r) => Known(c, l) && Known(c, r)
    case Apply(f, args) => f < |c.procs| && Count(args) == c.procs[f].arity && AllKnown(c, args)
  }

  predicate AllKnown(c: Scope, args: FArgs)
    decreases args, 0
  {
    match args case NoArgs => true case Args(init, e) => AllKnown(c, init) && Known(c, e)
  }

  function OpByte(op: TotalOp): (b: byte)
    ensures DecodePlain(b) == Some(Binary(op))
  {
    match op
    case ULss => 0xAA case ULeq => 0xAB case UGtr => 0xAC case UGeq => 0xAD
    case UAdd => 0xB8 case USub => 0xB9 case UMul => 0xBA case Shl => 0xBE case Shr => 0xBF
    case Eql => 0xC8 case Neq => 0xC9 case ILss => 0xCA case ILeq => 0xCB case IGtr => 0xCC case IGeq => 0xCD
    case And => 0xD2 case IAdd => 0xD8 case ISub => 0xD9 case IMul => 0xDA
  }

  function StepBytes(c: Scope, s: Pending.Step): Option<seq<byte>>
    requires InScope(c)
  {
    match s
    case Load(w) => Some(G.LitCode(w))
    case Operate(op) => Some([OpByte(op)])
    case Store => Some([0xB2])
    case Call(f, _) => CallBytes(ProcOf(c, f), c.level)
    case Reload => Some([0xB0])
  }

  /** The bytes of a list of steps. */
  function Assembled(c: Scope, steps: seq<Pending.Step>): Option<seq<byte>>
    requires InScope(c)
  {
    if steps == [] then Some([])
    else
      var b :- StepBytes(c, steps[0]);
      var rest :- Assembled(c, steps[1..]);
      Some(b + rest)
  }

  /** The places of module numbers in these bytes, when they begin at `at`. */
  function RelsOf(c: Scope, steps: seq<Pending.Step>, at: nat): seq<nat>
    requires InScope(c)
  {
    if steps == [] || StepBytes(c, steps[0]).None? then []
    else
      (if steps[0].Call? && ProcOf(c, steps[0].f).pmod != 0 then [at + 1] else [])
      + RelsOf(c, steps[1..], at + |StepBytes(c, steps[0]).value|)
  }

  lemma {:induction false} AssembledTwice(c: Scope, a: seq<Pending.Step>, b: seq<Pending.Step>, at: nat)
    requires InScope(c)
    ensures Assembled(c, a + b).Some? <==> Assembled(c, a).Some? && Assembled(c, b).Some?
    ensures Assembled(c, a + b).Some? ==>
              && Assembled(c, a + b).value == Assembled(c, a).value + Assembled(c, b).value
              && RelsOf(c, a + b, at) == RelsOf(c, a, at) + RelsOf(c, b, at + |Assembled(c, a).value|)
  {
    hide StepBytes, Assembled, RelsOf, ProcOf, InScope;
    if a == [] {
      assert a + b == b;
      AssembledNone(c, a, at);
      assert Assembled(c, b).Some? ==> [] + Assembled(c, b).value == Assembled(c, b).value;
      assert RelsOf(c, a, at) + RelsOf(c, b, at) == RelsOf(c, b, at);
    } else {
      HeadOf(a, b);
      AssembledHead(c, a, at);
      AssembledHead(c, a + b, at);
      if StepBytes(c, a[0]).Some? {
        var one := StepBytes(c, a[0]).value;
        AssembledTwice(c, a[1..], b, at + |one|);
        if Assembled(c, a + b).Some? {
          assert one + (Assembled(c, a[1..]).value + Assembled(c, b).value) == one + Assembled(c, a[1..]).value + Assembled(c, b).value;
          var here := if a[0].Call? && ProcOf(c, a[0].f).pmod != 0 then [at + 1] else [];
          var x, y := RelsOf(c, a[1..], at + |one|), RelsOf(c, b, at + |one| + |Assembled(c, a[1..]).value|);
          assert here + (x + y) == here + x + y;
        }
      }
    }
  }

  lemma {:induction false} HeadOf(a: seq<Pending.Step>, b: seq<Pending.Step>)
    requires a != []
    ensures (a + b)[0] == a[0] && (a + b)[1..] == a[1..] + b
  {
  }

  lemma {:induction false} AssembledNone(c: Scope, steps: seq<Pending.Step>, at: nat)
    requires InScope(c) && steps == []
    ensures Assembled(c, steps) == Some([]) && RelsOf(c, steps, at) == []
  {
  }

  /** The first step and the others. */
  lemma {:induction false} AssembledHead(c: Scope, steps: seq<Pending.Step>, at: nat)
    requires InScope(c) && steps != []
    ensures var b, rest := StepBytes(c, steps[0]), Assembled(c, steps[1..]);
            && Assembled(c, steps) == (if b.Some? && rest.Some? then Some(b.value + rest.value) else None)
            && (b.Some? ==>
                  var here := if steps[0].Call? && ProcOf(c, steps[0].f).pmod != 0 then [at + 1] else [];
                  RelsOf(c, steps, at) == here + RelsOf(c, steps[1..], at + |b.value|))
  {
    hide StepBytes;
  }

  lemma {:induction false} AssembledOne(c: Scope, s: Pending.Step, at: nat)
    requires InScope(c)
    ensures Assembled(c, [s]) == StepBytes(c, s)
    ensures StepBytes(c, s).Some? ==> RelsOf(c, [s], at) == if s.Call? && ProcOf(c, s.f).pmod != 0 then [at + 1] else []
  {
    hide StepBytes;
    assert [s][1..] == [];
    if StepBytes(c, s).Some? {
      assert StepBytes(c, s).value + [] == StepBytes(c, s).value;
    }
  }

  // ------------------------------------------------------ the generator at a call

  /** How far code generation has come, with the relocations noted so far. */
  datatype Site = Broken | Site(out: seq<byte>, sp: int, rels: seq<nat>)

  ghost function Here(g: Generator, t: RelocTable): Site
    requires g.Valid() && t.Valid()
    reads g, g.code, t, t.tab
  {
    if g.failed then Broken else Site(g.Out(), g.sp, t.Rels())
  }

  ghost predicate Apart(g: Generator, t: RelocTable) {
    t.tab != g.code as object
  }

  /** `Grow` on a site. */
  function Put(a: Site, c: seq<byte>, d: int, peak: int): Site {
    if a.Broken? || |a.out| + |c| > CODE_LENGTH || a.sp + peak > StmtGen.STACK_DEPTH then Broken else Site(a.out + c, a.sp + d, a.rels)
  }

  function Relocated(a: Site): Site {
    if a.Broken? || |a.rels| == REL_TAB_LENGTH then Broken else a.(rels := a.rels + [|a.out|])
  }

  /** The words counted on the stack are set to n. */
  function Counted(a: Site, n: int): Site {
    if a.Broken? then Broken else a.(sp := n)
  }

  /** `PrepCall` for a procedure. */
  function Prepared(a: Site): Site {
    if a.Site? && a.sp > 0 then Counted(Put(a, [0xB2], 0, 0), 0) else a
  }

  /** `adjustStack` after a function with a result of `size` words, when n operands were waiting. */
  function Adjusted(a: Site, n: int, size: nat): Site {
    if size == 0 then Counted(a, 0)
    else if n > 0 then
      (if size == 2 then Put(Counted(a, n), [0xB1], 2, 2) else Put(Counted(a, n), [0xB0], 1, 1))
    else Counted(a, size)
  }

  function CallSite(a: Site, c: Callee, level: nat): Site
    requires c.lev <= level
  {
    if c.pmod != 0 then Put(Relocated(Put(a, [0xED], 0, 0)), [c.pmod % 0x100, c.num % 0x100], 0, 0)
    else
      match CallBytes(c, level)
      case None => Broken
      case Some(b) => Put(a, b, 0, if c.lev == 0 || c.lev == level then 0 else 1)
  }

  method PrepCall(g: Generator, t: RelocTable) returns (waiting: int)
    requires g.Valid() && t.Valid() && Apart(g, t)
    modifies g`pc, g`sp, g`failed, g.code
    ensures g.Valid() && Here(g, t) == Prepared(old(Here(g, t))) && waiting == old(g.sp)
  {
    waiting := g.sp;
    if g.sp > 0 {
      g.PutOpZ(0xB2);
      g.sp := 0;
    }
  }

  method AdjustStack(g: Generator, t: RelocTable, waiting: int, size: nat)
    requires g.Valid() && t.Valid() && Apart(g, t) && (!g.failed ==> waiting <= StmtGen.STACK_DEPTH) && size <= 2
    modifies g`pc, g`sp, g`failed, g.code
    ensures g.Valid() && Here(g, t) == Adjusted(old(Here(g, t)), waiting, size)
  {
    if size == 0 {
      g.sp := 0;
    } else {
      g.sp := waiting;
      if g.sp > 0 {
        if size == 2 {
          g.PutOp(0xB1, 2);
        } else {
          g.PutOpU(0xB0);
        }
      } else {
        g.sp := size;
      }
    }
  }

  /** `GenCall` for a procedure. */
  method GenCall(g: Generator, t: RelocTable, c: Callee, waiting: int, size: nat)
    requires g.Valid() && t.Valid() && Apart(g, t) && c.lev <= g.curLev && (!g.failed ==> waiting <= StmtGen.STACK_DEPTH) && size <= 2
    modifies g`pc, g`sp, g`failed, g.code, t`relx, t.tab
    ensures g.Valid() && t.Valid() && Here(g, t) == Adjusted(CallSite(old(Here(g, t)), c, g.curLev), waiting, size)
  {
    hide Adjusted;
    if c.pmod == 0 {
      CallWithin(g, t, c);
    } else {
      g.PutOpZ(0xED);
      t.Reloc(g);
      PutPair(g, t, c.pmod % 0x100, c.num % 0x100);
    }
    AdjustStack(g, t, waiting, size);
  }

  method CallWithin(g: Generator, t: RelocTable, c: Callee)
    requires g.Valid() && t.Valid() && Apart(g, t) && c.lev <= g.curLev && c.pmod == 0
    modifies g`pc, g`sp, g`failed, g.code
    ensures g.Valid() && Here(g, t) == CallSite(old(Here(g, t)), c, g.curLev)
  {
    if c.lev == 0 || c.lev == g.curLev {
      g.PutOpArg(0xF0, c.num, 0);
    } else {
      PutLevelCall(g, g.curLev - c.lev, c.num % 0x100);
    }
  }

  /** The frame n levels out, and CLI. */
  method PutLevelCall(g: Generator, n: nat, num: byte)
    requires g.Valid()
    modifies g`pc, g`sp, g`failed, g.code
    ensures g.Appended(G.BaseCode(n) + [0xEE, num], 0, 1)
  {
    hide G.BaseCode, Grow;
    ghost var base := G.BaseCode(n);
    GrowTwice(g.Now(), base, 1, 1, [0xEE], -1, 0);
    GrowTwice(g.Now(), base + [0xEE], 0, 1, [num], 0, 0);
    assert base + [0xEE] + [num] == base + [0xEE, num];
    g.PutBase(n);
    g.PutOpD(0xEE);
    g.PutByte(num);
  }

  method PutPair(g: Generator, t: RelocTable, a: byte, b: byte)
    requires g.Valid() && t.Valid() && Apart(g, t)
    modifies g`pc, g`failed, g.code
    ensures g.Valid() && Here(g, t) == Put(old(Here(g, t)), [a, b], 0, 0)
  {
    GrowTwice(g.Now(), [a], 0, 0, [b], 0, 0);
    assert [a] + [b] == [a, b];
    g.PutByte(a);
    g.PutByte(b);
  }

  // ------------------------------------------------------ whole expressions

  /** `Factor` and the operators around it, with every operand loaded before the next one. */
  function Emitted(c: Scope, a: Site, e: FExpr): Site
    requires InScope(c)
    decreases e, 1
  {
    match e
    case Const(w) => Put(a, G.LitCode(w), 1, 1)
    case Both(op, l, r) => Put(Emitted(c, Emitted(c, a, l), r), [OpByte(op)], -1, 0)
    case Apply(f, args) =>
      Adjusted(CallSite(EmittedArgs(c, Prepared(a), args), ProcOf(c, f), c.level), if a.Site? then a.sp else 0, 1)
  }

  function EmittedArgs(c: Scope, a: Site, args: FArgs): Site
    requires InScope(c)
    decreases args, 0
  {
    match args case NoArgs => a case Args(init, e) => Emitted(c, EmittedArgs(c, a, init), e)
  }

  /** Site b is site a with these steps assembled behind it, and n words on the stack. */
  ghost predicate Holding(c: Scope, a: Site, b: Site, steps: seq<Pending.Step>, n: int)
    requires InScope(c)
  {
    && a.Site? && b.Site? && b.sp == n && Assembled(c, steps).Some?
    && b.out == a.out + Assembled(c, steps).value && b.rels == a.rels + RelsOf(c, steps, |a.out|)
  }

  lemma {:induction false} HoldingTwice(c: Scope, a: Site, m: Site, b: Site, s1: seq<Pending.Step>, n1: int, s2: seq<Pending.Step>, n2: int)
    requires InScope(c) && Holding(c, a, m, s1, n1) && Holding(c, m, b, s2, n2)
    ensures Holding(c, a, b, s1 + s2, n2)
  {
    hide Assembled, RelsOf;
    AssembledTwice(c, s1, s2, |a.out|);
    assert a.out + Assembled(c, s1).value + Assembled(c, s2).value == a.out + (Assembled(c, s1).value + Assembled(c, s2).value);
  }

  lemma {:induction false} HoldingOne(c: Scope, a: Site, b: Site, s: Pending.Step, n: int)
    requires InScope(c) && a.Site? && b.Site? && b.sp == n && StepBytes(c, s).Some? && b.out == a.out + StepBytes(c, s).value
    requires b.rels == a.rels + if s.Call? && ProcOf(c, s.f).pmod != 0 then [|a.out| + 1] else []
    ensures Holding(c, a, b, [s], n)
  {
    hide StepBytes;
    AssembledOne(c, s, |a.out|);
  }

  lemma {:induction false} HoldingNone(c: Scope, a: Site)
    requires InScope(c) && a.Site?
    ensures Holding(c, a, a, [], a.sp)
  {
    assert a.out + [] == a.out && a.rels + [] == a.rels;
  }

  /** What is emitted without an error is the code of the expression for the words that were counted
      on the stack, whatever calls are nested in it; the count grows by the one word of the result,
      and the module number of every call of an import is noted for relocation. */
  lemma {:induction false} EmitsCode(c: Scope, a: Site, e: FExpr)
    requires InScope(c) && Emitted(c, a, e).Site? && (a.Site? ==> a.sp >= 0)
    ensures a.Site? && Holding(c, a, Emitted(c, a, e), Code(e, a.sp), a.sp + 1)
    decreases e, 1
  {
    hide Holding, Assembled, RelsOf, Prepared, Adjusted, CallSite;
    var b := Emitted(c, a, e);
    match e
    case Const(w) => HoldingOne(c, a, b, Load(w), a.sp + 1);
    case Both(op, l, r) => EmitsBoth(c, a, op, l, r);
    case Apply(f, args) => EmitsCall(c, a, f, args);
  }

  lemma {:induction false} EmitsBoth(c: Scope, a: Site, op: TotalOp, l: FExpr, r: FExpr)
    requires InScope(c) && Emitted(c, a, Both(op, l, r)).Site? && (a.Site? ==> a.sp >= 0)
    ensures a.Site? && Holding(c, a, Emitted(c, a, Both(op, l, r)), Code(Both(op, l, r), a.sp), a.sp + 1)
    decreases Both(op, l, r), 0
  {
    hide Holding, Assembled, RelsOf, Emitted, Code, OpByte, Put;
    var m1 := Emitted(c, a, l);
    var m2 := Emitted(c, m1, r);
    var b := Emitted(c, a, Both(op, l, r));
    BothUnfolds(c, a, op, l, r);
    StaysBroken(c, m1, r);
    EmitsCode(c, a, l);
    HoldingSp(c, a, m1, Code(l, a.sp), a.sp + 1);
    EmitsCode(c, m1, r);
    HoldingSp(c, m1, m2, Code(r, a.sp + 1), a.sp + 2);
    HoldingTwice(c, a, m1, m2, Code(l, a.sp), a.sp + 1, Code(r, a.sp + 1), a.sp + 2);
    HoldingOne(c, m2, b, Operate(op), a.sp + 1);
    HoldingTwice(c, a, m2, b, Code(l, a.sp) + Code(r, a.sp + 1), a.sp + 2, [Operate(op)], a.sp + 1);
    BothCode(op, l, r, a.sp);
  }

  lemma {:induction false} BothUnfolds(c: Scope, a: Site, op: TotalOp, l: FExpr, r: FExpr)
    requires InScope(c) && Emitted(c, a, Both(op, l, r)).Site?
    ensures var m, b := Emitted(c, Emitted(c, a, l), r), Emitted(c, a, Both(op, l, r));
            m.Site? && b.out == m.out + [OpByte(op)] && b.sp == m.sp - 1 && b.rels == m.rels
  {
    hide OpByte;
  }

  lemma {:induction false} BothCode(op: TotalOp, l: FExpr, r: FExpr, sp: nat)
    ensures Code(Both(op, l, r), sp) == Code(l, sp) + Code(r, sp + 1) + [Operate(op)]
  {
  }

  lemma {:induction false} HoldingSp(c: Scope, a: Site, b: Site, steps: seq<Pending.Step>, n: int)
    requires InScope(c) && Holding(c, a, b, steps, n)
    ensures a.Site? && b.Site? && b.sp == n
  {
  }

  lemma {:induction false} EmitsArgs(c: Scope, a: Site, args: FArgs)
    requires InScope(c) && EmittedArgs(c, a, args).Site? && (a.Site? ==> a.sp == 0)
    ensures a.Site? && Holding(c, a, EmittedArgs(c, a, args), ArgsCode(args), Count(args))
    decreases args, 0
  {
    hide Holding, Emitted;
    if args.Args? {
      var m := EmittedArgs(c, a, args.init);
      StaysBroken(c, m, args.last);
      EmitsArgs(c, a, args.init);
      HoldingSp(c, a, m, ArgsCode(args.init), Count(args.init));
      EmitsCode(c, m, args.last);
      HoldingTwice(c, a, m, EmittedArgs(c, a, args), ArgsCode(args.init), Count(args.init), Code(args.last, Count(args.init)), Count(args.init) + 1);
    } else {
      HoldingNone(c, a);
    }
  }

  lemma {:induction false} StaysBroken(c: Scope, a: Site, e: FExpr)
    requires InScope(c)
    ensures a.Broken? ==> Emitted(c, a, e).Broken?
    decreases e, 1
  {
    if a.Broken? {
      match e
      case Const(_) =>
      case Both(_, l, r) =>
        StaysBroken(c, a, l);
        StaysBroken(c, Emitted(c, a, l), r);
      case Apply(f, args) => ArgsStayBroken(c, Prepared(a), args);
    }
  }

  lemma {:induction false} ArgsStayBroken(c: Scope, a: Site, args: FArgs)
    requires InScope(c)
    ensures a.Broken? ==> EmittedArgs(c, a, args).Broken?
    decreases args, 0
  {
    if args.Args? {
      ArgsStayBroken(c, a, args.init);
      StaysBroken(c, EmittedArgs(c, a, args.init), args.last);
    }
  }

  lemma {:induction false} EmitsCall(c: Scope, a: Site, f: nat, args: FArgs)
    requires InScope(c) && Emitted(c, a, Apply(f, args)).Site? && (a.Site? ==> a.sp >= 0)
    ensures a.Site? && Holding(c, a, Emitted(c, a, Apply(f, args)), Code(Apply(f, args), a.sp), a.sp + 1)
    decreases args, 2
  {
    var m1 := Prepared(a);
    var m2 := EmittedArgs(c, m1, args);
    var m3 := CallSite(m2, ProcOf(c, f), c.level);
    ArgsStayBroken(c, m1, args);
    assert m3.Site? && m2.Site? && m1.Site? && a.Site?;
    var b := Emitted(c, a, Apply(f, args));
    PreparedHolds(c, a);
    CallHolds(c, m2, f, Count(args));
    AdjustedHolds(c, m3, a.sp);
    hide Holding, Emitted, EmittedArgs, Prepared, CallSite, Adjusted;
    EmitsArgs(c, m1, args);
    HoldingSp(c, m1, m2, ArgsCode(args), Count(args));
    HoldingTwice(c, a, m1, m2, Prep(a.sp), 0, ArgsCode(args), Count(args));
    HoldingTwice(c, a, m2, m3, Prep(a.sp) + ArgsCode(args), Count(args), [Call(f, Count(args))], Count(args));
    HoldingTwice(c, a, m3, b, Prep(a.sp) + ArgsCode(args) + [Call(f, Count(args))], Count(args), Adjust(a.sp), a.sp + 1);
  }

  lemma {:induction false} PreparedHolds(c: Scope, a: Site)
    requires InScope(c) && Prepared(a).Site? && (a.Site? ==> a.sp >= 0)
    ensures a.Site? && Holding(c, a, Prepared(a), Prep(a.sp), 0)
  {
    if a.sp > 0 {
      HoldingOne(c, a, Prepared(a), Store, 0);
    } else {
      HoldingNone(c, a);
    }
  }

  lemma {:induction false} CallHolds(c: Scope, a: Site, f: nat, n: nat)
    requires InScope(c) && CallSite(a, ProcOf(c, f), c.level).Site?
    ensures a.Site? && Holding(c, a, CallSite(a, ProcOf(c, f), c.level), [Call(f, n)], a.sp)
  {
    var q := ProcOf(c, f);
    if q.pmod != 0 {
      assert a.out + [0xED] + [q.pmod % 0x100, q.num % 0x100] == a.out + [0xED, q.pmod % 0x100, q.num % 0x100];
    }
    HoldingOne(c, a, CallSite(a, q, c.level), Call(f, n), a.sp);
  }

  lemma {:induction false} AdjustedHolds(c: Scope, a: Site, n: int)
    requires InScope(c) && Adjusted(a, n, 1).Site? && n >= 0
    ensures a.Site? && Holding(c, a, Adjusted(a, n, 1), Adjust(n), n + 1)
  {
    var b := Adjusted(a, n, 1);
    if n > 0 {
      HoldingOne(c, Counted(a, n), b, Reload, n + 1);
    } else {
      HoldingNone(c, b);
    }
  }

  /** The compiler's way through an expression with calls. */
  method Expression(g: Generator, t: RelocTable, c: Scope, e: FExpr)
    requires g.Valid() && t.Valid() && Apart(g, t) && InScope(c) && c.level == g.curLev
    modifies g`pc, g`sp, g`failed, g.code, t`relx, t.tab
    ensures g.Valid() && t.Valid() && Here(g, t) == Emitted(c, old(Here(g, t)), e)
    decreases e, 1
  {
    hide Wrap, DecodePlain, OpByte, Visible;
    match e {
      case Const(w) => g.PutLit(w);
      case Both(op, l, r) =>
        Expression(g, t, c, l);
        Expression(g, t, c, r);
        g.PutOpD(OpByte(op));
      case Apply(f, args) =>
        ghost var a := Here(g, t);
        var waiting := PrepCall(g, t);
        ArgsStayBroken(c, Prepared(a), args);
        Parameters(g, t, c, args);
        GenCall(g, t, ProcOf(c, f), waiting, 1);
    }
  }

  method Parameters(g: Generator, t: RelocTable, c: Scope, args: FArgs)
    requires g.Valid() && t.Valid() && Apart(g, t) && InScope(c) && c.level == g.curLev
    modifies g`pc, g`sp, g`failed, g.code, t`relx, t.tab
    ensures g.Valid() && t.Valid() && Here(g, t) == EmittedArgs(c, old(Here(g, t)), args)
    decreases args, 0
  {
    if args.Args? {
      Parameters(g, t, c, args.init);
      Expression(g, t, c, args.last);
    }
  }

  // --------------------------------------------------- the table for the loader

  /** The place of a module number in these bytes: behind the operation code of CLX. */
  predicate CallAt(code: seq<byte>, r: nat) {
    0 < r < |code| && code[r - 1] == 0xED
  }

  /** All these places, in code that begins at `at`. */
  predicate AllCalls(code: seq<byte>, rels: seq<nat>, at: nat) {
    forall k :: 0 <= k < |rels| ==> at < rels[k] && CallAt(code, rels[k] - at)
  }

  lemma {:induction false} StepNoted(c: Scope, s: Pending.Step, at: nat)
    requires InScope(c) && StepBytes(c, s).Some?
    ensures var b := StepBytes(c, s).value;
            var here := if s.Call? && ProcOf(c, s.f).pmod != 0 then [at + 1] else [];
            Noted(here, at, at + |b|) && AllCalls(b, here, at)
  {
  }

  /** Every place noted for the code of an expression is the module number of a CLX, and no two of them
      are next to each other. */
  lemma {:induction false} RelsNoted(c: Scope, steps: seq<Pending.Step>, at: nat)
    requires InScope(c) && Assembled(c, steps).Some?
    ensures var code, rels := Assembled(c, steps).value, RelsOf(c, steps, at);
            Noted(rels, at, at + |code|) && AllCalls(code, rels, at)
    decreases |steps|
  {
    hide StepBytes, Noted, AllCalls;
    if steps == [] {
      NotedNone(at);
    } else {
      var b, rest := StepBytes(c, steps[0]).value, Assembled(c, steps[1..]).value;
      var here := if steps[0].Call? && ProcOf(c, steps[0].f).pmod != 0 then [at + 1] else [];
      StepNoted(c, steps[0], at);
      RelsNoted(c, steps[1..], at + |b|);
      var more := RelsOf(c, steps[1..], at + |b|);
      NotedJoin(here, more, at, at + |b|, at + |b| + |rest|);
      CallsJoin(b, rest, here, more, at);
    }
  }

  lemma {:induction false} CallsJoin(b: seq<byte>, rest: seq<byte>, here: seq<nat>, more: seq<nat>, at: nat)
    requires AllCalls(b, here, at) && AllCalls(rest, more, at + |b|)
    ensures AllCalls(b + rest, here + more, at)
  {
    hide CallAt;
    forall k | 0 <= k < |here + more|
      ensures at < (here + more)[k] && CallAt(b + rest, (here + more)[k] - at)
    {
      if k < |here| {
        CallKept(b, rest, here[k] - at);
      } else {
        CallBehind(b, rest, more[k - |here|] - (at + |b|));
      }
    }
  }

  lemma {:induction false} CallKept(a: seq<byte>, b: seq<byte>, r: nat)
    requires CallAt(a, r)
    ensures CallAt(a + b, r)
  {
  }

  lemma {:induction false} CallBehind(a: seq<byte>, b: seq<byte>, r: nat)
    requires CallAt(b, r)
    ensures CallAt(a + b, |a| + r)
  {
    assert (a + b)[|a| + r - 1] == b[r - 1];
  }

  lemma {:induction false} NotedNone(at: nat)
    ensures Noted([], at, at) && AllCalls([], [], at)
  {
  }

  /** The relocation table stays in order, with room between its places, while an expression is put
      down. */
  lemma {:induction false} EmitsNoted(c: Scope, a: Site, e: FExpr)
    requires InScope(c) && a.Site? && a.sp >= 0 && Emitted(c, a, e).Site?
    requires Noted(a.rels, 0, |a.out|) && AllCalls(a.out, a.rels, 0)
    ensures var b := Emitted(c, a, e); Noted(b.rels, 0, |b.out|) && AllCalls(b.out, b.rels, 0)
  {
    hide Noted, Code, Emitted, Assembled, RelsOf, AllCalls;
    EmitsCode(c, a, e);
    var b, steps := Emitted(c, a, e), Code(e, a.sp);
    RelsNoted(c, steps, |a.out|);
    var more := RelsOf(c, steps, |a.out|);
    NotedJoin(a.rels, more, 0, |a.out|, |b.out|);
    CallsJoin(a.out, Assembled(c, steps).value, a.rels, more, 0);
  }

  /** Code with the table of its calls is relocated if and only if every module number in it is that of
      an import. */
  lemma {:induction false} CallsFixed(code: seq<byte>, rels: seq<nat>, locs: seq<word>, places: seq<byte>)
    requires Noted(rels, 0, |code|) && AllCalls(code, rels, 0) && locs == rels
    ensures Fixed(code, locs, places).Some? <==> forall k :: 0 <= k < |locs| ==> 1 <= code[locs[k]] <= |places|
  {
    NotedSpaced(rels, locs, 0, |code|);
    FixedWhen(code, locs, places);
    assert forall k :: 0 <= k < |locs| ==> CallAt(code, rels[k]) && Sound(code, locs[k], |places|) == (1 <= code[locs[k]] <= |places|);
  }
}
