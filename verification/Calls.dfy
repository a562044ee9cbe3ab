/** Procedure calls over whole runs: every return restores the caller, and the static link of
    every live activation leads to an older live activation of its lexical parent. */
module Calls {
  import opened Words
  import opened Options
  import opened MCode

  /** A procedure: its module and number there, the level of its body (0 for a module body), and
      the procedure it is declared in, when that is not the module. */
  datatype Proc = Proc(modn: nat, num: nat, level: nat, parent: nat)

  /** The registers a call has to bring back. */
  datatype Regs = Regs(modn: nat, pc: word, g: word, l: word, cs: word, s: word)

  /** A live activation: its frame, its procedure, the stack index of its lexical parent's
      activation, whether it was called from another module, and its caller's registers. */
  datatype Activation = Activation(base: word, proc: nat, up: nat, far: bool, caller: Regs)

  function RegsOf(st: State): Regs {
    Regs(st.modn, st.pc, st.g, st.l, st.cs, st.s)
  }

  // ------------------------------------------------------------- the procedures

  predicate Declared(procs: seq<Proc>) {
    forall i :: 0 <= i < |procs| ==>
      && procs[i].modn < 0x100
      && (procs[i].level >= 2 ==>
            && procs[i].parent < |procs| && procs[procs[i].parent].level == procs[i].level - 1
            && procs[procs[i].parent].modn == procs[i].modn)
  }

  /** The n-th lexical ancestor of a procedure. */
  function Ancestor(procs: seq<Proc>, i: nat, n: nat): (r: nat)
    requires Declared(procs) && i < |procs| && n < procs[i].level
    ensures r < |procs| && procs[r].level == procs[i].level - n && procs[r].modn == procs[i].modn
    decreases n
  {
    if n == 0 then i else Ancestor(procs, procs[i].parent, n - 1)
  }

  /** Procedure q may be called by its name in the body of procedure i. */
  predicate Visible(procs: seq<Proc>, i: nat, q: nat)
    requires Declared(procs)
  {
    && i < |procs| && q < |procs| && procs[q].modn == procs[i].modn && procs[q].level >= 1
    && (procs[q].level >= 2 ==>
          && procs[q].level - 1 <= procs[i].level
          && procs[q].parent == Ancestor(procs, i, procs[i].level - (procs[q].level - 1)))
  }

  /** `GenCall` for a procedure of the same module, called at level `level`: CLL, or the frame of
      its lexical parent and CLI. */
  function CallCode(q: Proc, level: nat): seq<Instr>
    requires 1 <= q.level && q.num < 0x100
  {
    var declared := q.level - 1;
    if declared == 0 || declared >= level then [CallLocal(q.num)]
    else [Base((level - declared) % 0x100), CallLevel(q.num)]
  }

  // ------------------------------------------------------------- the live stack

  /** What the memory says about the i-th activation. */
  ghost predicate FrameHolds(p: seq<Module>, procs: seq<Proc>, mem: memory, stack: seq<Activation>, i: nat)
    requires Declared(procs) && i < |stack|
  {
    var a := stack[i];
    && a.proc < |procs| && a.base as int + 4 < MEM_SIZE && a.base < 0xFF00
    && procs[a.proc].modn < |p|
    && (i > 0 ==>
          var below := stack[i - 1];
          && below.proc < |procs| && below.base + 4 <= a.base
          && a.caller.l == a.caller.cs == below.base && a.caller.s == a.base
          && a.caller.modn == procs[below.proc].modn < |p| && a.caller.g == p[a.caller.modn].dataOfs
          && (!a.far ==> procs[a.proc].modn == a.caller.modn)
          && mem[a.base] == (if a.far then a.caller.modn else below.base + 0x100)
          && (a.far ==> mem[a.base + 1] == below.base)
          && mem[a.base + 2] == a.caller.pc)
    && (procs[a.proc].level >= 2 ==>
          && a.up < i && stack[a.up].proc == procs[a.proc].parent
          && mem[a.base + 1] == stack[a.up].base)
  }

  /** Procedures are declared ones, and lexical parents are live below their children. */
  predicate Rooted(procs: seq<Proc>, stack: seq<Activation>)
    requires Declared(procs)
  {
    forall k :: 0 <= k < |stack| ==>
      && stack[k].proc < |procs|
      && (procs[stack[k].proc].level >= 2 ==> stack[k].up < k && stack[stack[k].up].proc == procs[stack[k].proc].parent)
  }

  ghost predicate Live(p: seq<Module>, procs: seq<Proc>, st: State, stack: seq<Activation>) {
    && Declared(procs) && stack != [] && Rooted(procs, stack)
    && (forall i :: 0 <= i < |stack| ==> FrameHolds(p, procs, st.mem, stack, i))
    && var top := stack[|stack| - 1];
       && st.l == st.cs == top.base && top.base as int + 4 <= st.s as int
       && st.modn == procs[top.proc].modn && st.modn < |p| && st.g == p[st.modn].dataOfs
  }

  // ------------------------------------------------------------- static links

  /** The activation n static links up from activation i. */
  function Up(procs: seq<Proc>, stack: seq<Activation>, i: nat, n: nat): (r: nat)
    requires Declared(procs) && Rooted(procs, stack) && i < |stack|
    requires n < procs[stack[i].proc].level
    ensures r <= i && (n > 0 ==> r < i) && stack[r].proc == Ancestor(procs, stack[i].proc, n)
    decreases n
  {
    if n == 0 then i else Up(procs, stack, stack[i].up, n - 1)
  }

  /** GB yields the frame of the activation n levels out, which is live and older. */
  lemma {:induction false} ChainIsUp(p: seq<Module>, procs: seq<Proc>, st: State, stack: seq<Activation>, i: nat, n: nat)
    requires Live(p, procs, st, stack) && i < |stack| && n < procs[stack[i].proc].level
    ensures Chain(st.mem, stack[i].base, n) == Some(stack[Up(procs, stack, i, n)].base)
    decreases n
  {
    assert FrameHolds(p, procs, st.mem, stack, i);
    if n > 0 {
      ChainIsUp(p, procs, st, stack, stack[i].up, n - 1);
    }
  }

  /** In every reachable state the base address computed for an outer level belongs to a live
      activation of the lexical ancestor at that level. */
  lemma {:induction false} BaseIsLive(p: seq<Module>, procs: seq<Proc>, st: State, stack: seq<Activation>, n: byte)
    requires Live(p, procs, st, stack) && Declared(procs) && Rooted(procs, stack) && stack != [] && stack[|stack| - 1].proc < |procs|
    requires 0 < n < procs[stack[|stack| - 1].proc].level && st.modn < |p| && |st.es| < EXS_SIZE
    ensures var t := |stack| - 1;
            var a := Up(procs, stack, t, n);
            && Exec(p, st, Base(n)) == Some(st.(es := st.es + [stack[a].base]))
            && a < t && stack[a].proc == Ancestor(procs, stack[t].proc, n)
  {
    hide FrameHolds, Chain;
    ChainIsUp(p, procs, st, stack, |stack| - 1, n);
    BaseEffect(p, st, n, stack[Up(procs, stack, |stack| - 1, n)].base);
  }

  lemma {:induction false} BaseEffect(p: seq<Module>, st: State, n: byte, b: word)
    requires n > 0 && Chain(st.mem, st.l, n) == Some(b) && st.modn < |p| && |st.es| < EXS_SIZE
    ensures Exec(p, st, Base(n)) == Some(st.(es := st.es + [b]))
  {
    hide Chain;
  }

  // ------------------------------------------------------------------- calls

  /** The new activation of a call to q; up is where its lexical parent's activation is. */
  function Called(st: State, stack: seq<Activation>, q: nat, up: nat, far: bool): seq<Activation> {
    stack + [Activation(st.s, q, up, far, RegsOf(st))]
  }

  /** There is room for a frame. */
  predicate Roomy(st: State) {
    st.s as int + 8 < MEM_SIZE && st.s < 0xFF00
  }

  /** Opening a frame keeps everything, whichever call does it. */
  lemma {:induction false} MarkKeeps(p: seq<Module>, procs: seq<Proc>, st: State, stack: seq<Activation>, q: nat, up: nat, far: bool, ct: CallType, arg: word, to: State)
    requires Live(p, procs, st, stack) && Roomy(st) && q < |procs| && procs[q].modn < |p|
    requires Mark(st, ct, arg).Some?
    requires to == Mark(st, ct, arg).value.(modn := procs[q].modn, g := p[procs[q].modn].dataOfs, pc := to.pc)
    requires if far then (ct == ToExternal || ct == ToFormal) && arg == st.modn else (ct == ToLocal || ct == ToLevel) && procs[q].modn == st.modn
    requires procs[q].level >= 2 ==>
               && up < |stack| && stack[up].proc == procs[q].parent
               && (if ct == ToLevel then arg else st.l) == stack[up].base
    ensures Live(p, procs, to, Called(st, stack, q, up, far))
  {
    hide Declared;
    var now := Called(st, stack, q, up, far);
    var t := |stack| - 1;
    forall i | 0 <= i < |now|
      ensures FrameHolds(p, procs, to.mem, now, i)
    {
      if i < |stack| {
        assert FrameHolds(p, procs, st.mem, stack, i);
        BelowTop(p, procs, st, stack, i);
      } else {
        assert FrameHolds(p, procs, st.mem, stack, t);
      }
    }
  }

  /** All live frames lie below the memory stack's top. */
  lemma {:induction false} BelowTop(p: seq<Module>, procs: seq<Proc>, st: State, stack: seq<Activation>, i: nat)
    requires Live(p, procs, st, stack) && i < |stack|
    ensures stack[i].base as int + 4 <= st.s as int
    decreases |stack| - i
  {
    if i + 1 < |stack| {
      assert FrameHolds(p, procs, st.mem, stack, i + 1);
      BelowTop(p, procs, st, stack, i + 1);
    }
  }

  /** CLL, as `GenCall` uses it: for procedures of level 1 and for those declared in the caller. */
  lemma {:induction false} LocalCall(p: seq<Module>, procs: seq<Proc>, st: State, stack: seq<Activation>, q: nat)
    requires Live(p, procs, st, stack) && Roomy(st) && st.modn < |p| && Visible(procs, stack[|stack| - 1].proc, q)
    requires procs[q].level == 1 || procs[q].level - 1 == procs[stack[|stack| - 1].proc].level
    requires procs[q].num < 0x100 && procs[q].num < |p[st.modn].proc|
    ensures var t := |stack| - 1;
            var o := Exec(p, st, CallLocal(procs[q].num));
            && o.Some? && o.value.pc == p[st.modn].proc[procs[q].num] && Live(p, procs, o.value, Called(st, stack, q, t, false))
  {
    hide FrameHolds;
    var to := Exec(p, st, CallLocal(procs[q].num)).value;
    MarkKeeps(p, procs, st, stack, q, |stack| - 1, false, ToLocal, 0, to);
  }

  /** GB and CLI, for procedures declared in between. */
  lemma {:induction false} LevelCall(p: seq<Module>, procs: seq<Proc>, st: State, stack: seq<Activation>, q: nat, n: nat)
    requires Live(p, procs, st, stack) && Roomy(st) && st.modn < |p| && Visible(procs, stack[|stack| - 1].proc, q)
    requires procs[q].level >= 2 && 0 < n < 0x100 && n == procs[stack[|stack| - 1].proc].level - (procs[q].level - 1)
    requires procs[q].num < 0x100 && procs[q].num < |p[st.modn].proc| && |st.es| < EXS_SIZE
    ensures var one := Exec(p, st, Base(n));
            && one.Some?
            && var o := Exec(p, one.value, CallLevel(procs[q].num));
               && o.Some? && o.value.pc == p[st.modn].proc[procs[q].num] && o.value.es == st.es
               && Live(p, procs, o.value, Called(st, stack, q, Up(procs, stack, |stack| - 1, n), false))
  {
    hide FrameHolds, Exec, Chain, Ancestor;
    BaseIsLive(p, procs, st, stack, n);
    var a := Up(procs, stack, |stack| - 1, n);
    LevelEffect(p, st, stack[a].base, procs[q].num);
    var to := Exec(p, st.(es := st.es + [stack[a].base]), CallLevel(procs[q].num)).value;
    MarkKeeps(p, procs, st, stack, q, a, false, ToLevel, stack[a].base, to);
  }

  lemma {:induction false} LevelEffect(p: seq<Module>, st: State, b: word, n: byte)
    requires st.modn < |p| && n < |p[st.modn].proc| && Roomy(st)
    ensures Exec(p, st.(es := st.es + [b]), CallLevel(n))
         == Some(Mark(st, ToLevel, b).value.(pc := p[st.modn].proc[n]))
  {
    var one := st.(es := st.es + [b]);
    assert Pop(one, 1) == st && Top(one) == b;
  }

  /** CLX and CLF reach procedures of level 1 in any module. */
  lemma {:induction false} FarCall(p: seq<Module>, procs: seq<Proc>, st: State, stack: seq<Activation>, q: nat, formal: bool)
    requires Live(p, procs, st, stack) && Roomy(st) && st.modn < |p| && q < |procs| && procs[q].level <= 1
    requires procs[q].num < 0x100 && procs[q].modn < |p| && procs[q].num < |p[procs[q].modn].proc|
    requires formal ==> st.s > 0 && st.mem[st.s - 1] == procs[q].modn * 0x100 + procs[q].num
    requires !formal ==> procs[q].modn != 0 || procs[q].num != 0
    ensures var t := |stack| - 1;
            var o := Exec(p, st, if formal then CallFormal else CallExt(procs[q].modn, procs[q].num));
            && o.Some? && o.value.pc == p[procs[q].modn].proc[procs[q].num] && Live(p, procs, o.value, Called(st, stack, q, t, true))
  {
    assert st.modn == procs[stack[|stack| - 1].proc].modn < 0x100;
    hide FrameHolds, Exec, Rooted, CallAway, Mark, Live, Roomy;
    FarTarget(p, st, procs[q].modn, procs[q].num, formal);
    var ct := if formal then ToFormal else ToExternal;
    var to := GoesAway(p, st, ct, procs[q].modn, procs[q].num);
    MarkKeeps(p, procs, st, stack, q, |stack| - 1, true, ct, st.modn, to);
  }

  lemma {:induction false} GoesAway(p: seq<Module>, st: State, ct: CallType, m: nat, n: nat) returns (to: State)
    requires Roomy(st) && st.modn < 0x100 && m < |p| && n < |p[m].proc|
    ensures CallAway(p, st, ct, m, n) == Some(to) && Mark(st, ct, st.modn).Some?
    ensures to == Mark(st, ct, st.modn).value.(modn := m, g := p[m].dataOfs, pc := p[m].proc[n])
  {
    to := CallAway(p, st, ct, m, n).value;
  }

  /** Both calls go to the module and the number they name. */
  lemma {:induction false} FarTarget(p: seq<Module>, st: State, m: byte, n: byte, formal: bool)
    requires st.modn < |p| && (if formal then st.s > 0 && st.mem[st.s - 1] == m * 0x100 + n else m != 0 || n != 0)
    ensures Exec(p, st, if formal then CallFormal else CallExt(m, n)) == CallAway(p, st, if formal then ToFormal else ToExternal, m, n)
  {
    assert m * 0x100 + n < 0x1_0000 && (m * 0x100 + n) / 0x100 == m && (m * 0x100 + n) % 0x100 == n;
  }

  // ------------------------------------------------------------------ returns

  /** RTN brings back the caller's module, data frame, program counter, L, CS and S. */
  lemma {:induction false} ReturnRestores(p: seq<Module>, procs: seq<Proc>, st: State, stack: seq<Activation>)
    requires Live(p, procs, st, stack) && |stack| >= 2 && st.modn < |p|
    ensures var t := |stack| - 1;
            var o := Exec(p, st, Return);
            && o.Some? && RegsOf(o.value) == stack[t].caller && o.value.mem == st.mem && o.value.es == st.es
            && Live(p, procs, o.value, stack[..t])
  {
    var t := |stack| - 1;
    assert FrameHolds(p, procs, st.mem, stack, t);
    assert FrameHolds(p, procs, st.mem, stack, t - 1);
    var now := stack[..t];
    forall i | 0 <= i < |now|
      ensures FrameHolds(p, procs, st.mem, now, i)
    {
      assert FrameHolds(p, procs, st.mem, stack, i);
    }
  }

  // --------------------------------------------------------------------- runs

  /** What happens next in a run: a call as the generator compiles it, a return, or any
      instructions that leave the registers and the frames of live activations alone. */
  datatype Move = Near(q: nat) | Far(q: nat, formal: bool) | Leave | Work(next: State)

  predicate FrameWord(stack: seq<Activation>, k: int) {
    exists i :: 0 <= i < |stack| && stack[i].base as int <= k <= stack[i].base as int + 2
  }

  ghost predicate Undisturbed(st: State, next: State, stack: seq<Activation>) {
    && stack != [] && next.modn == st.modn && next.g == st.g && next.l == st.l && next.cs == st.cs
    && stack[|stack| - 1].base as int + 4 <= next.s as int
    && forall k :: 0 <= k < MEM_SIZE && FrameWord(stack, k) ==> next.mem[k] == st.mem[k]
  }

  function ExecAll(p: seq<Module>, st: State, code: seq<Instr>): Option<State>
    requires st.modn < |p|
    decreases |code|
  {
    if code == [] then Some(st)
    else
      match Exec(p, st, code[0])
      case None => None
      case Some(b) => if b.modn < |p| then ExecAll(p, b, code[1..]) else None
  }

  /** What the compiler and the loader guarantee about a move. */
  ghost predicate Legal(p: seq<Module>, procs: seq<Proc>, st: State, stack: seq<Activation>, m: Move)
    requires Declared(procs)
  {
    && stack != [] && st.modn < |p| && stack[|stack| - 1].proc < |procs|
    && match m
       case Near(q) =>
         && Visible(procs, stack[|stack| - 1].proc, q) && procs[stack[|stack| - 1].proc].level < 0x100
         && procs[q].num < 0x100 && procs[q].num < |p[st.modn].proc| && Roomy(st) && |st.es| < EXS_SIZE
       case Far(q, formal) =>
         && q < |procs| && procs[q].level <= 1 && procs[q].num < 0x100 && procs[q].modn < |p|
         && procs[q].num < |p[procs[q].modn].proc| && Roomy(st)
         && (if formal then st.s > 0 && st.mem[st.s - 1] == procs[q].modn * 0x100 + procs[q].num
             else procs[q].modn != 0 || procs[q].num != 0)
       case Leave => |stack| >= 2
       case Work(next) => Undisturbed(st, next, stack)
  }

  /** The stack index of the lexical parent of a called procedure. */
  function ParentOf(procs: seq<Proc>, stack: seq<Activation>, q: nat): nat
    requires Declared(procs) && Rooted(procs, stack) && stack != [] && Visible(procs, stack[|stack| - 1].proc, q)
  {
    var t := |stack| - 1;
    var level, declared := procs[stack[t].proc].level, procs[q].level - 1;
    if declared == 0 || declared >= level then t else Up(procs, stack, t, level - declared)
  }

  function MoveInstr(procs: seq<Proc>, stack: seq<Activation>, m: Move): seq<Instr>
    requires Declared(procs) && stack != [] && stack[|stack| - 1].proc < |procs|
  {
    match m
    case Near(q) => if q < |procs| && procs[q].level >= 1 && procs[q].num < 0x100 then
                      CallCode(procs[q], procs[stack[|stack| - 1].proc].level) else []
    case Far(q, formal) => if formal then [CallFormal]
                           else if q < |procs| && procs[q].num < 0x100 && procs[q].modn < 0x100 then
                             [CallExt(procs[q].modn, procs[q].num)] else []
    case Leave => [Return]
    case Work(_) => []
  }

  /** One move of the machine, with the ghost stack beside it. */
  ghost function Moved(p: seq<Module>, procs: seq<Proc>, st: State, stack: seq<Activation>, m: Move): Option<(State, seq<Activation>)>
    requires Declared(procs) && Rooted(procs, stack) && Legal(p, procs, st, stack, m)
  {
    match m
    case Near(q) =>
      (match ExecAll(p, st, MoveInstr(procs, stack, m))
       case None => None
       case Some(b) => Some((b, Called(st, stack, q, ParentOf(procs, stack, q), false))))
    case Far(q, _) =>
      (match ExecAll(p, st, MoveInstr(procs, stack, m))
       case None => None
       case Some(b) => Some((b, Called(st, stack, q, |stack| - 1, true))))
    case Leave =>
      (match ExecAll(p, st, [Return])
       case None => None
       case Some(b) => Some((b, stack[..|stack| - 1])))
    case Work(next) => Some((next, stack))
  }

  lemma {:induction false} ExecOne(p: seq<Module>, st: State, i: Instr)
    requires st.modn < |p|
    ensures ExecAll(p, st, [i]) == match Exec(p, st, i) case None => None case Some(b) => if b.modn < |p| then Some(b) else None
  {
    hide Exec;
    assert [i][1..] == [];
  }

  lemma {:induction false} ExecTwo(p: seq<Module>, st: State, i: Instr, j: Instr)
    requires st.modn < |p| && Exec(p, st, i).Some? && Exec(p, st, i).value.modn < |p|
    ensures ExecAll(p, st, [i, j]) == ExecAll(p, Exec(p, st, i).value, [j])
  {
    hide Exec;
    assert [i, j][1..] == [j];
  }

  /** Every legal move succeeds, and keeps every live activation in order. */
  lemma {:induction false} MoveKeeps(p: seq<Module>, procs: seq<Proc>, st: State, stack: seq<Activation>, m: Move)
    requires Live(p, procs, st, stack) && Legal(p, procs, st, stack, m)
    ensures Moved(p, procs, st, stack, m).Some?
    ensures var (b, now) := Moved(p, procs, st, stack, m).value; Live(p, procs, b, now)
  {
    match m
    case Near(q) => NearKeeps(p, procs, st, stack, q);
    case Far(q, formal) =>
      FarCall(p, procs, st, stack, q, formal);
      ExecOne(p, st, if formal then CallFormal else CallExt(procs[q].modn, procs[q].num));
    case Leave =>
      ReturnRestores(p, procs, st, stack);
      ExecOne(p, st, Return);
    case Work(next) => WorkKeeps(p, procs, st, stack, next);
  }

  lemma {:induction false} NearKeeps(p: seq<Module>, procs: seq<Proc>, st: State, stack: seq<Activation>, q: nat)
    requires Live(p, procs, st, stack) && Legal(p, procs, st, stack, Near(q))
    ensures var o := ExecAll(p, st, MoveInstr(procs, stack, Near(q)));
            o.Some? && Live(p, procs, o.value, Called(st, stack, q, ParentOf(procs, stack, q), false))
  {
    hide *;
    NearParts(p, procs, st, stack, q);
    CodeOf(procs, stack, q);
    var level, declared := procs[stack[|stack| - 1].proc].level, procs[q].level - 1;
    if declared == 0 || declared >= level {
      NearestKeeps(p, procs, st, stack, q);
    } else {
      LevelKeeps(p, procs, st, stack, q, level - declared);
    }
  }

  lemma {:induction false} NearParts(p: seq<Module>, procs: seq<Proc>, st: State, stack: seq<Activation>, q: nat)
    requires Live(p, procs, st, stack) && Legal(p, procs, st, stack, Near(q))
    ensures Declared(procs) && Rooted(procs, stack) && stack != [] && stack[|stack| - 1].proc < |procs| && q < |procs|
    ensures 1 <= procs[q].level <= procs[stack[|stack| - 1].proc].level + 1 && procs[q].num < 0x100
    ensures procs[stack[|stack| - 1].proc].level < 0x100
    ensures var level, declared := procs[stack[|stack| - 1].proc].level, procs[q].level - 1;
            ParentOf(procs, stack, q) == if declared == 0 || declared >= level then |stack| - 1 else Up(procs, stack, |stack| - 1, level - declared)
  {
    hide Exec, Ancestor, FrameHolds, Up;
  }

  lemma {:induction false} CodeOf(procs: seq<Proc>, stack: seq<Activation>, q: nat)
    requires Declared(procs) && stack != [] && stack[|stack| - 1].proc < |procs| && q < |procs|
    requires 1 <= procs[q].level && procs[q].num < 0x100 && procs[stack[|stack| - 1].proc].level < 0x100
    ensures var level, declared := procs[stack[|stack| - 1].proc].level, procs[q].level - 1;
            var code := if declared == 0 || declared >= level then [CallLocal(procs[q].num)]
                        else [Base(level - declared), CallLevel(procs[q].num)];
            MoveInstr(procs, stack, Near(q)) == code
  {
  }

  lemma {:induction false} NearestKeeps(p: seq<Module>, procs: seq<Proc>, st: State, stack: seq<Activation>, q: nat)
    requires Live(p, procs, st, stack) && Legal(p, procs, st, stack, Near(q))
    requires procs[q].level == 1 || procs[q].level - 1 == procs[stack[|stack| - 1].proc].level
    ensures var o := ExecAll(p, st, [CallLocal(procs[q].num)]);
            o.Some? && Live(p, procs, o.value, Called(st, stack, q, |stack| - 1, false))
  {
    hide Exec, Live, Ancestor, Rooted, ExecAll;
    LocalCall(p, procs, st, stack, q);
    ExecOne(p, st, CallLocal(procs[q].num));
    LiveModule(p, procs, Exec(p, st, CallLocal(procs[q].num)).value, Called(st, stack, q, |stack| - 1, false));
  }

  lemma {:induction false} LevelKeeps(p: seq<Module>, procs: seq<Proc>, st: State, stack: seq<Activation>, q: nat, n: nat)
    requires Live(p, procs, st, stack) && Legal(p, procs, st, stack, Near(q))
    requires procs[q].level >= 2 && 0 < n && n == procs[stack[|stack| - 1].proc].level - (procs[q].level - 1)
    ensures var o := ExecAll(p, st, [Base(n), CallLevel(procs[q].num)]);
            o.Some? && Live(p, procs, o.value, Called(st, stack, q, Up(procs, stack, |stack| - 1, n), false))
  {
    assert Declared(procs) && Rooted(procs, stack);
    hide Exec, Live, Ancestor, Rooted, ExecAll;
    LevelCall(p, procs, st, stack, q, n);
    var one := Exec(p, st, Base(n)).value;
    BaseKeepsModule(p, st, n);
    ExecTwo(p, st, Base(n), CallLevel(procs[q].num));
    ExecOne(p, one, CallLevel(procs[q].num));
    LiveModule(p, procs, Exec(p, one, CallLevel(procs[q].num)).value, Called(st, stack, q, Up(procs, stack, |stack| - 1, n), false));
  }

  lemma {:induction false} LiveModule(p: seq<Module>, procs: seq<Proc>, st: State, stack: seq<Activation>)
    requires Live(p, procs, st, stack)
    ensures st.modn < |p|
  {
  }

  lemma {:induction false} BaseKeepsModule(p: seq<Module>, st: State, n: byte)
    requires st.modn < |p| && Exec(p, st, Base(n)).Some?
    ensures Exec(p, st, Base(n)).value.modn == st.modn
  {
  }

  lemma {:induction false} WorkKeeps(p: seq<Module>, procs: seq<Proc>, st: State, stack: seq<Activation>, next: State)
    requires Live(p, procs, st, stack) && Undisturbed(st, next, stack)
    ensures Live(p, procs, next, stack)
  {
    forall i | 0 <= i < |stack|
      ensures FrameHolds(p, procs, next.mem, stack, i)
    {
      assert FrameHolds(p, procs, st.mem, stack, i);
      var b := stack[i].base as int;
      assert FrameWord(stack, b) && FrameWord(stack, b + 1) && FrameWord(stack, b + 2);
    }
  }

  // --------------------------------------------------------------- whole runs

  /** A run: states and stacks linked by legal moves. */
  ghost predicate IsRun(p: seq<Module>, procs: seq<Proc>, sts: seq<State>, stacks: seq<seq<Activation>>, ms: seq<Move>)
    requires Declared(procs)
  {
    && |sts| == |stacks| == |ms| + 1
    && forall i {:trigger ms[i]} :: 0 <= i < |ms| ==>
         && Rooted(procs, stacks[i]) && Legal(p, procs, sts[i], stacks[i], ms[i])
         && Moved(p, procs, sts[i], stacks[i], ms[i]) == Some((sts[i + 1], stacks[i + 1]))
  }

  /** Static-link safety and L = CS in every state of every run. */
  lemma {:induction false} RunIsLive(p: seq<Module>, procs: seq<Proc>, sts: seq<State>, stacks: seq<seq<Activation>>, ms: seq<Move>, i: nat)
    requires Declared(procs) && IsRun(p, procs, sts, stacks, ms) && i < |sts| && Live(p, procs, sts[0], stacks[0])
    ensures Live(p, procs, sts[i], stacks[i]) && sts[i].l == sts[i].cs
    decreases i
  {
    hide Moved, Legal, FrameHolds;
    if i > 0 {
      RunIsLive(p, procs, sts, stacks, ms, i - 1);
      assert 0 <= i - 1 < |ms| && ms[i - 1] == ms[i - 1];
      MoveKeeps(p, procs, sts[i - 1], stacks[i - 1], ms[i - 1]);
    }
  }

  /** While at least k activations are live, the lowest k stay what they were. */
  lemma {:induction false} LowestStay(p: seq<Module>, procs: seq<Proc>, sts: seq<State>, stacks: seq<seq<Activation>>, ms: seq<Move>, i: nat, j: nat, k: nat)
    requires Declared(procs) && IsRun(p, procs, sts, stacks, ms) && i <= j < |sts| && k <= |stacks[i]|
    requires forall n :: i <= n <= j ==> |stacks[n]| >= k
    ensures stacks[j][..k] == stacks[i][..k]
    decreases j - i
  {
    if i < j {
      LowestStay(p, procs, sts, stacks, ms, i, j - 1, k);
      assert ms[j - 1] == ms[j - 1];
      assert Moved(p, procs, sts[j - 1], stacks[j - 1], ms[j - 1]) == Some((sts[j], stacks[j]));
    }
  }

  /** Call and return: in any run, between a call at step i and the return that ends it before
      step j, however calls are nested in between, the caller's module, data frame, program
      counter, L, CS and S come back as they were at the call. */
  lemma {:induction false} CallConserves(p: seq<Module>, procs: seq<Proc>, sts: seq<State>, stacks: seq<seq<Activation>>, ms: seq<Move>, i: nat, j: nat)
    requires Declared(procs) && IsRun(p, procs, sts, stacks, ms) && i < j < |sts| && Live(p, procs, sts[0], stacks[0])
    requires ms[i].Near? || ms[i].Far?
    requires |stacks[j]| == |stacks[i]| && forall n :: i < n < j ==> |stacks[n]| > |stacks[i]|
    ensures ms[j - 1] == Leave && RegsOf(sts[j]) == RegsOf(sts[i]) && stacks[j] == stacks[i]
  {
    hide Legal, Live, Exec, Rooted, FrameHolds, Moved, Declared, RegsOf, MoveInstr, ParentOf, Visible, Undisturbed, ExecAll, Called;
    var k := |stacks[i]|;
    CallPushes(p, procs, sts, stacks, ms, i);
    assert j > i + 1;
    LowestStay(p, procs, sts, stacks, ms, i + 1, j - 1, k + 1);
    RunIsLive(p, procs, sts, stacks, ms, j - 1);
    ReturnPops(p, procs, sts, stacks, ms, j - 1);
    assert stacks[j - 1][..k + 1] == stacks[j - 1];
    assert stacks[j - 1][k] == stacks[i + 1][..k + 1][k];
  }

  lemma {:induction false} CallPushes(p: seq<Module>, procs: seq<Proc>, sts: seq<State>, stacks: seq<seq<Activation>>, ms: seq<Move>, i: nat)
    requires Declared(procs) && IsRun(p, procs, sts, stacks, ms) && i < |ms| && (ms[i].Near? || ms[i].Far?)
    ensures |stacks[i + 1]| == |stacks[i]| + 1 && stacks[i + 1][..|stacks[i]|] == stacks[i]
    ensures stacks[i + 1][|stacks[i]|].caller == RegsOf(sts[i])
  {
    hide Legal, Exec, ExecAll, Rooted;
    assert Moved(p, procs, sts[i], stacks[i], ms[i]) == Some((sts[i + 1], stacks[i + 1]));
  }

  /** Only RTN takes an activation off the stack. */
  lemma {:induction false} ReturnPops(p: seq<Module>, procs: seq<Proc>, sts: seq<State>, stacks: seq<seq<Activation>>, ms: seq<Move>, i: nat)
    requires Declared(procs) && IsRun(p, procs, sts, stacks, ms) && i < |ms| && Live(p, procs, sts[i], stacks[i])
    requires |stacks[i + 1]| < |stacks[i]|
    ensures ms[i] == Leave && |stacks[i]| >= 2 && stacks[i + 1] == stacks[i][..|stacks[i]| - 1]
    ensures RegsOf(sts[i + 1]) == stacks[i][|stacks[i]| - 1].caller
  {
    hide Exec, Rooted, FrameHolds;
    assert Moved(p, procs, sts[i], stacks[i], ms[i]) == Some((sts[i + 1], stacks[i + 1]));
    assert ms[i] == Leave;
    ReturnRestores(p, procs, sts[i], stacks[i]);
    ExecOne(p, sts[i], Return);
  }
}
