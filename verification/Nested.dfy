/** Statements that keep words on the memory stack while their body runs: FOR and CASE. */
module Nested {
  import opened Words
  import opened Options
  import opened MCode
  import opened Machines
  import opened Runs
  import opened Lang
  import opened StmtLang
  import opened ExprMeaning
  import opened ExprProof
  import opened Blocks
  import opened StmtGen
  import opened StmtProof
  import opened CaseTable
  import G = ExprGen

  // ------------------------------------------------------------- held words

  /** State b is inside a statement that began in state a: it represents s, and the words ws
      are held on the memory stack above those of a. */
  ghost predicate Held(env: Env, a: State, s: Store, b: State, ws: seq<word>) {
    && WellLaid(env) && Represents(env, s, b) && a.s + |ws| < MEM_SIZE
    && b == a.(pc := b.pc, s := a.s + |ws|, mem := b.mem)
    && (forall i :: 0 <= i < |ws| ==> b.mem[a.s + i] == ws[i])
    && (forall k :: 0 <= k < a.s && !VarCell(env, k) ==> b.mem[k] == a.mem[k])
  }

  /** Pushing words on the memory stack. */
  lemma {:induction false} Hold(env: Env, s: Store, a: State, n: nat, b: State, ws: seq<word>)
    requires Boundary()(env, s, a, n) && |ws| <= n && a.s + |ws| < MEM_SIZE
    requires b == a.(pc := b.pc, s := a.s + |ws|, mem := b.mem)
    requires forall k :: 0 <= k < MEM_SIZE && !(a.s <= k < a.s + |ws|) ==> b.mem[k] == a.mem[k]
    requires forall i :: 0 <= i < |ws| ==> b.mem[a.s + i] == ws[i]
    ensures Held(env, a, s, b, ws)
  {
    assert AtBoundary(env, s, a, n);
  }

  lemma {:induction false} HeldBoundary(env: Env, s0: Store, a: State, n: nat, s: Store, b: State, ws: seq<word>)
    requires Boundary()(env, s0, a, n) && Held(env, a, s, b, ws) && |ws| <= n
    ensures Boundary()(env, s, b, n - |ws|)
  {
    assert AtBoundary(env, s0, a, n);
    assert AtBoundary(env, s, b, n - |ws|);
  }

  /** A statement that runs inside leaves the held words alone. */
  lemma {:induction false} HeldAfter(env: Env, s0: Store, a: State, n: nat, s: Store, b: State, ws: seq<word>, t: Store, c: State)
    requires Boundary()(env, s0, a, n) && Held(env, a, s, b, ws) && Moved()(env, b, t, c)
    ensures Held(env, a, t, c, ws)
  {
    assert AtBoundary(env, s0, a, n) && MovedTo(env, b, t, c);
    forall i | 0 <= i < |ws|
      ensures c.mem[a.s + i] == ws[i]
    {
      assert !VarCell(env, a.s + i);
    }
  }

  lemma {:induction false} Release(env: Env, a: State, s: Store, b: State, ws: seq<word>, pc: word)
    requires Held(env, a, s, b, ws)
    ensures Moved()(env, a, s, b.(pc := pc, s := a.s))
  {
    assert MovedTo(env, a, s, b.(pc := pc, s := a.s));
  }

  /** The run from b, inside a statement that began in a, does what the outcome says and then
      leaves the statement. */
  ghost predicate Continues(p: seq<Module>, env: Env, a: State, b: State, o: Outcome, fuel: nat, end: int) {
    match o
    case Done(s) => exists c :: Leads(p)(b, Some(c)) && Moved()(env, a, s, c) && c.pc == end
    case Exited(_) => false
    case Trapped => Leads(p)(b, None)
    case Running => RunsFor(Machine(p), b, fuel)
  }

  lemma {:induction false} Entered(p: seq<Module>, env: Env, a: State, b: State, o: Outcome, fuel: nat, end: int, exit: int)
    requires Leads(p)(a, Some(b)) && Continues(p, env, a, b, o, fuel, end)
    ensures Simulates(p)(env, a, o, fuel, end, exit)
  {
    match o {
      case Done(s) =>
        var c :| Leads(p)(b, Some(c)) && Moved()(env, a, s, c) && c.pc == end;
        LeadsOn(p, a, b, Some(c));
      case Trapped =>
        LeadsOn(p, a, b, None);
      case Running =>
        assert LeadsTo(p, a, Some(b));
        ChainedRun(Machine(p), a, b, fuel);
    }
    assert SimulatesAll(p, env, a, o, fuel, end, exit);
  }

  /** What the body does short of finishing, the whole statement does. */
  lemma {:induction false} BodyDecides(p: seq<Module>, env: Env, a: State, b: State, o: Outcome, fuel: nat, mid: int, exit: int, end: int)
    requires Simulates(p)(env, b, o, fuel, mid, exit) && !o.Done? && !o.Exited?
    ensures Continues(p, env, a, b, o, fuel, end)
  {
    assert SimulatesAll(p, env, b, o, fuel, mid, exit);
  }

  /** One more round uses up one unit of fuel. */
  lemma {:induction false} RoundContinues(p: seq<Module>, env: Env, a: State, b: State, m: State, c: State, o: Outcome, fuel: nat, end: int)
    requires Leads(p)(b, Some(m)) && Machine(p)(m) == Some(c) && Continues(p, env, a, c, o, fuel, end)
    ensures Continues(p, env, a, b, o, fuel + 1, end)
  {
    OneStep(Machine(p), m, c);
    assert LeadsTo(p, m, Some(c)) && LeadsTo(p, b, Some(m));
    LeadsOn(p, b, m, Some(c));
    match o {
      case Done(s) =>
        var d :| Leads(p)(c, Some(d)) && Moved()(env, a, s, d) && d.pc == end;
        LeadsOn(p, b, c, Some(d));
      case Trapped =>
        LeadsOn(p, b, c, None);
      case Running =>
        StepThenRun(Machine(p), m, c, fuel);
        ChainedRun(Machine(p), b, m, fuel + 1);
    }
  }

  // -------------------------------------------------------------------- CASE

  lemma {:induction false} WordIn(code: seq<byte>, at: int, frag: seq<byte>, i: nat, w: word)
    requires CodeAt(code, at, frag) && i + 2 <= |frag| && frag[i..i + 2] == Bytes(w)
    ensures WordAt(code, at + i) == Some(w)
  {
    CodeAtByte(code, at, frag, i);
    CodeAtByte(code, at, frag, i + 1);
    assert frag[i..i + 2][0] == frag[i] && frag[i..i + 2][1] == frag[i + 1];
    JoinBytes(w);
  }

  /** A displacement stored modulo 2^16 leads where it should. */
  lemma {:induction false} WrapTo(from: int, to: int, d: int)
    requires 0 <= to < 0x1_0000 && d == to - from
    ensures Wrap(from + Wrap(d)) == to
  {
    var q := d / 0x1_0000;
    assert Wrap(d) == d - 0x1_0000 * q;
    WrapShift(to, -q);
    assert from + Wrap(d) == to + 0x1_0000 * -q;
  }

  /** What the table at position pos behind `origin` says about selector k. */
  lemma {:induction false} TableLeads(code: seq<byte>, tab: seq<Entry>, otherwise: int, origin: int, pos: int, k: word)
    requires Ordered(tab) && Within(tab) && 0 <= origin + pos
    requires CodeAt(code, origin + pos, TableCode(tab, otherwise, pos)) && |code| < 0x1_0000
    requires 0 <= origin + Lookup(tab, k, otherwise) < 0x1_0000
    ensures WordAt(code, origin + pos) == Some(TableLow(tab)) && WordAt(code, origin + pos + 2) == Some(TableHigh(tab))
    ensures var at := origin + pos + 4 + if TableLow(tab) <= k <= TableHigh(tab) then 2 * (k - TableLow(tab) + 1) else 0;
            var d := WordAt(code, at);
            d.Some? && Wrap(at + d.value) == origin + Lookup(tab, k, otherwise)
  {
    hide Ordered, Lookup, Jumps, Within, CodeAt, WordAt, TableCode, Bytes, Wrap;
    SpanOf(tab);
    TableWords(tab, otherwise, pos, k);
    var t := TableCode(tab, otherwise, pos);
    Unwrapped(TableLow(tab));
    Unwrapped(TableHigh(tab));
    WordIn(code, origin + pos, t, 0, TableLow(tab));
    WordIn(code, origin + pos, t, 2, TableHigh(tab));
    if TableLow(tab) <= k <= TableHigh(tab) {
      var i := 6 + 2 * (k - TableLow(tab));
      WordIn(code, origin + pos, t, i, Wrap(Lookup(tab, k, otherwise) - (pos + i)));
      WrapTo(origin + pos + i, origin + Lookup(tab, k, otherwise), Lookup(tab, k, otherwise) - (pos + i));
    } else {
      OutsideTable(tab, k, otherwise);
      WordIn(code, origin + pos, t, 4, Wrap(otherwise - (pos + 4)));
      WrapTo(origin + pos + 4, origin + otherwise, otherwise - (pos + 4));
    }
  }

  lemma {:induction false} Unwrapped(x: int)
    requires 0 <= x < 0x1_0000
    ensures Wrap(x) == x
  {
  }

  /** ENTC goes where the table says, and leaves the end of the table on the memory stack. */
  lemma {:induction false} EnterCaseRuns(p: seq<Module>, st: State, tab: seq<Entry>, otherwise: int, pos: nat, k: word)
    requires Ready(p, st, FarJump(0xC2, pos + 2)) && st.es == [k] && st.s + 1 < MEM_SIZE
    requires Ordered(tab) && Within(tab)
    requires CodeAt(p[st.modn].code, st.pc + 3 + pos, TableCode(tab, otherwise, pos))
    requires 0 <= st.pc + 3 + Lookup(tab, k, otherwise) < 0x1_0000
    ensures st.pc + 3 + pos + TableLen(tab) < 0x1_0000
    ensures var to, end := st.pc + 3 + Lookup(tab, k, otherwise), st.pc + 3 + pos + TableLen(tab);
            Leads(p)(st, Some(st.(pc := to, s := st.s + 1, es := [], mem := st.mem[st.s := end])))
  {
    hide Ordered, Within, Lookup, TableCode, Exec, Jumps, FarJump, Decode;
    CaseDecodes(p, st, pos);
    var table := st.pc + 3 + pos;
    CaseEffect(p, Skip(st, 3), tab, otherwise, pos, k);
    Take(p, st, EnterCase(table), 3,
         Some(st.(pc := st.pc + 3 + Lookup(tab, k, otherwise), s := st.s + 1, es := [],
                  mem := st.mem[st.s := table + TableLen(tab)])));
  }

  lemma {:induction false} EnterCaseCode(b0: byte, b1: byte, at: word)
    ensures DecodePlain(0xC2) == None && DecodeByte(0xC2, b0, at) == None
    ensures DecodeTwo(0xC2, b0, b1, at) == Some(EnterCase(Wrap(at + Join(b0, b1))))
  {
  }

  lemma {:induction false} CaseDecodes(p: seq<Module>, st: State, pos: nat)
    requires Ready(p, st, FarJump(0xC2, pos + 2)) && st.pc + 3 + pos < 0x1_0000
    ensures Decode(p[st.modn].code, st.pc) == Some(Decoded(EnterCase(st.pc + 3 + pos), st.pc + 3))
  {
    hide Decode, DecodePlain, DecodeByte, DecodeTwo, CodeAt;
    var b := Bytes(Wrap(pos + 2));
    EnterCaseCode(b[0], b[1], st.pc + 1);
    Unwrapped(pos + 2);
    JoinBytes(pos + 2);
    Unwrapped(st.pc + 3 + pos);
    assert FarJump(0xC2, pos + 2) == [0xC2, b[0], b[1]];
    Op3(p, st, 0xC2, b[0], b[1], EnterCase(st.pc + 3 + pos));
  }

  lemma {:induction false} CaseEffect(p: seq<Module>, st: State, tab: seq<Entry>, otherwise: int, pos: nat, k: word)
    requires st.modn < |p| && st.es == [k] && st.s + 1 < MEM_SIZE && |p[st.modn].code| < 0x1_0000
    requires Ordered(tab) && Within(tab)
    requires CodeAt(p[st.modn].code, st.pc + pos, TableCode(tab, otherwise, pos))
    requires 0 <= st.pc + Lookup(tab, k, otherwise) < 0x1_0000
    ensures st.pc + pos + TableLen(tab) < 0x1_0000
    ensures Effect(p)(st, EnterCase(st.pc + pos))
         == Some(st.(pc := st.pc + Lookup(tab, k, otherwise), s := st.s + 1, es := [],
                     mem := st.mem[st.s := st.pc + pos + TableLen(tab)]))
  {
    hide Ordered, Lookup, Jumps, Within, WordAt, Wrap, Apply, Effect, ExecUnary, ExecBinary, Bytes, Signed;
    var table, code := st.pc + pos, p[st.modn].code;
    TableLeads(code, tab, otherwise, st.pc, pos, k);
    SpanOf(tab);
    assert Pop(st, 1).es == [];
    Unwrapped(table + TableLen(tab));
    Unwrapped(st.s + 1);
    assert Exec(p, st, EnterCase(table)) == DoEnterCase(code, st, table);
  }

  /** EXC leaves the CASE. */
  lemma {:induction false} ExitCaseRuns(p: seq<Module>, st: State, end: word)
    requires Ready(p, st, [0xC3]) && 0 < st.s && st.mem[st.s - 1] == end
    ensures Leads(p)(st, Some(st.(pc := end, s := st.s - 1)))
  {
    Op1(p, st, 0xC3, ExitCase);
    Unwrapped(st.s - 1);
    assert Exec(p, Skip(st, 1), ExitCase) == Some(st.(pc := end, s := st.s - 1));
    Take(p, st, ExitCase, 1, Some(st.(pc := end, s := st.s - 1)));
  }

  /** The code of a CASE without ELSE faults when it is reached. */
  lemma {:induction false} TrapRuns(p: seq<Module>, st: State)
    requires Ready(p, st, TRAP_CODE) && st.es == []
    ensures Leads(p)(st, None)
  {
    hide Decode, DecodePlain, DecodeByte, CodeAt;
    assert TRAP_CODE == [4] + [0xC4];
    CodeAtParts(p[st.modn].code, st.pc, [4], [0xC4]);
    assert [4] == G.LitCode(4);
    PushLit(p, st, 4);
    var one := Pushed(st, 1, 4);
    TrapEffect(p, Skip(one, 1));
    Op1(p, one, 0xC4, Instr.Trap);
    Take(p, one, Instr.Trap, 1, None);
    LeadsOn(p, st, one, None);
  }

  lemma {:induction false} TrapEffect(p: seq<Module>, st: State)
    requires st.modn < |p|
    ensures DecodePlain(0xC4) == Some(Instr.Trap) && Effect(p)(st, Instr.Trap) == None
  {
    assert Exec(p, st, Instr.Trap) == None;
  }

  // --------------------------------------------------------------------- FOR

  /** FOR1: the body, or behind the loop. */
  lemma {:induction false} EnterForRuns(p: seq<Module>, st: State, step: int, k: nat, adr: word, low: word, high: word)
    requires Ready(p, st, ForFront(step, k)) && st.pc + 8 + k < 0x1_0000
    requires st.es == [adr, low, high] && st.s + 2 < MEM_SIZE
    ensures var go := if step > 0 then Signed(low) <= Signed(high) else Signed(low) >= Signed(high);
            Leads(p)(st, Some(
              if go then st.(pc := st.pc + 4, s := st.s + 2, es := [],
                             mem := st.mem[adr := low][st.s := adr][st.s + 1 := high])
              else st.(pc := st.pc + 8 + k, es := [])))
  {
    hide Exec, Decode, Wrap, DecodePlain, DecodeByte, DecodeTwo, Effect, ExecUnary, CodeAt;
    var b, down := Bytes(Wrap(k + 6)), step <= 0;
    JoinBytes(k + 6);
    Unwrapped(k + 6);
    Unwrapped(st.pc + 8 + k);
    var d: byte := if down then 1 else 0;
    assert ForFront(step, k) == [0xC0, d, b[0], b[1]];
    Op4(p, st, 0xC0, d, b[0], b[1], For1(down, st.pc + 8 + k));
    ForEffect(p, Skip(st, 4), down, st.pc + 8 + k, adr, low, high);
    var go := if down then Signed(low) >= Signed(high) else Signed(low) <= Signed(high);
    Take(p, st, For1(down, st.pc + 8 + k), 4,
         Some(if go then st.(pc := st.pc + 4, s := st.s + 2, es := [],
                             mem := st.mem[adr := low][st.s := adr][st.s + 1 := high])
              else st.(pc := st.pc + 8 + k, es := [])));
  }

  lemma {:induction false} ForEffect(p: seq<Module>, st: State, down: bool, to: word, adr: word, low: word, high: word)
    requires st.modn < |p| && st.es == [adr, low, high] && st.s + 2 < MEM_SIZE
    ensures var go := if down then Signed(low) >= Signed(high) else Signed(low) <= Signed(high);
            Effect(p)(st, For1(down, to)) == Some(
              if go then st.(s := st.s + 2, es := [], mem := st.mem[adr := low][st.s := adr][st.s + 1 := high])
              else st.(pc := to, es := []))
  {
    assert Pop(st, 3).es == [];
    Unwrapped(st.s + 2);
    assert Exec(p, st, For1(down, to)) == EnterFor(st, down, to);
  }

  lemma {:induction false} StepByte(step: int)
    requires -0x80 <= step < 0x80
    ensures SignedByte(step % 0x100) == step
  {
  }

  lemma {:induction false} NextDecodes(p: seq<Module>, st: State, step: int, k: nat)
    requires Ready(p, st, ForBack(step, k)) && -0x80 <= step < 0x80 && k < st.pc && st.pc + 4 < 0x1_0000
    ensures Decode(p[st.modn].code, st.pc) == Some(Decoded(For2(step, st.pc - k), st.pc + 4))
  {
    hide Exec, Wrap, CodeAt, Bytes, SignedByte, Ready;
    StepByte(step);
    var w := Wrap(0 - k - 2);
    var b := Bytes(w);
    JoinBytes(w);
    WrapTo(st.pc + 2, st.pc - k, 0 - k - 2);
    assert ForBack(step, k) == [0xC1, step % 0x100, b[0], b[1]];
    assert DecodeThree(0xC1, step % 0x100, b[0], b[1], st.pc + 1) == Some(For2(step, st.pc - k));
    Op4(p, st, 0xC1, step % 0x100, b[0], b[1], For2(step, st.pc - k));
  }

  /** FOR2: back to the body of k bytes, or on. */
  lemma {:induction false} NextForRuns(p: seq<Module>, st: State, step: int, k: nat, adr: word, high: word)
    requires Ready(p, st, ForBack(step, k)) && -0x80 <= step < 0x80
    requires k < st.pc && st.pc + 4 < 0x1_0000 && 2 <= st.s && st.mem[st.s - 2] == adr && st.mem[st.s - 1] == high
    ensures var i := Wrap(st.mem[adr] + step);
            var o := Some(
              if Beyond(Signed(i), Signed(high), step) then st.(pc := st.pc + 4, s := st.s - 2)
              else st.(pc := st.pc - k, mem := st.mem[adr := i]));
            Machine(p)(st) == o && Leads(p)(st, o)
  {
    hide Decode, ForBack, CodeAt;
    NextDecodes(p, st, step, k);
    assert Exec(p, Skip(st, 4), For2(step, st.pc - k)) == NextFor(Skip(st, 4), step, st.pc - k);
    StepIsEffect(p, st, Decoded(For2(step, st.pc - k), st.pc + 4));
    var i := Wrap(st.mem[adr] + step);
    Take(p, st, For2(step, st.pc - k), 4, Some(
         if Beyond(Signed(i), Signed(high), step) then st.(pc := st.pc + 4, s := st.s - 2)
         else st.(pc := st.pc - k, mem := st.mem[adr := i])));
  }

  /** The address of a variable is pushed by LGA, by LLA, or by a frame address and LSA. */
  lemma {:induction false} AddressRuns(p: seq<Module>, env: Env, s: Store, st: State, n: nat, v: Var, c: seq<byte>)
    requires Boundary()(env, s, st, n) && v in env.vars
    requires AddressCode(v, env.lev) == Some(c) && Ready(p, st, c)
    requires v.lev < |env.bases| && Address(env, v) < MEM_SIZE
    ensures st.es == [] && Yields(p, st, |c|, Some(Address(env, v)))
  {
    hide Exec, WellLaid, Decode, CodeAt, Represents;
    VarPlace(env, s, st, n, v);
    if v.lev == 0 {
      NearAddressRuns(p, st, GlobalAdr(v.adr), v.adr, Address(env, v));
    } else if v.lev == env.lev {
      NearAddressRuns(p, st, LocalAdr(v.adr), v.adr, Address(env, v));
    } else {
      var b := G.BaseCode(env.lev - v.lev);
      CodeAtParts(p[st.modn].code, st.pc, b, [0x16, v.adr]);
      OuterBaseRuns(p, env, s, st, n, v);
      FarAddressRuns(p, st, Pushed(st, |b|, env.bases[v.lev]), env.bases[v.lev], v.adr);
      assert Pushed(st, |c|, Address(env, v)) == st.(pc := st.pc + |b| + 2, es := [env.bases[v.lev] + v.adr]);
    }
  }

  lemma {:induction false} NearAddressRuns(p: seq<Module>, st: State, i: Instr, n: byte, a: word)
    requires (i == GlobalAdr(n) && a == st.g + n) || (i == LocalAdr(n) && a == st.l + n)
    requires Ready(p, st, [if i.GlobalAdr? then 0x15 else 0x14, n]) && st.es == []
    ensures Leads(p)(st, Some(Pushed(st, 2, a)))
  {
    Op2(p, st, if i.GlobalAdr? then 0x15 else 0x14, n, i);
    assert Exec(p, Skip(st, 2), i) == PushWord(Skip(st, 2), a);
    TakePush(p, st, i, 2, a);
  }

  lemma {:induction false} FarAddressRuns(p: seq<Module>, st: State, one: State, b: word, n: byte)
    requires Leads(p)(st, Some(one)) && one == st.(pc := one.pc, es := [b]) && st.es == [] && b + n < 0x1_0000
    requires Ready(p, one, [0x16, n])
    ensures Leads(p)(st, Some(st.(pc := one.pc + 2, es := [b + n])))
  {
    Op2(p, one, 0x16, n, StackAdr(n));
    var next := Skip(one, 2);
    assert Pop(next, 1).es == [];
    assert Exec(p, next, StackAdr(n)) == PushWord(Pop(next, 1), b + n);
    assert [] + [b + n] == [b + n];
    Take(p, one, StackAdr(n), 2, Some(next.(es := [b + n])));
    LeadsOn(p, st, one, Some(next.(es := [b + n])));
  }

  /** The value of a FOR's limit; none when a limit of the other type is 2^15 or more. */
  function LimitValue(v: Var, high: Expr, s: Store): Option<word> {
    match Eval(high, s)
    case None => None
    case Some(x) => if Converted(x, v.typ) == None then None else Some(Encode(x))
  }

  lemma {:induction false} LimitRuns(p: seq<Module>, env: Env, s: Store, st: State, n: nat, at: State, t: Typ, v: Var, high: Expr, c: seq<byte>)
    requires Boundary()(env, s, st, n) && ExprFits(high, env, 2) && t == v.typ && t != Bool && TypeOf(high) != Some(Bool)
    requires LimitCode(t, high, env.lev, 2) == Some(c) && Ready(p, at, c)
    requires at == st.(pc := at.pc, es := at.es) && |at.es| == 2
    ensures Yields(p, at, |c|, LimitValue(v, high, s))
  {
    hide Exec, WellLaid, Decode, LimitCode, ValueCode, ExprFits;
    LimitTyped(env, s, st, n, t, high, c);
    var cv := ValueCode(high, env.lev, 2).value;
    if c == cv {
      ValueRuns(p, env, s, st, n, at, high, 2, cv);
    } else {
      CodeAtParts(p[at.modn].code, at.pc, cv, [0xC7]);
      ValueRuns(p, env, s, st, n, at, high, 2, cv);
      SignRuns(p, at, |cv|, EncodeResult(Eval(high, s)));
    }
  }

  lemma {:induction false} LimitTyped(env: Env, s: Store, st: State, n: nat, t: Typ, high: Expr, c: seq<byte>)
    requires Boundary()(env, s, st, n) && ExprFits(high, env, 2) && LimitCode(t, high, env.lev, 2) == Some(c)
    ensures var cv := ValueCode(high, env.lev, 2);
            && cv.Some? && Prepared()(env, high, 2, cv.value)
            && (TypeOf(high) == Some(t) ==> c == cv.value) && (TypeOf(high) != Some(t) ==> c == cv.value + [0xC7])
    ensures Eval(high, s).Some? ==> TypeOf(high) == Some(TypOf(Eval(high, s).value))
  {
    hide Exec, Decode;
    assert ValuePrepared(env, high, 2, ValueCode(high, env.lev, 2).value);
    GenDescribes(high, env.lev, G.GenExpr(high, env.lev).value);
    BoundaryFacts(env, s, st, n);
    EvalTyped(high, s);
  }

  /** Address, initial value and limit of a FOR, one behind the other. */
  lemma {:induction false} HeadRuns(p: seq<Module>, env: Env, s: Store, st: State, n: nat, v: Var, low: Expr, high: Expr, c: seq<byte>)
    requires Boundary()(env, s, st, n) && v in env.vars && ExprFits(low, env, 1) && ExprFits(high, env, 2)
    requires v.typ != Bool && TypeOf(high) != Some(Bool)
    requires ForHead(v, low, high, env.lev) == Some(c) && Ready(p, st, c)
    requires v.lev < |env.bases| && Address(env, v) < MEM_SIZE
    ensures st.pc + |c| < 0x1_0000
    ensures Leads(p)(st, match (AssignedTo(v.typ, low, s), LimitValue(v, high, s))
                         case (Some(lo), Some(hi)) => Some(st.(pc := st.pc + |c|, es := [Address(env, v), Encode(lo), hi]))
                         case _ => None)
  {
    hide Exec, WellLaid, Decode, AddressCode, AssignedCode, LimitCode, ExprFits, AssignedTo, LimitValue, Wrap, G.GenExpr, CodeAt,
         G.GenLoaded, Represents;
    var ca, cl, ch := AddressCode(v, env.lev).value, AssignedCode(v.typ, low, env.lev, 1).value, LimitCode(v.typ, high, env.lev, 2).value;
    CodeAtParts(p[st.modn].code, st.pc, ca + cl, ch);
    CodeAtParts(p[st.modn].code, st.pc, ca, cl);
    AddressRuns(p, env, s, st, n, v, ca);
    var one := Pushed(st, |ca|, Address(env, v));
    AssignedRuns(p, env, s, st, n, one, v.typ, low, 1, cl);
    if AssignedTo(v.typ, low, s).Some? {
      LimitRuns(p, env, s, st, n, Pushed(one, |cl|, Encode(AssignedTo(v.typ, low, s).value)), v.typ, v, high, ch);
    }
    ThreeRun(p, st, |ca|, |cl|, |ch|, Address(env, v), EncodeResult(AssignedTo(v.typ, low, s)), LimitValue(v, high, s));
  }

  lemma {:induction false} ThreeRun(p: seq<Module>, st: State, i: nat, j: nat, k: nat, a: word, b: Option<word>, c: Option<word>)
    requires st.es == [] && Yields(p, st, i, Some(a)) && Yields(p, Pushed(st, i, a), j, b)
    requires b.Some? ==> Yields(p, Pushed(Pushed(st, i, a), j, b.value), k, c)
    requires st.pc + i + j + k < 0x1_0000
    ensures Leads(p)(st, match (b, c) case (Some(x), Some(y)) => Some(st.(pc := st.pc + i + j + k, es := [a, x, y])) case _ => None)
  {
    var one := Pushed(st, i, a);
    if b.Some? {
      var two := Pushed(one, j, b.value);
      LeadsOn(p, st, one, Some(two));
      LeadsOn(p, st, two, AfterPush(two, k, c));
      assert two.es == [a, b.value];
      if c.Some? {
        assert Pushed(two, k, c.value).es == [a, b.value, c.value];
      }
    } else {
      LeadsOn(p, st, one, None);
    }
  }

  // -------------------------------------------------------- the rounds of a FOR

  /** The body has been entered: the control variable holds the initial value, and its address
      and the limit are held on the memory stack. */
  lemma {:induction false} ForEntered(env: Env, s: Store, a: State, n: nat, v: Var, x: Value, hi: word, b: State)
    requires Boundary()(env, s, a, n) && 2 <= n && v in env.vars && TypOf(x) == v.typ
    requires v.lev < |env.bases| && Address(env, v) < MEM_SIZE && a.s + 2 < MEM_SIZE
    requires b == a.(pc := b.pc, s := a.s + 2, mem := a.mem[Address(env, v) := Encode(x)][a.s := Address(env, v)][a.s + 1 := hi])
    ensures Held(env, a, s[v := x], b, [Address(env, v), hi])
  {
    hide WellLaid, Represents;
    var adr, ws := Address(env, v), [Address(env, v) as word, hi];
    VarPlace(env, s, a, n, v);
    var mid := b.(mem := a.mem[a.s := adr][a.s + 1 := hi]);
    Hold(env, s, a, n, mid, ws);
    HeldBoundary(env, s, a, n, s, mid, ws);
    AssignMoves(env, s, mid, n - 2, v, x, b.pc);
    assert b.mem == mid.mem[adr := Encode(x)];
    HeldAfter(env, s, a, n, s, mid, ws, s[v := x], b);
  }

  /** The body of k bytes has run once: FOR2 steps the control variable and goes back, or
      releases the held words. */
  lemma {:induction false} ForSteps(p: seq<Module>, env: Env, s0: Store, a: State, n: nat, v: Var, hi: word, step: int, k: nat, t: Store, c: State)
    returns (d: State)
    requires Boundary()(env, s0, a, n) && 2 <= n && v in env.vars && v.typ != Bool && -0x80 <= step < 0x80
    requires v.lev < |env.bases| && Address(env, v) < MEM_SIZE && Held(env, a, t, c, [Address(env, v), hi])
    requires k < c.pc && c.pc + 4 < 0x1_0000 && Ready(p, c, ForBack(step, k))
    ensures v in t && Leads(p)(c, Some(d)) && Machine(p)(c) == Some(d)
    ensures var i := Wrap(Encode(t[v]) + step);
            if Beyond(Signed(i), Signed(hi), step) then Moved()(env, a, t, d) && d.pc == c.pc + 4
            else Held(env, a, t[v := FromWord(v.typ, i)], d, [Address(env, v), hi]) && d.pc == c.pc - k
  {
    hide Ready, Decode, Exec, Wrap, WellLaid, CodeAt;
    var adr: word, ws := Address(env, v), [Address(env, v) as word, hi];
    assert ws[0] == adr && ws[1] == hi;
    NextForRuns(p, c, step, k, adr, hi);
    var i := Wrap(Encode(t[v]) + step);
    if Beyond(Signed(i), Signed(hi), step) {
      d := c.(pc := c.pc + 4, s := a.s);
      Release(env, a, t, c, ws, d.pc);
    } else {
      d := c.(pc := c.pc - k, mem := c.mem[adr := i]);
      StepMoves(env, s0, a, n, v, i, t, c, ws, d);
    }
  }

  lemma {:induction false} StepMoves(env: Env, s0: Store, a: State, n: nat, v: Var, i: word, t: Store, c: State, ws: seq<word>, d: State)
    requires Boundary()(env, s0, a, n) && |ws| <= n && v in env.vars && v.typ != Bool
    requires v.lev < |env.bases| && Address(env, v) < MEM_SIZE && Held(env, a, t, c, ws)
    requires d == c.(pc := d.pc, mem := c.mem[Address(env, v) := i])
    ensures Held(env, a, t[v := FromWord(v.typ, i)], d, ws)
  {
    hide WellLaid, Represents;
    HeldBoundary(env, s0, a, n, t, c, ws);
    EncodeFromWord(v.typ, i);
    AssignMoves(env, t, c, n - |ws|, v, FromWord(v.typ, i), d.pc);
    HeldAfter(env, s0, a, n, t, c, ws, t[v := FromWord(v.typ, i)], d);
  }

  lemma {:induction false} EncodeFromWord(t: Typ, w: word)
    requires t != Bool
    ensures Encode(FromWord(t, w)) == w && TypOf(FromWord(t, w)) == t
  {
  }
}
