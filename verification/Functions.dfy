/** Compiled functions: entry code, statements, RETURN with an expression. They return to whatever
    code calls them, with the value their source has. */
module Functions {
  import opened Words
  import opened Options
  import opened MCode
  import opened Machines
  import opened Lang
  import opened StmtLang
  import opened ExprProof
  import opened Blocks
  import opened StmtGen
  import opened StmtProof
  import opened StmtParts
  import opened StmtRun
  import opened CallGen
  import opened CallProof
  import Calls
  import Pending
  import Programs
  import R = Runs
  import G = ExprGen

  /** A function procedure of a module: the types of its value parameters, its statements, and the
      expression it returns where a value of its own type is wanted. */
  datatype Function = Function(types: seq<Typ>, body: Stmt, typ: Typ, result: Expr)

  function Param(fn: Function, k: nat): Var
    requires k < |fn.types|
  {
    Var(1, 4 + k, fn.types[k])
  }

  function Params(fn: Function): set<Var> {
    set k | 0 <= k < |fn.types| :: Param(fn, k)
  }

  /** The store with the arguments in the parameters. */
  function ArgStore(fn: Function, ws: seq<word>): (s: Store)
    requires |ws| == |fn.types|
    ensures s.Keys == Params(fn)
  {
    map v | v in Params(fn) :: FromWord(v.typ, if 4 <= v.adr < 4 + |ws| then ws[v.adr - 4] else 0)
  }

  /** For these arguments the source function returns w. */
  ghost predicate Gives(fn: Function, ws: seq<word>, w: word) {
    |ws| == |fn.types| && exists t, v ::
      Programs.Finishes(fn.body, ArgStore(fn, ws), t) && AssignedTo(fn.typ, fn.result, t) == Some(v) && w == Encode(v)
  }

  // --------------------------------------------------------------------- code

  /** `unstack`: the last parameter is on top of the expression stack. */
  function Unstack(n: nat): (c: seq<byte>)
    requires n <= 0xFC
  {
    if n == 0 then [] else G.OpArg(0x30, 3 + n).value + Unstack(n - 1)
  }

  /** ENTR with the size of the parameters, the parameters, the statements, the result, RTN. */
  function FunctionCode(fn: Function): Option<seq<byte>>
    requires |fn.types| <= 0xFC
  {
    var f :- Sketch(fn.body, 1);
    var c :- AssignedCode(fn.typ, fn.result, 1, 0);
    Some([0xEB, |fn.types|] + (Unstack(|fn.types|) + (Assemble(f, 0) + (c + [0xEC]))))
  }

  /** The frames of an activation of a module's procedure. */
  function FrameOf(g: word, base: word, fn: Function): Env {
    Env(1, [g, base], Params(fn))
  }

  /** The source is well typed and within the machine's limits. */
  ghost predicate Accepted(fn: Function, env: Env) {
    && |fn.types| <= EXS_SIZE && (forall k :: 0 <= k < |fn.types| ==> fn.types[k] != Bool)
    && StmtLang.WellTyped(fn.body, Params(fn)) && StmtParts.Fits(fn.body, env) && ExitsStayInside(fn.body, false)
    && ExprFits(fn.result, env, 0)
  }

  // --------------------------------------------------------------- entry code

  lemma {:induction false} EntersFrame(p: seq<Module>, st: State, n: byte)
    requires Ready(p, st, [0xEB, n]) && st.s as int + n < MEM_SIZE && st.pc < 0xFFFE
    ensures Leads(p)(st, Some(st.(pc := st.pc + 2, s := st.s + n)))
  {
    hide Decode, Apply, DecodeTwo, DecodeThree, ExecUnary, ExecBinary, CodeAt;
    var to := st.(pc := st.pc + 2, s := st.s + n);
    Op2(p, st, 0xEB, n, Enter(n));
    assert Exec(p, Skip(st, 2), Enter(n)) == ExecFrame(p, Skip(st, 2), Enter(n)) == Some(to);
    LeadsByExec(p, st, Decoded(Enter(n), st.pc + 2), to);
  }

  lemma {:induction false} StoresTop(p: seq<Module>, st: State, n: nat, rest: seq<word>, w: word)
    requires 4 <= n < 0x100 && Ready(p, st, G.OpArg(0x30, n).value) && st.es == rest + [w] && st.l as int + n < MEM_SIZE
    requires st.pc as int + |G.OpArg(0x30, n).value| < 0x1_0000
    ensures Leads(p)(st, Some(st.(pc := st.pc + |G.OpArg(0x30, n).value|, es := rest, mem := st.mem[st.l + n := w])))
  {
    hide Decode, Leads;
    var c := G.OpArg(0x30, n).value;
    var to := st.(pc := st.pc + |c|, es := rest, mem := st.mem[st.l + n := w]);
    StoreDecodes(p, st, n, c);
    assert Pop(Skip(st, |c|), 1).es == rest && Top(Skip(st, |c|)) == w;
    assert Exec(p, Skip(st, |c|), StoreLocal(n)) == Some(to);
    LeadsByExec(p, st, Decoded(StoreLocal(n), st.pc + |c|), to);
  }

  lemma {:induction false} StoreDecodes(p: seq<Module>, st: State, n: nat, c: seq<byte>)
    requires 4 <= n < 0x100 && G.OpArg(0x30, n) == Some(c) && Ready(p, st, c) && st.pc as int + |c| < 0x1_0000
    ensures Decode(p[st.modn].code, st.pc) == Some(Decoded(StoreLocal(n), st.pc + |c|))
  {
    if n < 0x10 {
      Op1(p, st, 0x30 + n, StoreLocal(n));
    } else {
      Op2(p, st, 0x30, n, StoreLocal(n));
    }
  }

  /** The arguments ws at the addresses from a on. */
  function Passed(mem: memory, a: nat, ws: seq<word>): memory
    requires a + |ws| <= MEM_SIZE
  {
    mem[..a] + ws + mem[a + |ws|..]
  }

  /** The parameters are taken off the expression stack into their variables. */
  lemma {:induction false} Unstacks(p: seq<Module>, st: State)
    requires |st.es| <= EXS_SIZE && Ready(p, st, Unstack(|st.es|)) && st.l as int + 4 + |st.es| <= MEM_SIZE
    requires st.pc as int + |Unstack(|st.es|)| < 0x1_0000
    ensures Leads(p)(st, Some(st.(pc := st.pc + |Unstack(|st.es|)|, es := [], mem := Passed(st.mem, st.l + 4, st.es))))
    decreases |st.es|
  {
    hide Leads, Decode;
    var n := |st.es|;
    if n == 0 {
      assert Passed(st.mem, st.l + 4, []) == st.mem;
      R.Stay(Machine(p), st);
      LeadsHere(p, st);
    } else {
      var c, rest, w := G.OpArg(0x30, 3 + n).value, st.es[..n - 1], st.es[n - 1];
      ReadyParts(p, st, c, Unstack(n - 1));
      assert st.es == rest + [w];
      StoresTop(p, st, 3 + n, rest, w);
      var one := st.(pc := st.pc + |c|, es := rest, mem := st.mem[st.l + 3 + n := w]);
      SamePlace(p, st.(pc := st.pc + |c|), one, Unstack(n - 1));
      Unstacks(p, one);
      assert Passed(one.mem, st.l + 4, rest) == Passed(st.mem, st.l + 4, st.es);
      LeadsOn(p, st, one, Some(st.(pc := st.pc + |Unstack(n)|, es := [], mem := Passed(st.mem, st.l + 4, st.es))));
    }
  }

  lemma {:induction false} LeadsHere(p: seq<Module>, st: State)
    ensures Leads(p)(st, Some(st))
  {
    R.Stay(Machine(p), st);
    assert LeadsTo(p, st, Some(st));
  }

  // ------------------------------------------------------------------- the body

  /** The frame of an activation whose arguments have been taken in. */
  predicate Activated(p: seq<Module>, fn: Function, st: State, ws: seq<word>) {
    && |ws| == |fn.types| <= EXS_SIZE && st.modn < |p| && st.l == st.cs && st.cs < 0xFF00
    && st.s as int == st.l as int + 4 + |ws| && st.es == []
    && forall k :: 0 <= k < |ws| ==> st.mem[st.l + 4 + k] == ws[k]
  }

  lemma {:induction false} FrameLaid(g: word, base: word, fn: Function)
    requires |fn.types| <= EXS_SIZE && base < 0xFF00
    ensures WellLaid(FrameOf(g, base, fn))
  {
    var env := FrameOf(g, base, fn);
    forall v | v in env.vars
      ensures v.lev <= 1 && 4 <= v.adr < 0x100 && Address(env, v) < MEM_SIZE
    {
      var k :| 0 <= k < |fn.types| && v == Param(fn, k);
    }
    forall v, w | v in env.vars && w in env.vars && v != w
      ensures Address(env, v) != Address(env, w)
    {
      var j :| 0 <= j < |fn.types| && v == Param(fn, j);
      var k :| 0 <= k < |fn.types| && w == Param(fn, k);
    }
  }

  lemma {:induction false} FromWordBack(t: Typ, w: word)
    requires t != Bool
    ensures TypOf(FromWord(t, w)) == t && Encode(FromWord(t, w)) == w
  {
  }

  /** Parameter k of the frame. */
  lemma {:induction false} ParamsLie(fn: Function, g: word, base: word)
    requires |fn.types| <= EXS_SIZE && base < 0xFF00
    ensures forall v :: v in Params(fn) ==>
              && v.lev == 1 && 4 <= v.adr < 4 + |fn.types| && v.typ == fn.types[v.adr - 4]
              && Address(FrameOf(g, base, fn), v) == base as int + v.adr
  {
    forall v | v in Params(fn)
      ensures v.lev == 1 && 4 <= v.adr < 4 + |fn.types| && v.typ == fn.types[v.adr - 4]
      ensures Address(FrameOf(g, base, fn), v) == base as int + v.adr
    {
      var k :| 0 <= k < |fn.types| && v == Param(fn, k);
    }
  }

  /** Its parameters hold the arguments. */
  lemma {:induction false} AtBody(p: seq<Module>, fn: Function, st: State, ws: seq<word>, n: nat)
    requires Activated(p, fn, st, ws) && st.s as int + n < MEM_SIZE && forall k :: 0 <= k < |fn.types| ==> fn.types[k] != Bool
    ensures AtBoundary(FrameOf(st.g, st.l, fn), ArgStore(fn, ws), st, n)
  {
    FrameLaid(st.g, st.l, fn);
    ParamsLie(fn, st.g, st.l);
    ArgsHeld(p, fn, st, ws);
    hide WellLaid, Params, FromWord, Encode;
    var env := FrameOf(st.g, st.l, fn);
    assert Represents(env, ArgStore(fn, ws), st);
    assert Room(env, st, n);
  }

  lemma {:induction false} ArgsHeld(p: seq<Module>, fn: Function, st: State, ws: seq<word>)
    requires Activated(p, fn, st, ws) && forall k :: 0 <= k < |fn.types| ==> fn.types[k] != Bool
    ensures var env, s := FrameOf(st.g, st.l, fn), ArgStore(fn, ws);
            && WellLaid(env) && Typed(s) && s.Keys == env.vars
            && forall v :: v in env.vars ==> Address(env, v) < MEM_SIZE && st.mem[Address(env, v)] == Encode(s[v])
  {
    FrameLaid(st.g, st.l, fn);
    ParamsLie(fn, st.g, st.l);
    hide WellLaid, Params, FromWord, Encode;
    var env, s := FrameOf(st.g, st.l, fn), ArgStore(fn, ws);
    forall v | v in env.vars
      ensures TypOf(s[v]) == v.typ && Address(env, v) < MEM_SIZE && st.mem[Address(env, v)] == Encode(s[v])
    {
      FromWordBack(v.typ, ws[v.adr - 4]);
      assert st.mem[st.l + 4 + (v.adr - 4)] == ws[v.adr - 4];
    }
  }

  /** The statements and the result: back at RTN, with the value on the expression stack, and memory
      below the parameters as it was. */
  lemma {:induction false} BodyGives(p: seq<Module>, fn: Function, st: State, ws: seq<word>, w: word, f: Flow, c: seq<byte>) returns (e: State)
    requires Activated(p, fn, st, ws) && Accepted(fn, FrameOf(st.g, st.l, fn)) && st.s as int + StackWords(fn.body) < MEM_SIZE
    requires Sketch(fn.body, 1) == Some(f) && AssignedCode(fn.typ, fn.result, 1, 0) == Some(c) && Gives(fn, ws, w)
    requires Ready(p, st, Assemble(f, 0) + c)
    ensures Leads(p)(st, Some(e)) && st.pc as int + Size(f) + |c| < 0x1_0000
    ensures e == st.(pc := st.pc + Size(f) + |c|, es := [w], mem := e.mem)
    ensures forall k: int :: 0 <= k < st.l as int + 4 ==> e.mem[k] == st.mem[k]
  {
    hide Ready, AtBoundary, Assemble, Perform, StmtCompiled, AssignedCode, Leads, Accepted, Activated, ExprFits, Sketch, ArgStore, Size,
         StackWords, AssignedTo;
    var env, s, n := FrameOf(st.g, st.l, fn), ArgStore(fn, ws), StackWords(fn.body);
    var t, v :| Programs.Finishes(fn.body, s, t) && AssignedTo(fn.typ, fn.result, t) == Some(v) && w == Encode(v);
    var fuel: nat :| Perform(fn.body, s, fuel) == Done(t);
    IsAccepted(p, fn, st, ws, n, f);
    StillEmpty(p, fn, st, ws);
    ReadyParts(p, st, Assemble(f, 0), c);
    StmtRuns(p, env, s, st, n, fn.body, false, f, fuel, 0);
    var b := DoneState(p, env, st, t, fuel, st.pc + Size(f), st.pc);
    NewBoundary(env, s, st, t, b, n, n);
    SamePlace(p, st.(pc := st.pc + Size(f)), b, c);
    AssignedRuns(p, env, t, b, n, b, fn.typ, fn.result, 0, c);
    e := b.(pc := b.pc + |c|, es := [w]);
    assert [] + [w] == [w];
    LeadsOn(p, st, b, Some(e));
    OnlyParams(p, fn, st, ws, t, b);
  }

  lemma {:induction false} StillEmpty(p: seq<Module>, fn: Function, st: State, ws: seq<word>)
    requires Activated(p, fn, st, ws)
    ensures st.es == []
  {
  }

  lemma {:induction false} IsAccepted(p: seq<Module>, fn: Function, st: State, ws: seq<word>, n: nat, f: Flow)
    requires Activated(p, fn, st, ws) && Accepted(fn, FrameOf(st.g, st.l, fn)) && st.s as int + n < MEM_SIZE && Sketch(fn.body, 1) == Some(f)
    ensures Boundary()(FrameOf(st.g, st.l, fn), ArgStore(fn, ws), st, n)
    ensures Compiled()(FrameOf(st.g, st.l, fn), fn.body, false, f) && ExprFits(fn.result, FrameOf(st.g, st.l, fn), 0)
  {
    var env := FrameOf(st.g, st.l, fn);
    AtBody(p, fn, st, ws, n);
    assert AtBoundary(env, ArgStore(fn, ws), st, n);
    assert StmtCompiled(env, fn.body, false, f);
  }

  /** The statements change parameters and memory above S only. */
  lemma {:induction false} OnlyParams(p: seq<Module>, fn: Function, st: State, ws: seq<word>, t: Store, b: State)
    requires Activated(p, fn, st, ws) && Moved()(FrameOf(st.g, st.l, fn), st, t, b)
    ensures forall k: int :: 0 <= k < st.l as int + 4 ==> b.mem[k] == st.mem[k]
  {
    var env := FrameOf(st.g, st.l, fn);
    ParamsLie(fn, st.g, st.l);
    assert MovedTo(env, st, t, b);
  }

  // ------------------------------------------------------------- call and return

  /** The state a call leads to: a frame at S, and the entry of the called procedure. */
  function Entered(st: State, link: word, m: nat, g: word, entry: word, k: nat): State
    requires st.s as int + 4 < MEM_SIZE && st.pc as int + k < 0x1_0000
  {
    st.(mem := st.mem[st.s := link][st.s + 1 := st.l][st.s + 2 := st.pc + k], s := st.s + 4, cs := st.s, l := st.s, modn := m, g := g, pc := entry)
  }

  /** Where a function lies: in the calling module, or in another one. */
  function Home(u: Where, q: Callee): nat {
    if q.pmod == 0 then u.modn else q.pmod
  }

  /** What RTN will find: the calling module, or the caller's frame. */
  function Link(u: Where, q: Callee, st: State): word
    requires u.modn < 0x100 && st.cs < 0xFF00
  {
    if q.pmod == 0 then st.cs + 0x100 else u.modn
  }

  /** A function declared at module level that a call reaches. */
  predicate Reachable(u: Where, q: Callee) {
    && q.lev == 0 && 0 < q.num < 0x100 && q.pmod < 0x100 && Home(u, q) < |u.p| && q.num < |u.p[Home(u, q)].proc|
    && 0 < u.p[Home(u, q)].proc[q.num] && |u.p[Home(u, q)].code| < 0x1_0000
  }

  lemma {:induction false} CallEnters(u: Where, f: nat, st: State) returns (en: State)
    requires InScope(u.c) && CallsHere(u, f, st) && Reachable(u, ProcOf(u.c, f)) && st.s as int + 4 < MEM_SIZE
    ensures var q := ProcOf(u.c, f);
            var m := Home(u, q);
            && u.modn < 0x100 && st.cs < 0xFF00
            && en == Entered(st, Link(u, q, st), m, u.p[m].dataOfs, u.p[m].proc[q.num], |CallBytes(q, u.c.level).value|)
            && Leads(u.p)(st, Some(en))
  {
    hide Leads, Decode, Exec, Wrap, DecodePlain, DecodeByte, Apply, DecodeTwo, Sketch, DecodeThree, ExecUnary, Assemble, CodeAt, WellLaid;
    var q := ProcOf(u.c, f);
    var m, b, code := Home(u, q), CallBytes(q, u.c.level).value, u.p[st.modn].code;
    en := Entered(st, Link(u, q, st), m, u.p[m].dataOfs, u.p[m].proc[q.num], |b|);
    if q.pmod == 0 {
      DirectDecodes(code, st.pc, q.num, b);
      EntersHere(u.p, Skip(st, |b|), q.num);
      LeadsByExec(u.p, st, Decoded(CallLocal(q.num), st.pc + |b|), en);
    } else {
      FarDecodes(code, st.pc, CallExt(q.pmod, q.num), b);
      EntersAway(u.p, Skip(st, |b|), q.pmod, q.num);
      LeadsByExec(u.p, st, Decoded(CallExt(q.pmod, q.num), st.pc + |b|), en);
    }
  }

  lemma {:induction false} EntersHere(p: seq<Module>, st: State, n: byte)
    requires st.modn < |p| && n < |p[st.modn].proc| && st.s as int + 4 < MEM_SIZE && st.cs < 0xFF00 && st.l == st.cs && st.g == p[st.modn].dataOfs
    ensures Exec(p, st, CallLocal(n)) == Some(Entered(st, st.cs + 0x100, st.modn, st.g, p[st.modn].proc[n], 0))
  {
  }

  lemma {:induction false} EntersAway(p: seq<Module>, st: State, m: byte, n: byte)
    requires st.modn < |p| && st.modn < 0x100 && m < |p| && n < |p[m].proc| && st.s as int + 4 < MEM_SIZE && m != 0
    ensures Exec(p, st, CallExt(m, n)) == Some(Entered(st, st.modn, m, p[m].dataOfs, p[m].proc[n], 0))
  {
  }

  /** RTN in such a frame goes back behind the call. */
  lemma {:induction false} ReturnsBack(u: Where, f: nat, st: State, en: State, e: State, w: word) returns (r: State)
    requires InScope(u.c) && CallsHere(u, f, st) && Reachable(u, ProcOf(u.c, f)) && st.s as int + 4 < MEM_SIZE && u.modn < 0x100
    requires var q := ProcOf(u.c, f);
             en == Entered(st, Link(u, q, st), Home(u, q), u.p[Home(u, q)].dataOfs, u.p[Home(u, q)].proc[q.num], |CallBytes(q, u.c.level).value|)
    requires e == en.(pc := e.pc, s := e.s, es := [w], mem := e.mem) && forall k: int :: 0 <= k < st.s as int + 4 ==> e.mem[k] == en.mem[k]
    requires Ready(u.p, e, [0xEC])
    ensures Leads(u.p)(e, Some(r)) && r == st.(pc := st.pc + |CallBytes(ProcOf(u.c, f), u.c.level).value|, es := [w], mem := e.mem)
  {
    hide Leads, Decode, CallBytes, Ready;
    var q := ProcOf(u.c, f);
    var k := |CallBytes(q, u.c.level).value|;
    r := st.(pc := st.pc + k, es := [w], mem := e.mem);
    ReturnDecodes(u.p, e);
    var next := Skip(e, 1);
    assert next.mem[next.cs] == Link(u, q, st) && next.mem[next.cs + 1] == st.l && next.mem[next.cs + 2] == st.pc + k;
    assert Exec(u.p, next, Return) == ReturnFrom(u.p, next) == Some(r);
    LeadsByExec(u.p, e, Decoded(Return, e.pc + 1), r);
  }

  lemma {:induction false} ReturnDecodes(p: seq<Module>, e: State)
    requires Ready(p, e, [0xEC])
    ensures e.pc < 0xFFFF && e.modn < |p| && 0 < e.pc && Decode(p[e.modn].code, e.pc) == Some(Decoded(Return, e.pc + 1))
  {
    FarDecodes(p[e.modn].code, e.pc, Return, [0xEC]);
  }

  // ------------------------------------------------------------- whole functions

  /** Function f of the scope is the compiled source fn, with room for its frame above `limit`. */
  ghost predicate Compiles(u: Where, f: nat, fn: Function)
    requires f < |u.c.procs|
  {
    var q := u.c.procs[f];
    && Reachable(u, q) && q.arity == |fn.types| <= EXS_SIZE && FunctionCode(fn).Some?
    && CodeAt(u.p[Home(u, q)].code, u.p[Home(u, q)].proc[q.num], FunctionCode(fn).value)
    && (forall g: word, base: word :: Accepted(fn, FrameOf(g, base, fn)))
    && u.limit + 4 + |fn.types| + StackWords(fn.body) < MEM_SIZE && u.limit < 0xFF00
  }

  /** The source returns for all arguments, with the results fs names. */
  ghost predicate Defined(fs: Pending.Meaning, f: nat, fn: Function) {
    forall ws: seq<word> {:trigger fs(f, ws)} :: |ws| == |fn.types| ==> Gives(fn, ws, fs(f, ws))
  }

  /** From entry to RTN. */
  lemma {:induction false} CodeGives(u: Where, f: nat, fn: Function, st: State, en: State, w: word) returns (e: State)
    requires InScope(u.c) && CallsHere(u, f, st) && Compiles(u, f, fn) && Gives(fn, st.es, w) && u.modn < 0x100 && st.cs < 0xFF00
    requires var q := ProcOf(u.c, f);
             en == Entered(st, Link(u, q, st), Home(u, q), u.p[Home(u, q)].dataOfs, u.p[Home(u, q)].proc[q.num], |CallBytes(q, u.c.level).value|)
    ensures Leads(u.p)(en, Some(e)) && Ready(u.p, e, [0xEC]) && e == en.(pc := e.pc, s := e.s, es := [w], mem := e.mem)
    ensures forall k: int :: 0 <= k < st.s as int + 4 ==> e.mem[k] == en.mem[k]
  {
    hide Leads, Ready, Assemble, Accepted, Gives, CallBytes, AssignedCode, Sketch, Framed, Unstack, Passed, Activated;
    var n, x, c := |fn.types|, Sketch(fn.body, 1).value, AssignedCode(fn.typ, fn.result, 1, 0).value;
    var body := Assemble(x, 0) + (c + [0xEC]);
    EntryReady(u, f, fn, en);
    ReadyParts(u.p, en, [0xEB, n], Unstack(n) + body);
    EntersFrame(u.p, en, n);
    var one := en.(pc := en.pc + 2, s := en.s + n);
    SamePlace(u.p, en.(pc := en.pc + 2), one, Unstack(n) + body);
    ReadyParts(u.p, one, Unstack(n), body);
    Unstacks(u.p, one);
    var two := one.(pc := one.pc + |Unstack(n)|, es := [], mem := Passed(one.mem, one.l + 4, one.es));
    LeadsOn(u.p, en, one, Some(two));
    SamePlace(u.p, one.(pc := one.pc + |Unstack(n)|), two, body);
    IsActivated(u.p, fn, one, two);
    assert Accepted(fn, FrameOf(two.g, two.l, fn));
    assert body == (Assemble(x, 0) + c) + [0xEC];
    ReadyParts(u.p, two, Assemble(x, 0) + c, [0xEC]);
    e := BodyGives(u.p, fn, two, st.es, w, x, c);
    LeadsOn(u.p, en, two, Some(e));
    SamePlace(u.p, two.(pc := two.pc + |Assemble(x, 0) + c|), e, [0xEC]);
  }

  lemma {:induction false} EntryReady(u: Where, f: nat, fn: Function, en: State)
    requires f < |u.c.procs| && Compiles(u, f, fn) && en.modn == Home(u, u.c.procs[f]) && en.pc == u.p[en.modn].proc[u.c.procs[f].num]
    ensures Ready(u.p, en, FunctionCode(fn).value)
  {
  }

  lemma {:induction false} IsActivated(p: seq<Module>, fn: Function, one: State, two: State)
    requires |one.es| == |fn.types| <= EXS_SIZE && one.modn < |p| && one.l == one.cs && one.cs < 0xFF00 && one.s as int == one.l as int + 4 + |one.es|
    requires two == one.(pc := two.pc, es := [], mem := Passed(one.mem, one.l + 4, one.es))
    ensures Activated(p, fn, two, one.es) && forall k: int :: 0 <= k < one.l as int + 4 ==> two.mem[k] == one.mem[k]
  {
  }

  lemma {:induction false} SameBelow(st: State, en: State, e: State, r: State)
    requires forall k: int :: 0 <= k < st.s as int + 4 && k < MEM_SIZE ==> e.mem[k] == en.mem[k]
    requires r.mem == e.mem && r.s == st.s && forall k: int :: 0 <= k < st.s as int ==> en.mem[k] == st.mem[k]
    ensures Pending.Below(st, r)
  {
  }

  /** A compiled function whose source returns does return to its caller, with the source's result in
      place of the arguments and memory below S as it was. */
  lemma {:induction false} FunctionReturns(u: Where, f: nat, fn: Function, st: State)
    requires InScope(u.c) && CallsHere(u, f, st) && Compiles(u, f, fn) && Defined(u.fs, f, fn)
    ensures ReturnsHere(u, f, st)
  {
    hide Leads, Ready, Assemble, Accepted, Gives, CallBytes, AssignedCode, Sketch, Framed;
    var q, w := ProcOf(u.c, f), u.fs(f, st.es);
    assert Gives(fn, st.es, w);
    var en := CallEnters(u, f, st);
    var e := CodeGives(u, f, fn, st, en, w);
    var r := ReturnsBack(u, f, st, en, e, w);
    LeadsOn(u.p, st, en, Some(e));
    LeadsOn(u.p, st, e, Some(r));
    SameBelow(st, en, e, r);
    assert Pending.Returned(u.fs, f, |st.es|, st, r) && Resumed(st, r, |CallBytes(q, u.c.level).value|);
  }

  /** All functions of the scope are compiled sources that return for all arguments. */
  ghost predicate AllCompiled(u: Where, fns: seq<Function>) {
    && InScope(u.c) && |fns| == |u.c.procs|
    && forall f :: 0 <= f < |fns| ==> Compiles(u, f, fns[f]) && Defined(u.fs, f, fns[f])
  }

  lemma {:induction false} FunctionsReturn(u: Where, fns: seq<Function>)
    requires AllCompiled(u, fns)
    ensures CallProof.Return(u)
  {
    hide Compiles, Defined, ReturnsHere;
    forall f: nat, st: State {:trigger CallsHere(u, f, st)} | CallsHere(u, f, st)
      ensures ReturnsHere(u, f, st)
    {
      FunctionReturns(u, f, fns[f], st);
    }
  }

  /** An expression with calls of compiled functions, however deeply nested: the emitted bytes leave
      its value on top of the waiting operands, memory below S as it was and the frame the same. */
  lemma {:induction false} CallsRun(u: Where, fns: seq<Function>, e: Pending.FExpr, at: Site, frag: seq<byte>, a: State) returns (b: State)
    requires AllCompiled(u, fns) && Framed(u, a) && Known(u.c, e)
    requires u.limit < MEM_SIZE && Pending.Fits(e, |a.es|, a.s, u.limit) && |a.es| <= EXS_SIZE
    requires at.Site? && at.sp == |a.es| && Emitted(u.c, at, e).Site? && Emitted(u.c, at, e).out == at.out + frag
    requires Ready(u.p, a, frag) && a.pc + |frag| < 0x1_0000
    ensures Leads(u.p)(a, Some(b)) && Resumed(a, b, |frag|)
    ensures b.es == a.es + [Pending.Value(u.fs, e)] && b.s == a.s && Pending.Below(a, b)
  {
    assert InScope(u.c);
    hide AllCompiled, CallProof.Return;
    FunctionsReturn(u, fns);
    b := EmittedRuns(u, e, at, frag, a);
  }

  // -------------------------------------------------------------------- an example

  /** PROCEDURE F(x: CARDINAL): CARDINAL; BEGIN RETURN x + 1 END F. */
  function Next(): Function {
    Function([Card], Empty, Card, Bin(Plus, Ref(Var(1, 4, Card)), Num(1)))
  }

  /** 5 + F(7). */
  function Example(): Pending.FExpr {
    Pending.Both(UAdd, Pending.Const(5), Pending.Apply(0, Pending.Args(Pending.NoArgs, Pending.Const(7))))
  }

  const NEXT_CODE: seq<byte> := [0xEB, 1, 0x34, 0x24, 1, 0xB8, 0xEC]
  const EXAMPLE_CODE: seq<byte> := [5, 0xB2, 7, 0xF1, 0xB0, 0xB8]

  /** A module with the function at 1 and the expression behind it. */
  function Program(): seq<Module> {
    [Module([], [], 0), Module([0xDE] + NEXT_CODE + EXAMPLE_CODE, [8, 1], 0x100)]
  }

  function Plus1(ws: seq<word>): word {
    if ws == [] then 0 else Wrap(ws[0] as int + 1)
  }

  function Successor(): Pending.Meaning {
    (f: nat, ws: seq<word>) => Plus1(ws)
  }

  function Setting(): Where {
    Where(Program(), Successor(), Scope([Callee(0, 0, 1, 1)], 0), 1, 0x1000)
  }

  lemma {:induction false} NextResult()
    ensures G.GenExpr(Next().result, 1) == Some(G.Frag([0x24, 1, 0xB8], G.ExpM(Card), 2))
    ensures TypeOf(Next().result) == Some(Card) && Vars(Next().result) == {Var(1, 4, Card)}
  {
    var x: Expr, one := Ref(Var(1, 4, Card)), Num(1);
    assert Next().result == Bin(Plus, x, one);
    assert G.GenExpr(x, 1) == Some(G.Frag([], G.VarM(Var(1, 4, Card)), 0));
    assert G.GenExpr(one, 1) == Some(G.Frag([], G.ConM(1, Card), 0));
    assert G.VarCode(Var(1, 4, Card), 1) == Some([0x24]) && [] + [0x24] == [0x24];
    assert G.Force(G.Frag([], G.VarM(Var(1, 4, Card)), 0), 1) == Some(G.Frag([0x24], G.ExpM(Card), 1));
    assert G.LitCode(1) == [1] && G.Opcode(Plus, Card) == 0xB8;
    assert [0x24] + [] + [1] + [0xB8] == [0x24, 1, 0xB8];
  }

  lemma {:induction false} NextCompiles(g: word, base: word)
    ensures FunctionCode(Next()) == Some(NEXT_CODE) && Accepted(Next(), FrameOf(g, base, Next()))
  {
    hide G.GenExpr, TypeOf, Vars;
    NextResult();
    var fn := Next();
    assert [0x24, 1, 0xB8] + [] == [0x24, 1, 0xB8];
    assert G.GenLoaded(fn.result, 1) == Some(G.Frag([0x24, 1, 0xB8], G.ExpM(Card), 2));
    assert AssignedCode(Card, fn.result, 1, 0) == Some([0x24, 1, 0xB8]);
    assert Param(fn, 0) == Var(1, 4, Card) && Param(fn, 0) in Params(fn);
    assert Unstack(1) == [0x34] + Unstack(0) == [0x34];
    assert Sketch(fn.body, 1).Some? && Assemble(Sketch(fn.body, 1).value, 0) == [];
    var c: seq<byte> := [0x24, 1, 0xB8];
    assert FunctionCode(fn) == Some([0xEB, 1] + ([0x34] + ([] + (c + [0xEC]))));
    assert [0xEB, 1] + ([0x34] + ([] + ([0x24, 1, 0xB8] + [0xEC]))) == NEXT_CODE;
  }

  lemma {:induction false} NextDefined()
    ensures Defined(Successor(), 0, Next())
  {
    forall ws: seq<word> {:trigger Successor()(0, ws)} | |ws| == 1
      ensures Gives(Next(), ws, Successor()(0, ws))
    {
      NextGives(ws);
    }
  }

  lemma {:induction false} NextGives(ws: seq<word>)
    requires |ws| == 1
    ensures Gives(Next(), ws, Plus1(ws))
  {
    var fn, x := Next(), Var(1, 4, Card);
    var t := ArgStore(fn, ws);
    assert Param(fn, 0) == x && x in Params(fn);
    assert Perform(fn.body, t, 0) == Done(t) && Programs.Finishes(fn.body, t, t);
    assert Eval(Ref(x), t) == Some(C(ws[0])) && Eval(Num(1), t) == Some(C(1));
    assert Eval(fn.result, t) == BinValue(Plus, Card, C(ws[0]), C(1)) == Some(C(Plus1(ws)));
    assert AssignedTo(fn.typ, fn.result, t) == Some(C(Plus1(ws)));
  }

  lemma {:induction false} SettingCompiled()
    ensures AllCompiled(Setting(), [Next()])
  {
    hide Accepted, FunctionCode, Gives;
    NextDefined();
    forall g: word, base: word
      ensures Accepted(Next(), FrameOf(g, base, Next()))
    {
      NextCompiles(g, base);
    }
    NextCompiles(0, 0);
    var code := Program()[1].code;
    assert code[1..8] == NEXT_CODE;
  }

  /** The expression of the example in a running frame: all that is asked for holds, and the machine
      gets 13. */
  lemma {:induction false} ExampleRuns() returns (a: State, b: State)
    ensures AllCompiled(Setting(), [Next()]) && Framed(Setting(), a) && Known(Setting().c, Example())
    ensures Ready(Program(), a, EXAMPLE_CODE) && Emitted(Setting().c, Site([], 0, []), Example()) == Site(EXAMPLE_CODE, 1, [])
    ensures Leads(Program())(a, Some(b)) && b.es == [13] && b.s == a.s && Pending.Below(a, b)
  {
    SettingCompiled();
    ExampleEmitted();
    ExampleValue();
    hide AllCompiled, Emitted, Pending.Value, Leads;
    var u := Setting();
    var mem: memory := seq(MEM_SIZE, _ => 0);
    a := State(1, 8, 0x100, 0x200, 0x204, 0x200, mem, []);
    assert Program()[1].code[8..14] == EXAMPLE_CODE;
    assert [] + EXAMPLE_CODE == EXAMPLE_CODE;
    b := CallsRun(u, [Next()], Example(), Site([], 0, []), EXAMPLE_CODE, a);
  }

  lemma {:induction false} ExampleValue()
    ensures Pending.Value(Successor(), Example()) == 13
  {
    var seven := Pending.Const(7);
    assert Pending.Values(Successor(), Pending.Args(Pending.NoArgs, seven)) == [7];
    assert Pending.Value(Successor(), Pending.Apply(0, Pending.Args(Pending.NoArgs, seven))) == 8;
  }

  lemma {:induction false} ConstEmitted(out: seq<byte>, sp: nat, n: byte)
    requires n < 0x10 && |out| < 100 && sp < 10
    ensures Emitted(Setting().c, Site(out, sp, []), Pending.Const(n)) == Site(out + [n], sp + 1, [])
  {
  }

  lemma {:induction false} CallEmitted()
    ensures CallSite(Site([5, 0xB2, 7], 1, []), ProcOf(Setting().c, 0), 0) == Site([5, 0xB2, 7, 0xF1], 1, [])
    ensures Adjusted(Site([5, 0xB2, 7, 0xF1], 1, []), 1, 1) == Site([5, 0xB2, 7, 0xF1, 0xB0], 2, [])
  {
    assert [5, 0xB2, 7] + [0xF1] == [5, 0xB2, 7, 0xF1] && [5, 0xB2, 7, 0xF1] + [0xB0] == [5, 0xB2, 7, 0xF1, 0xB0];
  }

  /** One step of the generator's way through an expression. */
  lemma {:induction false} EmittedUnfolds(c: Scope, a: Site, op: Pending.TotalOp, l: Pending.FExpr, r: Pending.FExpr, f: nat, args: Pending.FArgs)
    requires InScope(c)
    ensures Emitted(c, a, Pending.Both(op, l, r)) == CallGen.Put(Emitted(c, Emitted(c, a, l), r), [OpByte(op)], -1, 0)
    ensures Emitted(c, a, Pending.Apply(f, args))
         == Adjusted(CallSite(EmittedArgs(c, CallGen.Prepared(a), args), ProcOf(c, f), c.level), if a.Site? then a.sp else 0, 1)
    ensures EmittedArgs(c, a, Pending.NoArgs) == a
    ensures EmittedArgs(c, a, Pending.Args(args, l)) == Emitted(c, EmittedArgs(c, a, args), l)
  {
    hide CallSite, Adjusted, OpByte;
  }

  lemma {:induction false} ExampleEmitted()
    ensures Emitted(Setting().c, Site([], 0, []), Example()) == Site(EXAMPLE_CODE, 1, [])
  {
    var c, five, seven := Setting().c, Pending.Const(5), Pending.Const(7);
    var args := Pending.Args(Pending.NoArgs, seven);
    var s0, s1, s2 := Site([], 0, []), Site([5], 1, []), Site([5, 0xB2], 0, []);
    assert OpByte(UAdd) == 0xB8 && CallGen.Prepared(s1) == s2;
    hide CallSite, Adjusted, Emitted, EmittedArgs, OpByte, CallGen.Prepared;
    ConstEmitted([], 0, 5);
    ConstEmitted([5, 0xB2], 0, 7);
    CallEmitted();
    assert [] + [5] == [5] && [5, 0xB2] + [7] == [5, 0xB2, 7] && [5, 0xB2, 7, 0xF1, 0xB0] + [0xB8] == EXAMPLE_CODE;
    EmittedUnfolds(c, s0, UAdd, five, Pending.Apply(0, args), 0, args);
    EmittedUnfolds(c, s1, UAdd, five, five, 0, args);
    EmittedUnfolds(c, s2, UAdd, seven, seven, 0, Pending.NoArgs);
  }
}
