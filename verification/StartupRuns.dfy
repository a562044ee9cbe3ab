/** The machine starting a program: the code that the generator puts before a module's own
    statements makes the walk over the imports. */
module StartupRuns {
  import opened Words
  import opened Options
  import opened MCode
  import opened Machines
  import opened Startup
  import opened ExprProof
  import opened StmtGen
  import opened StmtProof
  import Runs
  import G = ExprGen

  /** Where the code of a module's procedure 0 goes on behind the procedures, where SGW2 stands
      behind the code for structured variables, where the module's own statements start, and the
      RTN behind them. */
  datatype Place = Place(first: word, cont: word, body: word, end: word)

  /** LGA 1, TS, JPFC 2, RTN, LGA adr. */
  function Prologue(adr: byte): seq<byte> {
    [0x15, 1, 0x94, 0x1A, 2, 0xEC, 0x15, adr]
  }

  /** CLX to procedure 0 of every import, with the module numbers the loader has put in. */
  function ImportCalls(ms: seq<nat>): (c: seq<byte>)
    ensures |c| == 3 * |ms|
  {
    if ms == [] then [] else [0xED, ms[0] % 0x100, 0] + ImportCalls(ms[1..])
  }

  /** COPT, SGW vadr, and the size added to the address on the stack. */
  function StructCode(x: Struct): seq<byte> {
    [0xB5] + (if x.vadr < 0x10 then [0x50 + x.vadr] else [0x50, x.vadr])
    + if x.size < 0x100 then [0x16, x.size] else G.LitCode(x.size) + [0xB8]
  }

  /** `scanlist1` in a module. */
  function StructsCode(ss: seq<Struct>): seq<byte> {
    if ss == [] then [] else StructCode(ss[0]) + StructsCode(ss[1..])
  }

  /** Addresses 0 and 1 of the data hold no variables. */
  predicate Addressed(ss: seq<Struct>) {
    forall k :: 0 <= k < |ss| ==> ss[k].vadr >= 2
  }

  predicate Laid(m: Module, i: Init, at: Place) {
    && m.dataOfs == i.g && |m.code| < 0x1_0000 && |m.proc| > 0 && 0 < m.proc[0]
    && CodeAt(m.code, m.proc[0], Prologue(i.adr)) && Addressed(i.structs)
    && (at.first == m.proc[0] + 8
        || (m.proc[0] + 8 < at.first && CodeAt(m.code, m.proc[0] + 8, FarJump(0x19, at.first - (m.proc[0] + 9)))))
    && CodeAt(m.code, at.first, StructsCode(i.structs)) && at.cont == at.first + |StructsCode(i.structs)|
    && CodeAt(m.code, at.cont, [0x52] + ImportCalls(i.imports)) && at.body == at.cont + 1 + 3 * |i.imports|
    && 0 < at.end && CodeAt(m.code, at.end, [0xEC])
  }

  // --------------------------------------------------------- states on the way

  /** A call of module m has opened its frame; the data of all modules lies below base. */
  predicate InFrame(p: seq<Module>, st: State, m: nat, base: nat) {
    && m < |p| && st.modn == m && st.g == p[m].dataOfs && st.l == st.cs && st.s as int == st.cs as int + 4
    && st.es == [] && base <= st.cs
  }

  predicate AtBody(p: seq<Module>, at: Place, m: nat, base: nat, top: nat, st: State) {
    InFrame(p, st, m, base) && st.pc == at.body && st.s <= top
  }

  /** Below the memory stack's top only the modules' data may change. */
  predicate SameFrames(a: memory, b: memory, base: nat, s: word)
    requires base <= s
  {
    a[base..s] == b[base..s]
  }

  /** A module's own statements come to its RTN, with the effect the walk knows them by. */
  ghost predicate BodyEnds(p: seq<Module>, i: Init, at: Place, st: State, base: nat)
    requires base <= st.s
  {
    exists mem: memory ::
      && Leads(p)(st, Some(st.(pc := at.end, mem := mem)))
      && mem[..base] == i.effect(st.mem[..base]) && SameFrames(st.mem, mem, base, st.s)
  }

  /** The statements of every module end when they are started with one of these data. */
  ghost predicate BodiesEnd(p: seq<Module>, inits: seq<Init>, places: seq<Place>, base: nat, top: nat, starts: seq<(nat, Data)>) {
    && |p| == |inits| == |places|
    && forall m, st {:trigger AtBody(p, places[m], m, base, top, st)} ::
      0 < m < |p| && AtBody(p, places[m], m, base, top, st) && (m, st.mem[..base]) in starts ==> BodyEnds(p, inits[m], places[m], st, base)
  }

  /** All statements started so far are among these. */
  predicate Covered(w: Walk, starts: seq<(nat, Data)>) {
    forall k :: 0 <= k < |w.starts| ==> w.starts[k] in starts
  }

  /** The loaded program: every module's code as the generator lays it out, and
      room for the frames of all calls between base and top. */
  ghost predicate Loaded(p: seq<Module>, inits: seq<Init>, places: seq<Place>, base: nat, top: nat) {
    && |p| == |inits| == |places| <= 0x100 && base <= top <= 0xFE00
    && Apart(inits, base)
    && forall m :: 0 < m < |p| ==> Laid(p[m], inits[m], places[m])
  }

  // -------------------------------------------------------------- the prologue

  /** LGA 1 and TS: the flag's old value is on the stack, and the flag is set. */
  lemma {:induction false} AsksFlag(p: seq<Module>, st: State, adr: byte, flag: word)
    requires Ready(p, st, Prologue(adr)) && st.es == [] && st.g as int + 1 == flag as int
    ensures Leads(p)(st, Some(st.(pc := st.pc + 3, es := [st.mem[flag]], mem := st.mem[flag := 1])))
  {
    hide Decode, Exec;
    PrologueParts(p, st, adr);
    Op2(p, st, 0x15, 1, GlobalAdr(1));
    var one := st.(pc := st.pc + 2, es := [flag]);
    GlobalAdrEffect(p, Skip(st, 2), 1, flag);
    Take(p, st, GlobalAdr(1), 2, Some(one));
    Op1(p, one, 0x94, TestSet);
    var two := st.(pc := st.pc + 3, es := [st.mem[flag]], mem := st.mem[flag := 1]);
    TestSetEffect(p, Skip(one, 1), flag);
    Take(p, one, TestSet, 1, Some(two));
    LeadsOn(p, st, one, Some(two));
  }

  lemma {:induction false} GlobalAdrEffect(p: seq<Module>, st: State, n: byte, a: word)
    requires st.modn < |p| && st.es == [] && a == Wrap(st.g + n)
    ensures Effect(p)(st, GlobalAdr(n)) == Some(st.(es := [a]))
  {
    assert st.es + [a] == [a];
    assert Exec(p, st, GlobalAdr(n)) == Some(st.(es := [a]));
  }

  lemma {:induction false} TestSetEffect(p: seq<Module>, st: State, flag: word)
    requires st.modn < |p| && st.es == [flag]
    ensures Effect(p)(st, TestSet) == Some(st.(es := [st.mem[flag]], mem := st.mem[flag := 1]))
  {
    assert Pop(st, 1).es == [] && [] + [st.mem[flag]] == [st.mem[flag]];
    assert Exec(p, st, TestSet) == Some(st.(es := [st.mem[flag]], mem := st.mem[flag := 1]));
  }

  lemma {:induction false} PrologueParts(p: seq<Module>, st: State, adr: byte)
    requires Ready(p, st, Prologue(adr))
    ensures st.pc + 8 < 0x1_0000
    ensures Ready(p, st, [0x15, 1]) && Ready(p, Skip(st, 2), [0x94]) && Ready(p, Skip(st, 3), [0x1A, 2])
    ensures Ready(p, Skip(st, 5), [0xEC]) && Ready(p, Skip(st, 6), [0x15, adr])
  {
    var code := p[st.modn].code;
    assert Prologue(adr) == [0x15, 1] + [0x94, 0x1A, 2, 0xEC, 0x15, adr];
    CodeAtParts(code, st.pc, [0x15, 1], [0x94, 0x1A, 2, 0xEC, 0x15, adr]);
    assert [0x94, 0x1A, 2, 0xEC, 0x15, adr] == [0x94] + [0x1A, 2, 0xEC, 0x15, adr];
    CodeAtParts(code, st.pc + 2, [0x94], [0x1A, 2, 0xEC, 0x15, adr]);
    assert [0x1A, 2, 0xEC, 0x15, adr] == [0x1A, 2] + [0xEC, 0x15, adr];
    CodeAtParts(code, st.pc + 3, [0x1A, 2], [0xEC, 0x15, adr]);
    assert [0xEC, 0x15, adr] == [0xEC] + [0x15, adr];
    CodeAtParts(code, st.pc + 5, [0xEC], [0x15, adr]);
  }

  /** JPFC 2: to the RTN when the flag was set, else behind it. */
  lemma {:induction false} Decides(p: seq<Module>, st: State, adr: byte, was: word)
    requires Ready(p, st.(pc := st.pc), Prologue(adr)) && st.pc + 8 < 0x1_0000 && st.es == []
    ensures Leads(p)(st.(pc := st.pc + 3, es := [was]), Some(st.(pc := st.pc + if was == 0 then 6 else 5)))
  {
    hide Decode, Exec;
    PrologueParts(p, st, adr);
    var one := st.(pc := st.pc + 3, es := [was]);
    Op2(p, one, 0x1A, 2, JumpFalse(st.pc + 6));
    var two := st.(pc := st.pc + if was == 0 then 6 else 5);
    JumpFalseEffect(p, Skip(one, 2), st.pc + 6, was);
    Take(p, one, JumpFalse(st.pc + 6), 2, Some(two));
  }

  lemma {:induction false} JumpFalseEffect(p: seq<Module>, st: State, to: word, x: word)
    requires st.modn < |p| && st.es == [x]
    ensures Effect(p)(st, JumpFalse(to)) == Some(if x == 0 then st.(pc := to, es := []) else st.(es := []))
  {
    assert Exec(p, st, JumpFalse(to)) == Some(if x == 0 then st.(pc := to, es := []) else st.(es := []));
  }

  /** The state behind SGW2. */
  function SpaceGiven(st: State, i: Init, at: Place): State
    requires WordsWithin(i, MEM_SIZE) && at.cont as int + 1 < 0x1_0000
  {
    st.(pc := at.cont + 1, mem := Spread(st.mem, i.g, Wrap(i.g + i.adr), i.structs))
  }

  /** All words that lead to structured variables lie within the first n. */
  predicate WordsWithin(i: Init, n: nat) {
    i.g + 2 < n && forall k :: 0 <= k < |i.structs| ==> i.g + i.structs[k].vadr < n
  }

  /** LGA adr, the jump over the procedures, the structured variables, and SGW2. */
  lemma {:induction false} Prepares(p: seq<Module>, st: State, i: Init, at: Place)
    requires st.modn < |p| && Laid(p[st.modn], i, at) && st.pc == p[st.modn].proc[0] && st.es == [] && st.g == i.g && WordsWithin(i, MEM_SIZE)
    ensures at.cont as int + 1 < 0x1_0000 && st.pc as int + 8 < 0x1_0000
    ensures Leads(p)(st.(pc := st.pc + 6), Some(SpaceGiven(st, i, at)))
  {
    hide Decode, Exec, ImportCalls, FarJump, StructsCode, Spread, Wrap, DecodeTwo, DecodeThree, Effect, CodeAt, Leads;
    var code := p[st.modn].code;
    PrologueParts(p, st, i.adr);
    CodeAtParts(code, at.cont, [0x52], ImportCalls(i.imports));
    var a := Wrap(i.g + i.adr);
    var zero, one := st.(pc := st.pc + 6), st.(pc := st.pc + 8, es := [a]);
    Op2(p, zero, 0x15, i.adr, GlobalAdr(i.adr));
    GlobalAdrEffect(p, Skip(zero, 2), i.adr, a);
    Take(p, zero, GlobalAdr(i.adr), 2, Some(one));
    var two := st.(pc := at.first, es := [a]);
    if at.first != st.pc + 8 {
      JumpsOver(p, one, at.first);
      LeadsOn(p, zero, one, Some(two));
    }
    StructsRun(p, two, i.structs, a);
    LeadsOn(p, zero, two, Some(SpaceGiven(st, i, at)));
  }

  /** The address goes from one structured variable to the next. */
  lemma {:induction false} StructsRun(p: seq<Module>, st: State, ss: seq<Struct>, a: word)
    requires Ready(p, st, StructsCode(ss)) && st.es == [a] && Addressed(ss)
    requires st.g as int + 2 < MEM_SIZE && forall k :: 0 <= k < |ss| ==> st.g as int + ss[k].vadr < MEM_SIZE
    requires st.pc as int + |StructsCode(ss)| + 1 < 0x1_0000 && CodeAt(p[st.modn].code, st.pc + |StructsCode(ss)|, [0x52])
    ensures Leads(p)(st, Some(st.(pc := st.pc + |StructsCode(ss)| + 1, es := [], mem := Spread(st.mem, st.g, a, ss))))
    decreases |ss|
  {
    hide Decode, Exec, StructCode;
    if ss == [] {
      Op1(p, st, 0x52, StoreGlobal(2));
      StoreGlobalEffect(p, Skip(st, 1), [], a, 2);
      Take(p, st, StoreGlobal(2), 1, Some(st.(pc := st.pc + 1, es := [], mem := st.mem[st.g + 2 := a])));
    } else {
      CodeAtParts(p[st.modn].code, st.pc, StructCode(ss[0]), StructsCode(ss[1..]));
      var one := StructRuns(p, st, ss[0], a);
      StructsRun(p, one, ss[1..], Wrap(a + ss[0].size));
      LeadsOn(p, st, one, Some(st.(pc := st.pc + |StructsCode(ss)| + 1, es := [], mem := Spread(st.mem, st.g, a, ss))));
    }
  }

  lemma {:induction false} StructRuns(p: seq<Module>, st: State, x: Struct, a: word) returns (end: State)
    requires Ready(p, st, StructCode(x)) && st.es == [a] && x.vadr >= 2 && st.g as int + x.vadr < MEM_SIZE && st.pc as int + |StructCode(x)| < 0x1_0000
    ensures end == st.(pc := st.pc + |StructCode(x)|, es := [Wrap(a + x.size)], mem := st.mem[st.g + x.vadr := a])
    ensures Leads(p)(st, Some(end))
  {
    hide Decode, Exec, Wrap, DecodeByte, DecodeTwo, Effect, DecodeThree, CodeAt, ExecUnary, ExecBinary;
    var store := if x.vadr < 0x10 then [0x50 + x.vadr] else [0x50, x.vadr];
    var add := if x.size < 0x100 then [0x16, x.size] else G.LitCode(x.size) + [0xB8];
    var code := p[st.modn].code;
    CodeAtParts(code, st.pc, [0xB5] + store, add);
    CodeAtParts(code, st.pc, [0xB5], store);
    var one := st.(pc := st.pc + 1, es := [a, a]);
    Op1(p, st, 0xB5, CopyTop);
    CopyTopEffect(p, Skip(st, 1), a);
    Take(p, st, CopyTop, 1, Some(one));
    var two := st.(pc := st.pc + 1 + |store|, mem := st.mem[st.g + x.vadr := a]);
    StoreDecodes(p, one, x.vadr, store);
    StoreGlobalEffect(p, Skip(one, |store|), [a], a, x.vadr);
    Take(p, one, StoreGlobal(x.vadr), |store|, Some(two));
    LeadsOn(p, st, one, Some(two));
    end := AddRuns(p, two, x.size, add, a);
    LeadsOn(p, st, two, Some(end));
  }

  lemma {:induction false} StoreDecodes(p: seq<Module>, st: State, v: byte, store: seq<byte>)
    requires v >= 2 && store == (if v < 0x10 then [0x50 + v] else [0x50, v]) && Ready(p, st, store) && st.pc as int + |store| < 0x1_0000
    ensures Decode(p[st.modn].code, st.pc) == Some(Decoded(StoreGlobal(v), st.pc + |store|))
  {
    if v < 0x10 {
      Op1(p, st, 0x50 + v, StoreGlobal(v));
    } else {
      Op2(p, st, 0x50, v, StoreGlobal(v));
    }
  }

  lemma {:induction false} AddRuns(p: seq<Module>, st: State, n: word, add: seq<byte>, a: word) returns (end: State)
    requires add == (if n < 0x100 then [0x16, n] else G.LitCode(n) + [0xB8]) && Ready(p, st, add) && st.es == [a] && st.pc as int + |add| < 0x1_0000
    ensures end == st.(pc := st.pc + |add|, es := [Wrap(a + n)]) && Leads(p)(st, Some(end))
  {
    end := st.(pc := st.pc + |add|, es := [Wrap(a + n)]);
    if n < 0x100 {
      AddShort(p, st, n, a);
    } else {
      AddLong(p, st, n, a);
    }
  }

  /** LSA. */
  lemma {:induction false} AddShort(p: seq<Module>, st: State, n: byte, a: word)
    requires Ready(p, st, [0x16, n]) && st.es == [a] && st.pc < 0xFFFE
    ensures Leads(p)(st, Some(st.(pc := st.pc + 2, es := [Wrap(a + n)])))
  {
    hide Decode, Exec, Wrap, Effect, CodeAt, Leads;
    Op2(p, st, 0x16, n, StackAdr(n));
    StackAdrEffect(p, Skip(st, 2), n, a);
    Take(p, st, StackAdr(n), 2, Some(st.(pc := st.pc + 2, es := [Wrap(a + n)])));
  }

  /** A literal and UADD. */
  lemma {:induction false} AddLong(p: seq<Module>, st: State, n: word, a: word)
    requires Ready(p, st, G.LitCode(n) + [0xB8]) && st.es == [a] && st.pc as int + |G.LitCode(n)| + 1 < 0x1_0000
    ensures Leads(p)(st, Some(st.(pc := st.pc + |G.LitCode(n)| + 1, es := [Wrap(a + n)])))
  {
    AddWords(a, n);
    hide Decode, Exec, Wrap, Effect, CodeAt, Leads, G.LitCode, Ready, Apply;
    var lit := G.LitCode(n);
    ReadyBoth(p, st, lit, [0xB8]);
    PushLit(p, st, n);
    var one := Pushed(st, |lit|, n);
    assert one.es == [] + [a, n];
    BinaryRuns(p, one, 0xB8, UAdd, [], a, n);
    assert [] + [Wrap(a + n)] == [Wrap(a + n)];
    LeadsOn(p, st, one, Some(st.(pc := st.pc + |lit| + 1, es := [Wrap(a + n)])));
  }

  lemma {:induction false} AddWords(a: word, n: word)
    ensures Apply(UAdd, a, n) == Some(Wrap(a + n)) && DecodePlain(0xB8) == Some(Binary(UAdd))
  {
  }

  lemma {:induction false} ReadyBoth(p: seq<Module>, st: State, a: seq<byte>, b: seq<byte>)
    requires Ready(p, st, a + b) && |b| > 0
    ensures Ready(p, st, a) && st.pc + |a| < 0x1_0000 && forall w {:trigger Pushed(st, |a|, w)} :: Ready(p, Pushed(st, |a|, w), b)
  {
    CodeAtParts(p[st.modn].code, st.pc, a, b);
  }

  lemma {:induction false} CopyTopEffect(p: seq<Module>, st: State, a: word)
    requires st.modn < |p| && st.es == [a]
    ensures Effect(p)(st, CopyTop) == Some(st.(es := [a, a]))
  {
    assert st.es + [a] == [a, a];
    assert Exec(p, st, CopyTop) == Some(st.(es := [a, a]));
  }

  lemma {:induction false} StackAdrEffect(p: seq<Module>, st: State, n: byte, a: word)
    requires st.modn < |p| && st.es == [a]
    ensures Effect(p)(st, StackAdr(n)) == Some(st.(es := [Wrap(a + n)]))
  {
    assert Pop(st, 1).es == [] && [] + [Wrap(a + n)] == [Wrap(a + n)];
    assert Exec(p, st, StackAdr(n)) == Some(st.(es := [Wrap(a + n)]));
  }

  lemma {:induction false} JumpsOver(p: seq<Module>, st: State, to: word)
    requires st.pc < to && Ready(p, st, FarJump(0x19, to - (st.pc + 1)))
    ensures Leads(p)(st, Some(st.(pc := to)))
  {
    var d := to - (st.pc + 1);
    assert Wrap(d) == d && Wrap(st.pc + 1 + d) == to;
    FarJumpStep(p, st, d, to);
  }

  lemma {:induction false} StoreGlobalEffect(p: seq<Module>, st: State, rest: seq<word>, a: word, n: byte)
    requires st.modn < |p| && st.es == rest + [a] && st.g as int + n < MEM_SIZE
    ensures Effect(p)(st, StoreGlobal(n)) == Some(st.(es := rest, mem := st.mem[st.g + n := a]))
  {
    assert Pop(st, 1).es == rest;
    assert Exec(p, st, StoreGlobal(n)) == Some(st.(es := rest, mem := st.mem[st.g + n := a]));
  }

  // ------------------------------------------------------------ calls and returns

  /** The state a call of procedure 0 of module k leads to. */
  function Called(p: seq<Module>, st: State, k: nat): State
    requires k < |p| && |p[k].proc| > 0 && st.s as int + 4 < MEM_SIZE && st.modn < 0x1_0000
  {
    st.(mem := st.mem[st.s := st.modn][st.s + 1 := st.l][st.s + 2 := st.pc], s := st.s + 4, cs := st.s, l := st.s,
        modn := k, g := p[k].dataOfs, pc := p[k].proc[0])
  }

  /** CLX to procedure 0 of an import. */
  lemma {:induction false} Calls(p: seq<Module>, st: State, k: nat)
    requires Ready(p, st, [0xED, k % 0x100, 0]) && 0 < k < |p| && k < 0x100 && |p[k].proc| > 0 && st.s as int + 4 < MEM_SIZE && st.modn < 0x100
    ensures st.pc as int + 3 < 0x1_0000
    ensures Leads(p)(st, Some(Called(p, Skip(st, 3), k)))
  {
    hide Exec;
    Op3(p, st, 0xED, k, 0, CallExt(k, 0));
    CallEffect(p, Skip(st, 3), k);
    Take(p, st, CallExt(k, 0), 3, Some(Called(p, Skip(st, 3), k)));
  }

  lemma {:induction false} CallEffect(p: seq<Module>, st: State, k: nat)
    requires st.modn < |p| && 0 < k < |p| && k < 0x100 && |p[k].proc| > 0 && st.s as int + 4 < MEM_SIZE && st.modn < 0x100
    ensures Effect(p)(st, CallExt(k, 0)) == Some(Called(p, st, k))
  {
    assert Exec(p, st, CallExt(k, 0)) == CallAway(p, st, ToExternal, k, 0);
  }

  /** The state RTN leads to when the frame was opened by a call from another module. */
  function Back(p: seq<Module>, st: State): State
    requires st.cs as int + 2 < MEM_SIZE && st.mem[st.cs] as int < |p|
  {
    st.(s := st.cs, pc := st.mem[st.cs + 2], l := st.mem[st.cs + 1], cs := st.mem[st.cs + 1],
        modn := st.mem[st.cs], g := p[st.mem[st.cs]].dataOfs)
  }

  lemma {:induction false} Returns(p: seq<Module>, st: State)
    requires Ready(p, st, [0xEC]) && st.cs as int + 2 < MEM_SIZE && st.mem[st.cs] as int < |p| && st.mem[st.cs] < 0x100
    ensures Leads(p)(st, Some(Back(p, st)))
  {
    hide Exec;
    ReadyEnds(p, st);
    Op1(p, st, 0xEC, Return);
    ReturnEffect(p, Skip(st, 1));
    Take(p, st, Return, 1, Some(Back(p, st)));
  }

  lemma {:induction false} ReadyEnds(p: seq<Module>, st: State)
    requires Ready(p, st, [0xEC])
    ensures st.pc as int + 1 < 0x1_0000
  {
  }

  lemma {:induction false} ReturnEffect(p: seq<Module>, st: State)
    requires st.modn < |p| && st.cs as int + 2 < MEM_SIZE && st.mem[st.cs] as int < |p| && st.mem[st.cs] < 0x100
    ensures Effect(p)(st, Return) == Some(Back(p, st))
  {
    assert Exec(p, st, Return) == ReturnFrom(p, st);
  }

  // ------------------------------------------------------------------ the walk

  /** Procedure 0 of module m has just been called, with room for the calls to come. */
  ghost predicate AtEntry(p: seq<Module>, inits: seq<Init>, st: State, m: nat, base: nat, top: nat)
    requires Apart(inits, base)
  {
    && InFrame(p, st, m, base) && 0 < m < |inits| && |p[m].proc| > 0 && st.pc == p[m].proc[0]
    && st.mem[st.cs] as int < |p| && st.s as int + 4 * Unset(inits, st.mem[..base], |inits|) <= top
  }

  lemma {:induction false} VisitRuns(p: seq<Module>, inits: seq<Init>, places: seq<Place>, base: nat, top: nat, st: State, m: nat,
                                     w: Walk, starts: seq<(nat, Data)>) returns (end: State)
    requires Loaded(p, inits, places, base, top) && AtEntry(p, inits, st, m, base, top) && w.data == st.mem[..base]
    requires BodiesEnd(p, inits, places, base, top, starts) && Covered(Visit(inits, w, m), starts)
    ensures Leads(p)(st, Some(end)) && end == Back(p, st).(mem := end.mem)
    ensures end.mem[..base] == Visit(inits, w, m).data && SameFrames(st.mem, end.mem, base, st.cs)
    decreases Unset(inits, st.mem[..base], |inits|), 1, 0
  {
    hide Laid, Apart, BodiesEnd, Visit, VisitAll, Unset, MarkStarted, Covered;
    var one := Asked(p, inits, places, base, top, st, m);
    if Flagged(inits, w.data, m) {
      end := Leaves(p, inits, places, base, top, st, one, m);
      LeadsOn(p, st, one, Some(end));
      VisitAgain(inits, w, m);
    } else {
      var two := Entered(p, inits, places, base, top, st, one, m);
      EnterFewer(inits, w.data, m);
      FrameSame(st.mem, two.mem, base, st.cs, st.s);
      AtImports(p, inits, places, base, top, two, m);
      assert inits[m].imports[0..] == inits[m].imports;
      VisitFirst(inits, w, m);
      MarkedAre(inits, base, m);
      var v := w.(data := MarkStarted(inits, w.data, m));
      CoveredPart(VisitAll(inits, v, inits[m].imports), Visit(inits, w, m), starts);
      var three := AllRun(p, inits, places, base, top, two, m, 0, v, starts);
      StartCovered(Visit(inits, w, m), (m, three.mem[..base]), starts);
      end := Finishes(p, inits, places, base, top, two, three, m, starts);
      LeadsOn(p, st, one, Some(two));
      LeadsOn(p, st, two, Some(three));
      LeadsOn(p, st, three, Some(end));
    }
  }

  lemma {:induction false} CoveredPart(w: Walk, x: Walk, starts: seq<(nat, Data)>)
    requires Covered(x, starts) && w.starts <= x.starts
    ensures Covered(w, starts)
  {
  }

  lemma {:induction false} StartCovered(x: Walk, last: (nat, Data), starts: seq<(nat, Data)>)
    requires Covered(x, starts) && x.starts != [] && x.starts[|x.starts| - 1] == last
    ensures last in starts
  {
  }

  /** The prologue up to its decision. */
  lemma {:induction false} Asked(p: seq<Module>, inits: seq<Init>, places: seq<Place>, base: nat, top: nat, st: State, m: nat) returns (one: State)
    requires Loaded(p, inits, places, base, top) && AtEntry(p, inits, st, m, base, top)
    ensures st.pc as int + 8 < 0x1_0000 && FlagOf(inits, m) < base && Leads(p)(st, Some(one))
    ensures one == st.(pc := st.pc + if Flagged(inits, st.mem[..base], m) then 5 else 6, mem := st.mem[FlagOf(inits, m) := 1])
  {
    hide BodiesEnd, Unset, Prologue;
    assert Laid(p[m], inits[m], places[m]);
    var flag: word := FlagOf(inits, m);
    PrologueParts(p, st, inits[m].adr);
    AsksFlag(p, st, inits[m].adr, flag);
    var set1 := st.(mem := st.mem[flag := 1]);
    Decides(p, set1, inits[m].adr, st.mem[flag]);
    one := set1.(pc := st.pc + if st.mem[flag] == 0 then 6 else 5);
    LeadsOn(p, st, set1.(pc := st.pc + 3, es := [st.mem[flag]]), Some(one));
  }

  lemma {:induction false} VisitAgain(inits: seq<Init>, w: Walk, m: nat)
    requires Apart(inits, |w.data|) && 0 < m < |inits| && Flagged(inits, w.data, m)
    ensures Visit(inits, w, m) == w.(data := w.data[FlagOf(inits, m) := 1])
  {
  }

  lemma {:induction false} VisitFirst(inits: seq<Init>, w: Walk, m: nat)
    requires Apart(inits, |w.data|) && 0 < m < |inits| && !Flagged(inits, w.data, m)
    ensures InTable(inits, inits[m].imports)
    ensures var x := VisitAll(inits, w.(data := MarkStarted(inits, w.data, m)), inits[m].imports);
            && Visit(inits, w, m).data == inits[m].effect(x.data) && Visit(inits, w, m).starts == x.starts + [(m, x.data)]
  {
  }

  lemma {:induction false} EnterFewer(inits: seq<Init>, d: Data, m: nat)
    requires Apart(inits, |d|) && m < |inits| && !Flagged(inits, d, m)
    ensures Unset(inits, MarkStarted(inits, d, m), |inits|) < Unset(inits, d, |inits|)
  {
    MarkedOnly(inits, d, m);
    FewerUnset(inits, d, MarkStarted(inits, d, m), |inits|);
  }

  /** A module started before returns at once. */
  lemma {:induction false} Leaves(p: seq<Module>, inits: seq<Init>, places: seq<Place>, base: nat, top: nat, st: State, one: State, m: nat)
    returns (end: State)
    requires Loaded(p, inits, places, base, top) && AtEntry(p, inits, st, m, base, top) && st.pc as int + 8 < 0x1_0000
    requires one == st.(pc := st.pc + 5, mem := st.mem[FlagOf(inits, m) := 1])
    ensures Leads(p)(one, Some(end)) && end == Back(p, st).(mem := end.mem)
    ensures end.mem[..base] == st.mem[..base][FlagOf(inits, m) := 1] && SameFrames(st.mem, end.mem, base, st.cs)
  {
    hide BodiesEnd, Unset, Prologue;
    assert Laid(p[m], inits[m], places[m]);
    PrologueParts(p, st, inits[m].adr);
    Returns(p, one);
    end := Back(p, one);
  }

  /** A module started for the first time prepares its data. */
  lemma {:induction false} Entered(p: seq<Module>, inits: seq<Init>, places: seq<Place>, base: nat, top: nat, st: State, one: State, m: nat)
    returns (two: State)
    requires Loaded(p, inits, places, base, top) && AtEntry(p, inits, st, m, base, top) && st.pc as int + 8 < 0x1_0000
    requires one == st.(pc := st.pc + 6, mem := st.mem[FlagOf(inits, m) := 1])
    ensures places[m].cont as int + 1 < 0x1_0000 && Leads(p)(one, Some(two))
    ensures two == st.(pc := places[m].cont + 1, mem := two.mem)
    ensures two.mem[..base] == MarkStarted(inits, st.mem[..base], m) && SameFrames(st.mem, two.mem, base, st.s)
  {
    hide BodiesEnd, Unset, Prologue, Apart, CodeAt, Spread;
    assert Laid(p[m], inits[m], places[m]);
    MarkedAre(inits, base, m);
    var i, low := inits[m], st.mem[..base][FlagOf(inits, m) := 1];
    Prepares(p, st.(mem := one.mem), i, places[m]);
    two := SpaceGiven(st.(mem := one.mem), i, places[m]);
    assert low == one.mem[..base] && one.mem[base..] == st.mem[base..];
    SpreadLow(one.mem, base, st.g, Wrap(i.g + i.adr), i.structs);
    SameAbove(st.mem, two.mem, base, st.s);
  }

  lemma {:induction false} SameAbove(a: memory, b: memory, base: nat, s: word)
    requires base <= s && a[base..] == b[base..]
    ensures SameFrames(a, b, base, s)
  {
    assert a[base..s] == a[base..][..s - base] && b[base..s] == b[base..][..s - base];
  }

  lemma {:induction false} MarkedAre(inits: seq<Init>, n: nat, m: nat)
    requires Apart(inits, n) && m < |inits|
    ensures FlagOf(inits, m) < n && AllPlain(inits, inits[m].g, inits[m].structs, n) && WordsWithin(inits[m], n)
  {
  }

  /** Structured variables are spread within the modules' data. */
  lemma {:induction false} SpreadLow(d: Data, base: nat, g: nat, a: word, ss: seq<Struct>)
    requires g + 2 < base <= |d| && forall k :: 0 <= k < |ss| ==> g + ss[k].vadr < base
    ensures Spread(d, g, a, ss)[..base] == Spread(d[..base], g, a, ss) && Spread(d, g, a, ss)[base..] == d[base..]
    decreases |ss|
  {
    if ss != [] {
      var v := g + ss[0].vadr;
      assert d[v := a][..base] == d[..base][v := a] && d[v := a][base..] == d[base..];
      SpreadLow(d[v := a], base, g, Wrap(a + ss[0].size), ss[1..]);
    } else {
      assert d[g + 2 := a][..base] == d[..base][g + 2 := a] && d[g + 2 := a][base..] == d[base..];
    }
  }

  /** The calls of the imports from the k-th on are what the machine comes to. */
  ghost predicate BeforeImport(p: seq<Module>, inits: seq<Init>, places: seq<Place>, base: nat, top: nat, st: State, m: nat, k: nat)
    requires Apart(inits, base)
  {
    && InFrame(p, st, m, base) && 0 < m < |inits| && k <= |inits[m].imports| && |places| == |inits|
    && st.pc as int == places[m].cont as int + 1 + 3 * k && Ready(p, st, ImportCalls(inits[m].imports[k..]))
    && st.s as int + 4 * Unset(inits, st.mem[..base], |inits|) + 4 <= top
  }

  lemma {:induction false} AtImports(p: seq<Module>, inits: seq<Init>, places: seq<Place>, base: nat, top: nat, st: State, m: nat)
    requires Loaded(p, inits, places, base, top) && InFrame(p, st, m, base) && 0 < m < |inits|
    requires st.pc as int == places[m].cont as int + 1 && st.s as int + 4 * Unset(inits, st.mem[..base], |inits|) + 4 <= top
    ensures BeforeImport(p, inits, places, base, top, st, m, 0)
  {
    hide BodiesEnd, Unset, Prologue;
    assert Laid(p[m], inits[m], places[m]);
    CodeAtParts(p[m].code, places[m].cont, [0x52], ImportCalls(inits[m].imports));
    assert inits[m].imports[0..] == inits[m].imports;
  }

  lemma {:induction false} AllRun(p: seq<Module>, inits: seq<Init>, places: seq<Place>, base: nat, top: nat, st: State, m: nat, k: nat,
                                  w: Walk, starts: seq<(nat, Data)>) returns (end: State)
    requires Loaded(p, inits, places, base, top) && BeforeImport(p, inits, places, base, top, st, m, k) && w.data == st.mem[..base]
    requires InTable(inits, inits[m].imports[k..]) && BodiesEnd(p, inits, places, base, top, starts)
    requires Covered(VisitAll(inits, w, inits[m].imports[k..]), starts)
    ensures Leads(p)(st, Some(end)) && end == st.(pc := places[m].body, mem := end.mem)
    ensures end.mem[..base] == VisitAll(inits, w, inits[m].imports[k..]).data
    ensures SameFrames(st.mem, end.mem, base, st.s)
    decreases Unset(inits, st.mem[..base], |inits|), 2, |inits[m].imports| - k
  {
    hide Laid, Apart, BodiesEnd, Visit, VisitAll, Unset, Ready, AtEntry, Covered;
    var ms := inits[m].imports[k..];
    ImportsKnown(p, inits, places, base, top, m, k);
    if k == |inits[m].imports| {
      end := st;
      NoImports(inits, w, ms);
      LeadsSelf(p, st);
    } else {
      var q := inits[m].imports[k];
      assert ms[0] == q && ms[1..] == inits[m].imports[k + 1..];
      var next := OneImport(p, inits, places, base, top, st, m, k);
      var x := Visit(inits, w, q);
      MoreImports(inits, w, ms);
      CoveredPart(x, VisitAll(inits, w, ms), starts);
      if q == 0 {
        VisitSystem(inits, w);
      } else {
        var called := Called(p, next, q);
        CalledEntry(p, inits, places, base, top, st, next, called, m, k);
        var back := VisitRuns(p, inits, places, base, top, called, q, w, starts);
        BackAgain(p, base, next, called, back, q);
        LeadsOn(p, st, called, Some(back));
        next := back;
      }
      FewerLeft(inits, w, x);
      NextImport(p, inits, places, base, top, st, next, m, k);
      end := AllRun(p, inits, places, base, top, next, m, k + 1, x, starts);
      LeadsOn(p, st, next, Some(end));
    }
  }

  lemma {:induction false} ImportsKnown(p: seq<Module>, inits: seq<Init>, places: seq<Place>, base: nat, top: nat, m: nat, k: nat)
    requires Loaded(p, inits, places, base, top) && 0 < m < |inits| && k <= |inits[m].imports|
    ensures InTable(inits, inits[m].imports[k..]) && places[m].body as int == places[m].cont as int + 1 + 3 * |inits[m].imports|
    ensures k < |inits[m].imports| ==> inits[m].imports[k] < |inits|
    ensures forall q :: 0 < q < |p| ==> |p[q].proc| > 0 && p[q].dataOfs == inits[q].g
  {
    assert InTable(inits, inits[m].imports);
    assert Laid(p[m], inits[m], places[m]);
    forall q | 0 < q < |p|
      ensures |p[q].proc| > 0 && p[q].dataOfs == inits[q].g
    {
      assert Laid(p[q], inits[q], places[q]);
    }
  }

  lemma {:induction false} LeadsSelf(p: seq<Module>, st: State)
    ensures Leads(p)(st, Some(st))
  {
    Runs.Stay(Machine(p), st);
    assert LeadsTo(p, st, Some(st));
  }

  lemma {:induction false} NoImports(inits: seq<Init>, w: Walk, ms: seq<nat>)
    requires Apart(inits, |w.data|) && ms == []
    ensures VisitAll(inits, w, ms) == w
  {
  }

  lemma {:induction false} MoreImports(inits: seq<Init>, w: Walk, ms: seq<nat>)
    requires Apart(inits, |w.data|) && ms != [] && InTable(inits, ms)
    ensures VisitAll(inits, w, ms) == VisitAll(inits, Visit(inits, w, ms[0]), ms[1..])
  {
  }

  lemma {:induction false} VisitSystem(inits: seq<Init>, w: Walk)
    requires Apart(inits, |w.data|) && 0 < |inits|
    ensures Visit(inits, w, 0) == w
  {
  }

  lemma {:induction false} FewerLeft(inits: seq<Init>, w: Walk, x: Walk)
    requires Apart(inits, |w.data|) && More(inits, w.data, x.data)
    ensures Unset(inits, x.data, |inits|) <= Unset(inits, w.data, |inits|)
  {
    FewerUnset(inits, w.data, x.data, |inits|);
  }

  /** CLX of one import: a call, or nothing for the system module. */
  lemma {:induction false} OneImport(p: seq<Module>, inits: seq<Init>, places: seq<Place>, base: nat, top: nat, st: State, m: nat, k: nat)
    returns (next: State)
    requires Loaded(p, inits, places, base, top) && BeforeImport(p, inits, places, base, top, st, m, k) && k < |inits[m].imports|
    ensures inits[m].imports[k] < |p| && st.pc as int + 3 < 0x1_0000 && next == Skip(st, 3)
    ensures inits[m].imports[k] == 0 ==> Leads(p)(st, Some(next))
    ensures inits[m].imports[k] != 0 ==>
              && |p[inits[m].imports[k]].proc| > 0 && st.s as int + 4 < MEM_SIZE && st.modn < 0x100
              && Leads(p)(st, Some(Called(p, next, inits[m].imports[k])))
  {
    hide BodiesEnd, Unset, Exec, Apart, Decode, Wrap, Effect, DecodeThree, CodeAt, ExecUnary, ExecBinary;
    ImportsKnown(p, inits, places, base, top, m, k);
    var q, ms := inits[m].imports[k], inits[m].imports[k..];
    assert ms[0] == q && q % 0x100 == q;
    assert ImportCalls(ms) == [0xED, q, 0] + ImportCalls(ms[1..]);
    CodeAtParts(p[m].code, st.pc, [0xED, q, 0], ImportCalls(ms[1..]));
    next := st.(pc := st.pc + 3);
    if q == 0 {
      Op3(p, st, 0xED, 0, 0, CallExt(0, 0));
      SystemEffect(p, next);
      Take(p, st, CallExt(0, 0), 3, Some(next));
    } else {
      Calls(p, st, q);
    }
  }

  lemma {:induction false} SystemEffect(p: seq<Module>, st: State)
    requires st.modn < |p|
    ensures Effect(p)(st, CallExt(0, 0)) == Some(st)
  {
    assert Exec(p, st, CallExt(0, 0)) == Some(st);
  }

  lemma {:induction false} CalledEntry(p: seq<Module>, inits: seq<Init>, places: seq<Place>, base: nat, top: nat, st: State, next: State, called: State,
                    m: nat, k: nat)
    requires Loaded(p, inits, places, base, top) && BeforeImport(p, inits, places, base, top, st, m, k) && k < |inits[m].imports|
    requires 0 < inits[m].imports[k] < |p| && |p[inits[m].imports[k]].proc| > 0 && st.pc as int + 3 < 0x1_0000
    requires next == Skip(st, 3) && st.s as int + 4 < MEM_SIZE && st.modn < 0x1_0000 && called == Called(p, next, inits[m].imports[k])
    ensures called.mem[..base] == st.mem[..base] && AtEntry(p, inits, called, inits[m].imports[k], base, top)
  {
    hide BodiesEnd, Unset, Ready, Apart, Laid;
    assert called.mem[..base] == st.mem[..base];
  }

  /** After the return everything is as before the call, except the data and the stack above S. */
  lemma {:induction false} BackAgain(p: seq<Module>, base: nat, next: State, called: State, back: State, q: nat)
    requires q < |p| <= 0x100 && |p[q].proc| > 0 && next.s as int + 4 < MEM_SIZE && InFrame(p, next, next.modn, base) && next.modn < |p|
    requires called == Called(p, next, q) && called.mem[called.cs] as int < |p|
    requires back == Back(p, called).(mem := back.mem) && SameFrames(called.mem, back.mem, base, called.cs)
    ensures back == next.(mem := back.mem) && SameFrames(next.mem, back.mem, base, next.s)
  {
    assert called.mem[base..next.s] == next.mem[base..next.s];
  }

  lemma {:induction false} NextImport(p: seq<Module>, inits: seq<Init>, places: seq<Place>, base: nat, top: nat, st: State, next: State, m: nat, k: nat)
    requires Loaded(p, inits, places, base, top) && BeforeImport(p, inits, places, base, top, st, m, k) && k < |inits[m].imports|
    requires st.pc as int + 3 < 0x1_0000 && next == Skip(st, 3).(mem := next.mem)
    requires Unset(inits, next.mem[..base], |inits|) <= Unset(inits, st.mem[..base], |inits|)
    ensures BeforeImport(p, inits, places, base, top, next, m, k + 1)
  {
    hide BodiesEnd, Unset, Apart, Laid;
    var ms := inits[m].imports[k..];
    assert ImportCalls(ms) == [0xED, ms[0] % 0x100, 0] + ImportCalls(ms[1..]);
    assert ms[1..] == inits[m].imports[k + 1..];
    CodeAtParts(p[m].code, st.pc, [0xED, ms[0] % 0x100, 0], ImportCalls(ms[1..]));
  }

  /** The module's own statements, and RTN. */
  lemma {:induction false} Finishes(p: seq<Module>, inits: seq<Init>, places: seq<Place>, base: nat, top: nat, st: State, three: State, m: nat,
                                    starts: seq<(nat, Data)>) returns (end: State)
    requires Loaded(p, inits, places, base, top) && InFrame(p, st, m, base) && 0 < m < |inits| && st.s <= top
    requires BodiesEnd(p, inits, places, base, top, starts) && (m, three.mem[..base]) in starts
    requires st.mem[st.cs] as int < |p| && three == st.(pc := places[m].body, mem := three.mem) && SameFrames(st.mem, three.mem, base, st.s)
    ensures Leads(p)(three, Some(end)) && end == Back(p, st).(mem := end.mem)
    ensures end.mem[..base] == inits[m].effect(three.mem[..base]) && SameFrames(st.mem, end.mem, base, st.cs)
  {
    hide Unset, Apart;
    assert AtBody(p, places[m], m, base, top, three);
    assert BodyEnds(p, inits[m], places[m], three, base);
    var mem: memory :| Leads(p)(three, Some(three.(pc := places[m].end, mem := mem)))
      && mem[..base] == inits[m].effect(three.mem[..base]) && SameFrames(three.mem, mem, base, three.s);
    var four := three.(pc := places[m].end, mem := mem);
    assert Laid(p[m], inits[m], places[m]);
    FrameSame(st.mem, mem, base, st.cs, st.s);
    Returns(p, four);
    end := Back(p, four);
    LeadsOn(p, three, four, Some(end));
  }

  lemma {:induction false} FrameSame(a: memory, b: memory, base: nat, cs: word, s: word)
    requires base <= cs && s as int == cs as int + 4 && SameFrames(a, b, base, s)
    ensures a[cs] == b[cs] && a[cs + 1] == b[cs + 1] && a[cs + 2] == b[cs + 2] && SameFrames(a, b, base, cs)
  {
    forall k | base <= k < s
      ensures a[k] == b[k]
    {
      assert a[base..s][k - base] == b[base..s][k - base];
    }
  }

  // -------------------------------------------------------------- the program

  /** How the emulator starts module m: a frame at the bottom of the stack that returns to
      address 0 of the system module, and a jump to procedure 0. */
  function Started(p: seq<Module>, mem: memory, base: nat, m: nat): State
    requires m < |p| && |p[m].proc| > 0 && base + 4 < MEM_SIZE
  {
    State(m, p[m].proc[0], p[m].dataOfs, base, base + 4, base, mem[base := 0][base + 1 := 0][base + 2 := 0], [])
  }

  /** The started program comes to a halt with the data the walk ends with, when the statements of every
      module end with the data they find on this walk. */
  lemma {:induction false} ProgramStarts(p: seq<Module>, inits: seq<Init>, places: seq<Place>, base: nat, top: nat, mem: memory, m: nat) returns (end: State)
    requires Loaded(p, inits, places, base, top) && 0 < m < |p| && Fresh(inits, mem[..base]) && base + 4 + 4 * |inits| <= top
    requires BodiesEnd(p, inits, places, base, top, Visit(inits, Walk(mem[..base], [], []), m).starts)
    ensures |p[m].proc| > 0 && Leads(p)(Started(p, mem, base, m), Some(end)) && Halted(end)
    ensures end.mem[..base] == Visit(inits, Walk(mem[..base], [], []), m).data && end.s as int == base && end.es == []
  {
    hide BodiesEnd, Visit;
    assert Laid(p[m], inits[m], places[m]);
    var st := Started(p, mem, base, m);
    assert st.mem[..base] == mem[..base];
    UnsetAtMost(inits, mem[..base], |inits|);
    var w := Walk(mem[..base], [], []);
    end := VisitRuns(p, inits, places, base, top, st, m, w, Visit(inits, w, m).starts);
  }

  lemma {:induction false} UnsetAtMost(inits: seq<Init>, d: Data, n: nat)
    requires n <= |inits| && forall m :: 0 <= m < |inits| ==> FlagOf(inits, m) < |d|
    ensures Unset(inits, d, n) <= n
  {
    if n > 0 {
      UnsetAtMost(inits, d, n - 1);
    }
  }
}
