/** Words of one module's data used by another module, words stored and loaded in pairs, and words
    passed over the memory stack: what one instruction writes, another one reads. Every instruction is
    executed from its bytes. */
module FarData {
  import opened Words
  import opened Options
  import opened MCode
  import opened Machines
  import opened ExprProof
  import opened StmtProof
  import opened CallGen
  import opened Relocation
  import G = ExprGen

  /** The word n of the data of module m. */
  function Cell(p: seq<Module>, m: nat, n: nat): int
    requires m < |p|
  {
    p[m].dataOfs + n
  }

  /** The machine runs in a module, with G at its data. */
  predicate AtHome(p: seq<Module>, st: State) {
    st.modn < |p| && st.g == p[st.modn].dataOfs
  }

  // ------------------------------------------------------------ single instructions

  /** SGW. */
  lemma {:induction false} StoresOwn(p: seq<Module>, st: State, n: nat, c: seq<byte>, rest: seq<word>, w: word)
    requires AtHome(p, st) && G.OpArg(0x50, n) == Some(c) && 2 <= n && Ready(p, st, c) && st.es == rest + [w] && Cell(p, st.modn, n) < MEM_SIZE
    ensures st.pc + |c| < 0x1_0000
    ensures Leads(p)(st, Some(st.(pc := st.pc + |c|, es := rest, mem := st.mem[Cell(p, st.modn, n) := w])))
  {
    hide Leads, Decode, Ready, CodeAt, G.OpArg;
    OwnStoreDecodes(p, st, n, c);
    var next := Skip(st, |c|);
    Taken(next, rest, w);
    var to := st.(pc := st.pc + |c|, es := rest, mem := st.mem[Cell(p, st.modn, n) := w]);
    assert Exec(p, next, StoreGlobal(n)) == Some(to);
    LeadsByExec(p, st, Decoded(StoreGlobal(n), st.pc + |c|), to);
  }

  lemma {:induction false} OwnStoreDecodes(p: seq<Module>, st: State, n: nat, c: seq<byte>)
    requires G.OpArg(0x50, n) == Some(c) && 2 <= n && Ready(p, st, c)
    ensures st.modn < |p| && 0 < st.pc && st.pc + |c| < 0x1_0000
    ensures Decode(p[st.modn].code, st.pc) == Some(Decoded(StoreGlobal(n), st.pc + |c|))
  {
    hide Decode, Exec;
    if n < 0x10 {
      Op1(p, st, 0x50 + n, StoreGlobal(n));
    } else {
      Op2(p, st, 0x50, n, StoreGlobal(n));
    }
  }

  lemma {:induction false} Taken(st: State, rest: seq<word>, w: word)
    requires st.es == rest + [w]
    ensures Holds(st, 1) && Pop(st, 1) == st.(es := rest) && Top(st) == w
  {
    assert st.es[..|st.es| - 1] == rest;
  }

  /** SEW: the data of the module that it names, whichever module runs. */
  lemma {:induction false} StoresFar(p: seq<Module>, st: State, m: byte, n: byte, rest: seq<word>, w: word)
    requires m < |p| && Ready(p, st, [0x32, m, n]) && st.es == rest + [w] && Cell(p, m, n) < MEM_SIZE
    ensures st.pc + 3 < 0x1_0000
    ensures Leads(p)(st, Some(st.(pc := st.pc + 3, es := rest, mem := st.mem[Cell(p, m, n) := w])))
  {
    hide Leads, Decode, Ready, CodeAt, Exec;
    FarDecodes(p, st, 0x32, m, n, StoreExt(m, n));
    var to := st.(pc := st.pc + 3, es := rest, mem := st.mem[Cell(p, m, n) := w]);
    FarStoreEffect(p, Skip(st, 3), m, n, rest, w);
    LeadsByExec(p, st, Decoded(StoreExt(m, n), st.pc + 3), to);
  }

  lemma {:induction false} FarStoreEffect(p: seq<Module>, st: State, m: byte, n: byte, rest: seq<word>, w: word)
    requires st.modn < |p| && m < |p| && st.es == rest + [w] && Cell(p, m, n) < MEM_SIZE
    ensures Exec(p, st, StoreExt(m, n)) == Some(st.(es := rest, mem := st.mem[Cell(p, m, n) := w]))
  {
    Taken(st, rest, w);
    hide Pop, Top, Wrap;
  }

  lemma {:induction false} FarDecodes(p: seq<Module>, st: State, b: byte, m: byte, n: byte, i: Instr)
    requires Ready(p, st, [b, m, n]) && ((b == 0x32 && i == StoreExt(m, n)) || (b == 0x22 && i == LoadExt(m, n)) || (b == 0xED && i == CallExt(m, n)))
    ensures st.modn < |p| && 0 < st.pc && st.pc + 3 < 0x1_0000 && Decode(p[st.modn].code, st.pc) == Some(Decoded(i, st.pc + 3))
  {
    hide Decode, Exec;
    Op3(p, st, b, m, n, i);
  }

  /** LEW. */
  lemma {:induction false} LoadsFar(p: seq<Module>, st: State, m: byte, n: byte)
    requires m < |p| && Ready(p, st, [0x22, m, n]) && |st.es| < EXS_SIZE && Cell(p, m, n) < MEM_SIZE
    ensures st.pc + 3 < 0x1_0000 && Leads(p)(st, Some(Pushed(st, 3, st.mem[Cell(p, m, n)])))
  {
    hide Leads, Decode, Ready, CodeAt, Exec;
    FarDecodes(p, st, 0x22, m, n, LoadExt(m, n));
    FarLoadEffect(p, Skip(st, 3), m, n);
    LeadsByExec(p, st, Decoded(LoadExt(m, n), st.pc + 3), Pushed(st, 3, st.mem[Cell(p, m, n)]));
  }

  lemma {:induction false} FarLoadEffect(p: seq<Module>, st: State, m: byte, n: byte)
    requires st.modn < |p| && m < |p| && |st.es| < EXS_SIZE && Cell(p, m, n) < MEM_SIZE
    ensures Exec(p, st, LoadExt(m, n)) == Some(st.(es := st.es + [st.mem[Cell(p, m, n)]]))
  {
  }

  // ------------------------------------------------------------ between modules

  /** Control passes from a to b: another module runs, with its own data, and the word at k is as it was. */
  ghost predicate Passes(p: seq<Module>, a: State, b: State, k: int) {
    Leads(p)(a, Some(b)) && AtHome(p, b) && b.es == a.es && 0 <= k < MEM_SIZE && b.mem[k] == a.mem[k]
  }

  /** CLX passes control, and writes three words above S only. */
  lemma {:induction false} CallPasses(p: seq<Module>, a: State, m: byte, n: byte, k: int) returns (b: State)
    requires Ready(p, a, [0xED, m, n]) && m < |p| && n < |p[m].proc| && (m != 0 || n != 0) && a.modn < 0x100
    requires a.s as int + 4 < MEM_SIZE && 0 <= k < MEM_SIZE && !(a.s as int <= k <= a.s + 2)
    ensures Passes(p, a, b, k) && b.modn == m && b.pc == p[m].proc[n]
  {
    hide Leads, Decode, Ready, CodeAt;
    FarDecodes(p, a, 0xED, m, n, CallExt(m, n));
    var next := Skip(a, 3);
    b := Exec(p, next, CallExt(m, n)).value;
    LeadsByExec(p, a, Decoded(CallExt(m, n), a.pc + 3), b);
  }

  /** RTN to the module that has called passes control and writes nothing. */
  lemma {:induction false} ReturnPasses(p: seq<Module>, a: State, k: int) returns (b: State)
    requires Ready(p, a, [0xEC]) && a.cs as int + 2 < MEM_SIZE && a.mem[a.cs] < 0x100 && a.mem[a.cs] < |p| && 0 <= k < MEM_SIZE
    ensures Passes(p, a, b, k) && b.modn == a.mem[a.cs] && b.pc == a.mem[a.cs + 2] && b.mem == a.mem
  {
    hide Leads, Decode, Ready, CodeAt;
    ReturnIs(p, a);
    var next := Skip(a, 1);
    b := Exec(p, next, Return).value;
    LeadsByExec(p, a, Decoded(Return, a.pc + 1), b);
  }

  lemma {:induction false} ReturnIs(p: seq<Module>, a: State)
    requires Ready(p, a, [0xEC])
    ensures a.modn < |p| && 0 < a.pc && a.pc + 1 < 0x1_0000 && Decode(p[a.modn].code, a.pc) == Some(Decoded(Return, a.pc + 1))
  {
    hide Decode, Exec;
    Op1(p, a, 0xEC, Return);
  }

  /** What a module stores into its own data with SGW, another module loads with LEW, wherever control
      has passed to meanwhile. */
  lemma {:induction false} OwnThenFar(p: seq<Module>, a: State, m: byte, n: byte, c: seq<byte>, rest: seq<word>, w: word, b: State)
    requires AtHome(p, a) && a.modn == m && G.OpArg(0x50, n) == Some(c) && 2 <= n && Ready(p, a, c) && a.es == rest + [w]
    requires Cell(p, m, n) < MEM_SIZE && |rest| < EXS_SIZE && a.pc + |c| < 0x1_0000
    requires Passes(p, a.(pc := a.pc + |c|, es := rest, mem := a.mem[Cell(p, m, n) := w]), b, Cell(p, m, n)) && Ready(p, b, [0x22, m, n])
    ensures b.pc + 3 < 0x1_0000 && Leads(p)(a, Some(b.(pc := b.pc + 3, es := rest + [w])))
  {
    hide Leads, Ready, CodeAt, G.OpArg;
    StoresOwn(p, a, n, c, rest, w);
    var one := a.(pc := a.pc + |c|, es := rest, mem := a.mem[Cell(p, m, n) := w]);
    LoadsFar(p, b, m, n);
    LeadsOn(p, a, one, Some(b));
    LeadsOn(p, a, b, Some(Pushed(b, 3, w)));
  }

  /** What SEW stores into the data of module m, module m itself loads with LGW. */
  lemma {:induction false} FarThenOwn(p: seq<Module>, a: State, m: byte, n: byte, c: seq<byte>, rest: seq<word>, w: word, b: State)
    requires m < |p| && Ready(p, a, [0x32, m, n]) && a.es == rest + [w] && Cell(p, m, n) < MEM_SIZE && |rest| < EXS_SIZE && a.pc + 3 < 0x1_0000
    requires Passes(p, a.(pc := a.pc + 3, es := rest, mem := a.mem[Cell(p, m, n) := w]), b, Cell(p, m, n)) && b.modn == m
    requires G.OpArg(0x40, n) == Some(c) && 2 <= n && Ready(p, b, c)
    ensures b.pc + |c| < 0x1_0000 && Leads(p)(a, Some(b.(pc := b.pc + |c|, es := rest + [w])))
  {
    hide Leads, Ready, CodeAt, G.OpArg;
    StoresFar(p, a, m, n, rest, w);
    var one := a.(pc := a.pc + 3, es := rest, mem := a.mem[Cell(p, m, n) := w]);
    OwnLoads(p, b, n, c);
    LeadsOn(p, a, one, Some(b));
    LeadsOn(p, a, b, Some(Pushed(b, |c|, w)));
  }

  /** SGW in module m, CLX, and LEW at the entry of the procedure called in another module: the word is
      the same. */
  lemma {:induction false} SharedByCall(p: seq<Module>, a: State, m: byte, n: byte, c: seq<byte>, rest: seq<word>, w: word, k: byte, j: byte) returns (e: State)
    requires AtHome(p, a) && a.modn == m && G.OpArg(0x50, n) == Some(c) && 2 <= n && a.es == rest + [w] && Ready(p, a, c + [0xED, k, j])
    requires k < |p| && j < |p[k].proc| && (k != 0 || j != 0) && a.s as int + 4 < MEM_SIZE && Cell(p, m, n) < a.s as int && |rest| < EXS_SIZE
    requires CodeAt(p[k].code, p[k].proc[j], [0x22, m, n]) && 0 < p[k].proc[j] && |p[k].code| < 0x1_0000
    ensures Leads(p)(a, Some(e)) && e.modn == k && e.es == rest + [w] && e.pc == p[k].proc[j] + 3
  {
    hide Leads, CodeAt, G.OpArg;
    ReadyParts(p, a, c, [0xED, k, j]);
    var one := a.(pc := a.pc + |c|, es := rest, mem := a.mem[Cell(p, m, n) := w]);
    SamePlace(p, a.(pc := a.pc + |c|), one, [0xED, k, j]);
    var b := CallPasses(p, one, k, j, Cell(p, m, n));
    OwnThenFar(p, a, m, n, c, rest, w, b);
    e := b.(pc := b.pc + 3, es := rest + [w]);
  }

  lemma {:induction false} OwnLoads(p: seq<Module>, b: State, n: nat, c: seq<byte>)
    requires AtHome(p, b) && G.OpArg(0x40, n) == Some(c) && 2 <= n && Ready(p, b, c) && |b.es| < EXS_SIZE && Cell(p, b.modn, n) < MEM_SIZE
    ensures b.pc + |c| < 0x1_0000 && Leads(p)(b, Some(Pushed(b, |c|, b.mem[Cell(p, b.modn, n)])))
  {
    hide Leads, CodeAt;
    GlobalRuns(p, b, n, c);
  }

  // --------------------------------------------------------------------- pairs

  /** SLD puts two words into the frame, the upper one of the stack into the higher word, and changes
      nothing else. */
  lemma {:induction false} StoresPair(p: seq<Module>, st: State, n: byte, rest: seq<word>, x: word, y: word)
    requires Ready(p, st, [0x31, n]) && st.es == rest + [x, y] && st.l as int + n + 1 < MEM_SIZE
    ensures st.pc + 2 < 0x1_0000
    ensures Leads(p)(st, Some(st.(pc := st.pc + 2, es := rest, mem := st.mem[st.l + n := x][st.l + n + 1 := y])))
  {
    hide Leads, Decode, Ready, CodeAt, Exec;
    PairDecodes(p, st, 0x31, n, StorePair(n));
    var to := st.(pc := st.pc + 2, es := rest, mem := st.mem[st.l + n := x][st.l + n + 1 := y]);
    PairStoreEffect(p, Skip(st, 2), n, rest, x, y);
    LeadsByExec(p, st, Decoded(StorePair(n), st.pc + 2), to);
  }

  lemma {:induction false} PairStoreEffect(p: seq<Module>, st: State, n: byte, rest: seq<word>, x: word, y: word)
    requires st.modn < |p| && st.es == rest + [x, y] && st.l as int + n + 1 < MEM_SIZE
    ensures Exec(p, st, StorePair(n)) == Some(st.(es := rest, mem := st.mem[st.l + n := x][st.l + n + 1 := y]))
  {
    assert Pop(st, 2).es == rest && Top(st) == y && Second(st) == x && Wrap(st.l + n) == st.l + n;
    assert st.mem[st.l + n + 1 := y][st.l + n := x] == st.mem[st.l + n := x][st.l + n + 1 := y];
    hide Pop, Top, Second, Wrap;
  }

  lemma {:induction false} PairDecodes(p: seq<Module>, st: State, b: byte, n: byte, i: Instr)
    requires Ready(p, st, [b, n]) && ((b == 0x31 && i == StorePair(n)) || (b == 0x21 && i == LoadPair(n)))
    ensures st.modn < |p| && 0 < st.pc && st.pc + 2 < 0x1_0000 && Decode(p[st.modn].code, st.pc) == Some(Decoded(i, st.pc + 2))
  {
    hide Decode, Exec;
    Op2(p, st, b, n, i);
  }

  lemma {:induction false} LoadsPair(p: seq<Module>, st: State, n: byte)
    requires Ready(p, st, [0x21, n]) && |st.es| + 2 <= EXS_SIZE && st.l as int + n + 1 < MEM_SIZE
    ensures st.pc + 2 < 0x1_0000
    ensures Leads(p)(st, Some(st.(pc := st.pc + 2, es := st.es + [st.mem[st.l + n], st.mem[st.l + n + 1]])))
  {
    hide Leads, Decode, Ready, CodeAt, Exec;
    PairDecodes(p, st, 0x21, n, LoadPair(n));
    PairLoadEffect(p, Skip(st, 2), n);
    LeadsByExec(p, st, Decoded(LoadPair(n), st.pc + 2), st.(pc := st.pc + 2, es := st.es + [st.mem[st.l + n], st.mem[st.l + n + 1]]));
  }

  lemma {:induction false} PairLoadEffect(p: seq<Module>, st: State, n: byte)
    requires st.modn < |p| && |st.es| + 2 <= EXS_SIZE && st.l as int + n + 1 < MEM_SIZE
    ensures Exec(p, st, LoadPair(n)) == Some(st.(es := st.es + [st.mem[st.l + n], st.mem[st.l + n + 1]]))
  {
    var x, y := st.mem[st.l + n], st.mem[st.l + n + 1];
    assert Wrap(st.l + n) == st.l + n && st.es + [x] + [y] == st.es + [x, y];
  }

  /** Two words stored with SLD are loaded by LLD in their order. */
  lemma {:induction false} PairComesBack(p: seq<Module>, st: State, n: byte, rest: seq<word>, x: word, y: word)
    requires Ready(p, st, [0x31, n] + [0x21, n]) && st.es == rest + [x, y] && |st.es| <= EXS_SIZE && st.l as int + n + 1 < MEM_SIZE
    ensures st.pc + 4 < 0x1_0000
    ensures Leads(p)(st, Some(st.(pc := st.pc + 4, mem := st.mem[st.l + n := x][st.l + n + 1 := y])))
  {
    ReadyParts(p, st, [0x31, n], [0x21, n]);
    hide Leads, Ready, CodeAt;
    StoresPair(p, st, n, rest, x, y);
    var one := st.(pc := st.pc + 2, es := rest, mem := st.mem[st.l + n := x][st.l + n + 1 := y]);
    SamePlace(p, st.(pc := st.pc + 2), one, [0x21, n]);
    LoadsPair(p, one, n);
    LeadsOn(p, st, one, Some(st.(pc := st.pc + 4, mem := one.mem)));
  }

  // ------------------------------------------------------------ the memory stack

  /** STOT moves a word to the memory stack, and DECS takes it off again. */
  lemma {:induction false} MovedAndDropped(p: seq<Module>, st: State, rest: seq<word>, w: word) returns (one: State)
    requires Ready(p, st, [0xB4] + [0xB6]) && st.es == rest + [w] && st.s as int + 1 < MEM_SIZE
    ensures st.pc + 2 < 0x1_0000 && one == st.(pc := st.pc + 1, es := rest, s := st.s + 1, mem := st.mem[st.s := w])
    ensures Leads(p)(st, Some(one)) && Leads(p)(one, Some(one.(pc := st.pc + 2, s := st.s)))
  {
    hide Leads, Ready, CodeAt, Decode, Exec;
    ReadyParts(p, st, [0xB4], [0xB6]);
    one := st.(pc := st.pc + 1, es := rest, s := st.s + 1, mem := st.mem[st.s := w]);
    SamePlace(p, st.(pc := st.pc + 1), one, [0xB6]);
    StackDecodes(p, st, 0xB4, ToStack);
    StackDecodes(p, one, 0xB6, DropStack);
    StackEffects(p, Skip(st, 1), rest, w, Skip(one, 1));
    LeadsByExec(p, st, Decoded(ToStack, st.pc + 1), one);
    LeadsByExec(p, one, Decoded(DropStack, one.pc + 1), one.(pc := st.pc + 2, s := st.s));
  }

  lemma {:induction false} StackEffects(p: seq<Module>, st: State, rest: seq<word>, w: word, one: State)
    requires st.modn < |p| && st.es == rest + [w] && st.s as int + 1 < MEM_SIZE && one.modn < |p| && one.s == st.s + 1
    ensures Exec(p, st, ToStack) == Some(st.(es := rest, s := st.s + 1, mem := st.mem[st.s := w]))
    ensures Exec(p, one, DropStack) == Some(one.(s := st.s))
  {
    Taken(st, rest, w);
    hide Pop, Top;
  }

  lemma {:induction false} StackDecodes(p: seq<Module>, st: State, b: byte, i: Instr)
    requires Ready(p, st, [b]) && ((b == 0xB4 && i == ToStack) || (b == 0xB6 && i == DropStack))
    ensures st.modn < |p| && 0 < st.pc && st.pc + 1 < 0x1_0000 && Decode(p[st.modn].code, st.pc) == Some(Decoded(i, st.pc + 1))
  {
    hide Decode, Exec;
    Op1(p, st, b, i);
  }

  // ------------------------------------------------------------------ relocation

  /** The instruction at place at, whose module number is m. */
  predicate FarInstr(code: seq<byte>, at: word, m: byte, n: byte) {
    && at + 3 < 0x1_0000 && at + 3 <= |code|
    && match code[at]
       case 0x22 => Decode(code, at) == Some(Decoded(LoadExt(m, n), at + 3))
       case 0x32 => Decode(code, at) == Some(Decoded(StoreExt(m, n), at + 3))
       case 0xED => Decode(code, at) == Some(Decoded(CallExt(m, n), at + 3))
       case 0x12 => Decode(code, at) == Some(Decoded(Push(m * 0x100 + n), at + 3))
       case _ => false
  }

  /** Relocation of LEW, SEW, CLX and of a procedure descriptor in LIW: what was said of the import m is
      said of its place in the module table, and nothing else of the instruction changes. */
  lemma {:induction false} FarRelocated(code: seq<byte>, at: word, m: byte, n: byte, places: seq<byte>)
    requires FarInstr(code, at, m, n) && 1 <= m <= |places|
    ensures Fixed(code, [at + 1], places).Some? && FarInstr(Fixed(code, [at + 1], places).value, at, places[m - 1], n)
    ensures forall k :: 0 <= k < |code| && k != at + 1 ==> Fixed(code, [at + 1], places).value[k] == code[k]
  {
    FarBytes(code, at, m, n);
    hide Decode;
    var fixed := code[at + 1 := places[m - 1]];
    var locs: seq<word> := [at + 1];
    assert locs[1..] == [];
    assert Fixed(fixed, [], places) == Some(fixed);
    FarAgain(fixed, at);
  }

  lemma {:induction false} FarBytes(code: seq<byte>, at: word, m: byte, n: byte)
    requires FarInstr(code, at, m, n)
    ensures code[at + 1] == m && code[at + 2] == n && code[at] in {0x12, 0x22, 0x32, 0xED}
  {
  }

  lemma {:induction false} FarAgain(code: seq<byte>, at: word)
    requires at + 3 < 0x1_0000 && at + 3 <= |code| && code[at] in {0x12, 0x22, 0x32, 0xED}
    ensures FarInstr(code, at, code[at + 1], code[at + 2])
  {
  }

  /** A noted byte is relocated exactly behind one of the seven operation codes that take a module number:
      LIW, LEA, LEW, LED, SEW, SED and CLX. */
  lemma {:induction false} OnlyFarRelocated(code: seq<byte>, at: word, places: seq<byte>)
    requires at + 1 < 0x1_0000 && at + 1 < |code| && 1 <= code[at + 1] <= |places|
    ensures var op := code[at];
            Fixed(code, [at + 1], places).Some? <==>
              op == 0x12 || op == 0x17 || op == 0x22 || op == 0x23 || op == 0x32 || op == 0x33 || op == 0xED
  {
    var locs: seq<word> := [at + 1];
    assert locs[1..] == [];
  }
}
