/** Module bodies in a started program: where the bodies are compiled source programs, the walk over
    the imports runs exactly these. */
module ModuleBodies {
  import opened Words
  import opened Options
  import opened MCode
  import opened Machines
  import opened Lang
  import opened StmtLang
  import opened ExprProof
  import opened Blocks
  import opened StmtGen
  import opened StmtProof
  import opened StmtParts
  import opened StmtRun
  import opened Programs
  import S = Startup
  import opened StartupRuns

  /** A module's source: its variables and its statements. */
  datatype Source = Source(env: Env, body: Stmt)

  /** Data e is data d with the variables as in store t. */
  ghost predicate Writes(env: Env, t: Store, d: seq<word>, e: seq<word>)
    requires WellLaid(env)
  {
    && |e| == |d| && t.Keys == env.vars && Typed(t)
    && (forall v :: v in env.vars ==> 0 <= Address(env, v) < |d| && e[Address(env, v)] == Encode(t[v]))
    && forall k :: 0 <= k < |d| && !VarCell(env, k) ==> e[k] == d[k]
  }

  /** Every variable's word encodes a value of its type. */
  ghost predicate Holds(x: Source, d: seq<word>) {
    && WellLaid(x.env)
    && forall v :: v in x.env.vars ==> 0 <= Address(x.env, v) < |d| && (v.typ == Bool ==> d[Address(x.env, v)] <= 1)
  }

  /** The store that the data holds. */
  ghost function StoreOf(x: Source, d: seq<word>): (s: Store)
    requires Holds(x, d)
    ensures s.Keys == x.env.vars
  {
    map v | v in x.env.vars :: FromWord(v.typ, d[Address(x.env, v)])
  }

  lemma {:induction false} StoreHeld(x: Source, d: seq<word>)
    requires Holds(x, d)
    ensures var s := StoreOf(x, d); Typed(s) && forall v :: v in x.env.vars ==> Encode(s[v]) == d[Address(x.env, v)]
  {
  }

  /** The compiled body of module m lies where the module's statements are, with the RTN at its end;
      its variables are the module's own, in the data below base. */
  ghost predicate Compiles(m: Module, at: Place, x: Source, base: nat, top: nat) {
    && WellLaid(x.env) && x.env.lev == 0 && x.env.bases == [m.dataOfs] && |m.code| < 0x1_0000 && 0 < at.body
    && (forall v :: v in x.env.vars ==> Address(x.env, v) < base)
    && StmtLang.WellTyped(x.body, x.env.vars) && StmtParts.Fits(x.body, x.env) && ExitsStayInside(x.body, false)
    && top + StackWords(x.body) < MEM_SIZE
    && match BodyCode(x.body, 0)
       case None => false
       case Some(code) => CodeAt(m.code, at.body, code) && at.end == at.body + |code| - 1
  }

  /** The source program finishes from the store in this data, and the module's effect is what it
      stores. */
  ghost predicate RunsAsSource(i: S.Init, x: Source, d: seq<word>) {
    && Holds(x, d)
    && exists t :: Programs.Finishes(x.body, StoreOf(x, d), t) && Writes(x.env, t, d, i.effect(d))
  }

  /** A module body at the start of its statements is at a statement boundary. */
  lemma {:induction false} AtStatements(p: seq<Module>, at: Place, x: Source, s: Store, st: State, m: nat, base: nat, top: nat)
    requires m < |p| && Compiles(p[m], at, x, base, top) && AtBody(p, at, m, base, top, st) && Represents(x.env, s, st)
    ensures AtBoundary(x.env, s, st, StackWords(x.body)) && BodyCode(x.body, 0).Some? && Sketch(x.body, 0).Some?
    ensures Ready(p, st, BodyCode(x.body, 0).value) && StmtCompiled(x.env, x.body, false, Sketch(x.body, 0).value)
    ensures BodyCode(x.body, 0).value == Assemble(Sketch(x.body, 0).value, 0) + [0xEC]
  {
  }

  /** Only the variables have changed below S, and they hold the final store. */
  lemma {:induction false} DataWritten(env: Env, t: Store, a: State, b: State, base: nat, e: seq<word>)
    requires WellLaid(env) && MovedTo(env, a, t, b) && base <= a.s && (forall v :: v in env.vars ==> Address(env, v) < base)
    requires Writes(env, t, a.mem[..base], e)
    ensures b.mem[..base] == e && SameFrames(a.mem, b.mem, base, a.s)
  {
    forall k | 0 <= k < base
      ensures b.mem[k] == e[k]
    {
      if VarCell(env, k) {
        var v :| v in env.vars && Address(env, v) == k;
      }
    }
    forall k | base <= k < a.s as int
      ensures b.mem[k] == a.mem[k]
    {
      assert !VarCell(env, k);
    }
  }

  /** The body runs to its RTN, with the source's final store in the variables. */
  lemma {:induction false} BodyRuns(p: seq<Module>, at: Place, x: Source, s: Store, t: Store, fuel: nat, st: State, m: nat, base: nat, top: nat)
    returns (b: State)
    requires m < |p| && Compiles(p[m], at, x, base, top) && AtBody(p, at, m, base, top, st)
    requires Represents(x.env, s, st) && Perform(x.body, s, fuel) == Done(t)
    ensures Leads(p)(st, Some(b)) && MovedTo(x.env, st, t, b) && b == st.(pc := at.end, mem := b.mem)
  {
    hide Ready, AtBoundary, Assemble, Perform, Sketch, StmtCompiled, MovedTo, Leads;
    AtStatements(p, at, x, s, st, m, base, top);
    var f := Sketch(x.body, 0).value;
    ReadyParts(p, st, Assemble(f, 0), [0xEC]);
    StmtRuns(p, x.env, s, st, StackWords(x.body), x.body, false, f, fuel, 0);
    b := DoneState(p, x.env, st, t, fuel, st.pc + Size(f), st.pc);
    assert MovedTo(x.env, st, t, b);
  }

  /** A compiled body comes to its RTN with the effect of its source. */
  lemma {:induction false} SourceBodyEnds(p: seq<Module>, i: S.Init, at: Place, x: Source, st: State, m: nat, base: nat, top: nat)
    requires m < |p| && Compiles(p[m], at, x, base, top) && AtBody(p, at, m, base, top, st) && RunsAsSource(i, x, st.mem[..base])
    ensures BodyEnds(p, i, at, st, base)
  {
    hide Perform, MovedTo, Writes, Leads;
    var d := st.mem[..base];
    var t :| Programs.Finishes(x.body, StoreOf(x, d), t) && Writes(x.env, t, d, i.effect(d));
    var fuel: nat :| Perform(x.body, StoreOf(x, d), fuel) == Done(t);
    HeldStore(p, at, x, st, m, base, top);
    var b := BodyRuns(p, at, x, StoreOf(x, d), t, fuel, st, m, base, top);
    DataWritten(x.env, t, st, b, base, i.effect(d));
  }

  lemma {:induction false} HeldStore(p: seq<Module>, at: Place, x: Source, st: State, m: nat, base: nat, top: nat)
    requires m < |p| && Compiles(p[m], at, x, base, top) && AtBody(p, at, m, base, top, st) && base <= st.s && Holds(x, st.mem[..base])
    ensures Represents(x.env, StoreOf(x, st.mem[..base]), st)
  {
    hide Encode, FromWord, TypOf;
    StoreHeld(x, st.mem[..base]);
  }

  // ------------------------------------------------- typed data along the walk

  ghost predicate AllHold(xs: seq<Source>, d: seq<word>) {
    forall m :: 0 < m < |xs| ==> Holds(xs[m], d)
  }

  /** No variable lies on a flag, on a word that leads to structured variables, or on another module's
      variable. */
  ghost predicate Separate(inits: seq<S.Init>, xs: seq<Source>) {
    && |inits| == |xs| && (forall m :: 0 < m < |xs| ==> WellLaid(xs[m].env))
    && (forall m, v, k :: 0 < m < |xs| && v in xs[m].env.vars && 0 <= k < |inits| ==>
          Free(inits[k], Address(xs[m].env, v)))
    && forall m, n, v :: 0 < m < |xs| && 0 < n < |xs| && m != n && v in xs[m].env.vars ==> !VarCell(xs[n].env, Address(xs[m].env, v))
  }

  predicate Free(i: S.Init, a: int) {
    a != i.g + 1 && a != i.g + 2 && forall j :: 0 <= j < |i.structs| ==> a != i.g + i.structs[j].vadr
  }

  /** Where a module finds typed data, its source finishes with its effect. */
  ghost predicate Finishing(inits: seq<S.Init>, xs: seq<Source>, starts: seq<(nat, S.Data)>) {
    && |inits| == |xs|
    && forall k :: 0 <= k < |starts| ==>
         0 < starts[k].0 < |xs| && (AllHold(xs, starts[k].1) ==> RunsAsSource(inits[starts[k].0], xs[starts[k].0], starts[k].1))
  }

  ghost predicate HeldFrom(xs: seq<Source>, starts: seq<(nat, S.Data)>, n: nat) {
    forall k :: n <= k < |starts| ==> AllHold(xs, starts[k].1)
  }

  lemma {:induction false} SpreadSpares(d: S.Data, g: nat, a: word, ss: seq<S.Struct>, k: nat)
    requires g + 2 < |d| && (forall j :: 0 <= j < |ss| ==> g + ss[j].vadr < |d| && k != g + ss[j].vadr) && k != g + 2 && k < |d|
    ensures S.Spread(d, g, a, ss)[k] == d[k]
    decreases |ss|
  {
    if ss != [] {
      SpreadSpares(d[g + ss[0].vadr := a], g, Wrap(a + ss[0].size), ss[1..], k);
    }
  }

  /** Entering a module keeps the data typed. */
  lemma {:induction false} MarkHolds(inits: seq<S.Init>, xs: seq<Source>, d: S.Data, m: nat)
    requires Separate(inits, xs) && S.Apart(inits, |d|) && m < |inits| && AllHold(xs, d)
    ensures AllHold(xs, S.MarkStarted(inits, d, m)) && AllHold(xs, d[S.FlagOf(inits, m) := 1])
  {
    MarkedAre(inits, |d|, m);
    var i, one := inits[m], d[S.FlagOf(inits, m) := 1];
    forall n, v | 0 < n < |xs| && v in xs[n].env.vars
      ensures 0 <= Address(xs[n].env, v) < |d| && one[Address(xs[n].env, v)] == d[Address(xs[n].env, v)]
      ensures S.MarkStarted(inits, d, m)[Address(xs[n].env, v)] == d[Address(xs[n].env, v)]
    {
      assert Holds(xs[n], d) && Free(i, Address(xs[n].env, v));
      SpreadSpares(one, i.g, Wrap(i.g + i.adr), i.structs, Address(xs[n].env, v));
    }
  }

  /** A source program keeps all data typed. */
  lemma {:induction false} EffectHolds(inits: seq<S.Init>, xs: seq<Source>, d: S.Data, m: nat)
    requires Separate(inits, xs) && 0 < m < |inits| && AllHold(xs, d) && RunsAsSource(inits[m], xs[m], d)
    ensures AllHold(xs, inits[m].effect(d))
  {
    var e, x := inits[m].effect(d), xs[m];
    var t :| Programs.Finishes(x.body, StoreOf(x, d), t) && Writes(x.env, t, d, e);
    hide WellLaid, VarCell, Encode;
    forall n | 0 < n < |xs|
      ensures Holds(xs[n], e)
    {
      assert Holds(xs[n], d);
      if n == m {
        StoredHolds(x, t, d, e);
      } else {
        assert forall v :: v in xs[n].env.vars ==> !VarCell(x.env, Address(xs[n].env, v));
        SparedHolds(x, xs[n], t, d, e);
      }
    }
  }

  lemma {:induction false} StoredHolds(x: Source, t: Store, d: S.Data, e: S.Data)
    requires Holds(x, d) && Writes(x.env, t, d, e)
    ensures Holds(x, e)
  {
    hide WellLaid, VarCell;
    forall v | v in x.env.vars && v.typ == Bool
      ensures Encode(t[v]) <= 1
    {
      assert TypOf(t[v]) == Bool;
    }
  }

  lemma {:induction false} SparedHolds(x: Source, y: Source, t: Store, d: S.Data, e: S.Data)
    requires WellLaid(x.env) && Writes(x.env, t, d, e) && Holds(y, d) && forall v :: v in y.env.vars ==> !VarCell(x.env, Address(y.env, v))
    ensures Holds(y, e)
  {
    hide WellLaid, VarCell;
  }

  /** On the whole walk every module finds typed data. */
  lemma {:induction false} VisitHolds(inits: seq<S.Init>, xs: seq<Source>, w: S.Walk, m: nat)
    requires Separate(inits, xs) && S.Apart(inits, |w.data|) && m < |inits| && AllHold(xs, w.data)
    requires Finishing(inits, xs, S.Visit(inits, w, m).starts)
    ensures var x := S.Visit(inits, w, m); AllHold(xs, x.data) && HeldFrom(xs, x.starts, |w.starts|)
    decreases S.Unset(inits, w.data, |inits|), 1, 0
  {
    hide Separate, AllHold, RunsAsSource;
    if m == 0 {
    } else if S.Flagged(inits, w.data, m) {
      MarkHolds(inits, xs, w.data, m);
    } else {
      var v := w.(data := S.MarkStarted(inits, w.data, m));
      S.MarkedOnly(inits, w.data, m);
      S.FewerUnset(inits, w.data, v.data, |inits|);
      MarkHolds(inits, xs, w.data, m);
      var x, y := S.VisitAll(inits, v, inits[m].imports), S.Visit(inits, w, m);
      assert y.starts == x.starts + [(m, x.data)];
      FinishingPart(inits, xs, x.starts, y.starts);
      AllVisitsHold(inits, xs, v, inits[m].imports);
      assert y.starts[|x.starts|] == (m, x.data);
      EffectHolds(inits, xs, x.data, m);
      forall k | |w.starts| <= k < |y.starts|
        ensures AllHold(xs, y.starts[k].1)
      {
        assert k < |x.starts| ==> y.starts[k] == x.starts[k];
      }
    }
  }

  lemma {:induction false} FinishingPart(inits: seq<S.Init>, xs: seq<Source>, a: seq<(nat, S.Data)>, b: seq<(nat, S.Data)>)
    requires Finishing(inits, xs, b) && a <= b
    ensures Finishing(inits, xs, a)
  {
    forall k | 0 <= k < |a|
      ensures a[k] == b[k]
    {
    }
  }

  lemma {:induction false} AllVisitsHold(inits: seq<S.Init>, xs: seq<Source>, w: S.Walk, ms: seq<nat>)
    requires Separate(inits, xs) && S.Apart(inits, |w.data|) && S.InTable(inits, ms) && AllHold(xs, w.data)
    requires Finishing(inits, xs, S.VisitAll(inits, w, ms).starts)
    ensures var x := S.VisitAll(inits, w, ms); AllHold(xs, x.data) && HeldFrom(xs, x.starts, |w.starts|)
    decreases S.Unset(inits, w.data, |inits|), 2, |ms|
  {
    hide Separate, AllHold, RunsAsSource;
    if ms != [] {
      var x := S.Visit(inits, w, ms[0]);
      var y := S.VisitAll(inits, x, ms[1..]);
      S.FewerUnset(inits, w.data, x.data, |inits|);
      FinishingPart(inits, xs, x.starts, y.starts);
      VisitHolds(inits, xs, w, ms[0]);
      AllVisitsHold(inits, xs, x, ms[1..]);
      forall k | |w.starts| <= k < |y.starts|
        ensures AllHold(xs, y.starts[k].1)
      {
        assert k < |x.starts| ==> y.starts[k] == x.starts[k];
      }
    }
  }

  /** When every module's statements are a compiled source body, and each finishes from the typed data
      that it finds on the walk, the bodies end as the walk knows them. */
  lemma {:induction false} SourcesEnd(p: seq<Module>, inits: seq<S.Init>, places: seq<Place>, xs: seq<Source>, base: nat, top: nat, d: S.Data, m: nat)
    requires |p| == |inits| == |places| == |xs| && Separate(inits, xs) && S.Apart(inits, base) && |d| == base <= MEM_SIZE && m < |inits|
    requires forall k :: 0 < k < |p| ==> Compiles(p[k], places[k], xs[k], base, top)
    requires AllHold(xs, d) && Finishing(inits, xs, S.Visit(inits, S.Walk(d, [], []), m).starts)
    ensures BodiesEnd(p, inits, places, base, top, S.Visit(inits, S.Walk(d, [], []), m).starts)
  {
    hide AtBody, Compiles, RunsAsSource, S.Apart, Separate, AllHold;
    var starts := S.Visit(inits, S.Walk(d, [], []), m).starts;
    VisitHolds(inits, xs, S.Walk(d, [], []), m);
    forall n, st {:trigger AtBody(p, places[n], n, base, top, st)}
      | 0 < n < |p| && AtBody(p, places[n], n, base, top, st) && (n, st.mem[..base]) in starts
      ensures base <= st.s && BodyEnds(p, inits[n], places[n], st, base)
    {
      var k :| 0 <= k < |starts| && starts[k] == (n, st.mem[..base]);
      assert AllHold(xs, starts[k].1);
      AboveBase(p, places[n], n, base, top, st);
      SourceBodyEnds(p, inits[n], places[n], xs[n], st, n, base, top);
    }
  }

  lemma {:induction false} AboveBase(p: seq<Module>, at: Place, m: nat, base: nat, top: nat, st: State)
    requires AtBody(p, at, m, base, top, st)
    ensures base <= st.s
  {
  }

  /** A program of compiled modules: when its variables hold values of their types at the start, and
      every body finishes from what it finds, the machine comes to a halt with the data of the walk. */
  lemma {:induction false} ProgramRuns(p: seq<Module>, inits: seq<S.Init>, places: seq<Place>, xs: seq<Source>, base: nat, top: nat, mem: memory, m: nat)
    returns (end: State)
    requires StartupRuns.Loaded(p, inits, places, base, top) && 0 < m < |p| && S.Fresh(inits, mem[..base]) && base + 4 + 4 * |inits| <= top
    requires |xs| == |inits| && Separate(inits, xs) && forall k :: 0 < k < |p| ==> Compiles(p[k], places[k], xs[k], base, top)
    requires AllHold(xs, mem[..base]) && Finishing(inits, xs, S.Visit(inits, S.Walk(mem[..base], [], []), m).starts)
    ensures |p[m].proc| > 0 && Leads(p)(Started(p, mem, base, m), Some(end)) && Halted(end)
    ensures end.mem[..base] == S.Visit(inits, S.Walk(mem[..base], [], []), m).data && AllHold(xs, end.mem[..base])
  {
    hide Leads, Separate, AllHold, Compiles, Laid, BodiesEnd, Finishing;
    SourcesEnd(p, inits, places, xs, base, top, mem[..base], m);
    VisitHolds(inits, xs, S.Walk(mem[..base], [], []), m);
    end := ProgramStarts(p, inits, places, base, top, mem, m);
  }
}
