/** Starting a program: every module body begins by asking for its own flag and calling the modules
    it imports, so that the call of the main module walks over the whole import graph. */
module Startup {
  import opened Words
  import opened Options

  type Data = seq<word>

  /** A structured variable: the word that leads to it, and its size. */
  datatype Struct = Struct(vadr: byte, size: word)

  /** A module: where its data starts, where in it the space for structured variables starts, these
      variables, its imports by their place in the module table, and what its own statements do to
      the data of all modules. */
  datatype Init = Init(g: nat, adr: byte, structs: seq<Struct>, imports: seq<nat>, effect: Data -> Data)

  /** The data of all modules, the modules whose statements have run, in order, and the data each of
      them found. */
  datatype Walk = Walk(data: Data, log: seq<nat>, starts: seq<(nat, Data)>)

  function FlagOf(inits: seq<Init>, m: nat): nat
    requires m < |inits|
  {
    inits[m].g + 1
  }

  predicate Flagged(inits: seq<Init>, d: Data, m: nat)
    requires m < |inits| && FlagOf(inits, m) < |d|
  {
    d[FlagOf(inits, m)] != 0
  }

  predicate InTable(inits: seq<Init>, ms: seq<nat>) {
    forall k :: 0 <= k < |ms| ==> ms[k] < |inits|
  }

  /** Word a lies within the data, and is nobody's flag. */
  predicate Plain(inits: seq<Init>, a: nat, n: nat) {
    a < n && forall m :: 0 <= m < |inits| ==> a != FlagOf(inits, m)
  }

  predicate AllPlain(inits: seq<Init>, g: nat, ss: seq<Struct>, n: nat) {
    Plain(inits, g + 2, n) && forall k :: 0 <= k < |ss| ==> Plain(inits, g + ss[k].vadr, n)
  }

  /** The modules' data lies apart, and no module's statements touch a flag. */
  ghost predicate Apart(inits: seq<Init>, n: nat) {
    && (forall m :: 0 <= m < |inits| ==> AllPlain(inits, inits[m].g, inits[m].structs, n) && InTable(inits, inits[m].imports))
    && (forall m, k :: 0 <= m < k < |inits| ==> FlagOf(inits, m) != FlagOf(inits, k))
    && (forall m, d: Data {:trigger inits[m].effect(d)} :: 0 <= m < |inits| && |d| == n ==> KeepsFlags(inits, d, inits[m].effect(d)))
  }

  predicate KeepsFlags(inits: seq<Init>, d: Data, e: Data) {
    |e| == |d| && forall m :: 0 <= m < |inits| && FlagOf(inits, m) < |d| ==> e[FlagOf(inits, m)] == d[FlagOf(inits, m)]
  }

  /** How many of the first n modules have not been started. */
  function Unset(inits: seq<Init>, d: Data, n: nat): nat
    requires n <= |inits| && forall m :: 0 <= m < |inits| ==> FlagOf(inits, m) < |d|
  {
    if n == 0 then 0 else Unset(inits, d, n - 1) + if Flagged(inits, d, n - 1) then 0 else 1
  }

  /** All flags that were set still are. */
  predicate More(inits: seq<Init>, d: Data, e: Data) {
    |e| == |d| && forall m :: 0 <= m < |inits| && FlagOf(inits, m) < |d| && Flagged(inits, d, m) ==> Flagged(inits, e, m)
  }

  lemma {:induction false} FewerUnset(inits: seq<Init>, d: Data, e: Data, n: nat)
    requires n <= |inits| && More(inits, d, e) && forall m :: 0 <= m < |inits| ==> FlagOf(inits, m) < |d|
    ensures Unset(inits, e, n) <= Unset(inits, d, n)
    ensures forall m :: 0 <= m < n && Flagged(inits, e, m) && !Flagged(inits, d, m) ==> Unset(inits, e, n) < Unset(inits, d, n)
  {
    if n > 0 {
      FewerUnset(inits, d, e, n - 1);
    }
  }

  /** Every structured variable gets the space behind the one before it, from address a on; word 2
      gets the address behind them all. */
  function Spread(d: Data, g: nat, a: word, ss: seq<Struct>): (e: Data)
    requires g + 2 < |d| && forall k :: 0 <= k < |ss| ==> g + ss[k].vadr < |d|
    ensures |e| == |d|
    decreases |ss|
  {
    if ss == [] then d[g + 2 := a]
    else Spread(d[g + ss[0].vadr := a], g, Wrap(a + ss[0].size), ss[1..])
  }

  /** Set the flag of module m, and the words that lead to its structured variables. */
  function MarkStarted(inits: seq<Init>, d: Data, m: nat): (e: Data)
    requires m < |inits| && AllPlain(inits, inits[m].g, inits[m].structs, |d|)
    ensures |e| == |d|
  {
    var i := inits[m];
    Spread(d[FlagOf(inits, m) := 1], i.g, Wrap(i.g + i.adr), i.structs)
  }

  function Sizes(ss: seq<Struct>): nat {
    if ss == [] then 0 else ss[0].size + Sizes(ss[1..])
  }

  /** No two structured variables share a word, and none uses word 2. */
  predicate OwnWords(ss: seq<Struct>) {
    && (forall k :: 0 <= k < |ss| ==> ss[k].vadr != 2)
    && forall j, k :: 0 <= j < k < |ss| ==> ss[j].vadr != ss[k].vadr
  }

  /** Word 2 gets the address behind all structured variables. */
  lemma {:induction false} SpreadEnds(d: Data, g: nat, a: word, ss: seq<Struct>)
    requires g + 2 < |d| && forall j :: 0 <= j < |ss| ==> g + ss[j].vadr < |d|
    ensures Spread(d, g, a, ss)[g + 2] == Wrap(a + Sizes(ss))
    decreases |ss|
  {
    hide Wrap;
    if ss != [] {
      SpreadEnds(d[g + ss[0].vadr := a], g, Wrap(a + ss[0].size), ss[1..]);
      WrapSum(a + ss[0].size, Sizes(ss[1..]));
    } else {
      WordIsWrapped(a);
    }
  }

  lemma {:induction false} WordIsWrapped(a: word)
    ensures Wrap(a) == a
  {
  }

  /** Every structured variable gets the space behind those before it, so that none overlaps another. */
  lemma {:induction false} SpreadGives(d: Data, g: nat, a: word, ss: seq<Struct>, k: nat)
    requires g + 2 < |d| && (forall j :: 0 <= j < |ss| ==> g + ss[j].vadr < |d|) && OwnWords(ss) && k < |ss|
    ensures Spread(d, g, a, ss)[g + ss[k].vadr] == Wrap(a + Sizes(ss[..k]))
    decreases |ss|
  {
    hide Spread;
    var b, next := d[g + ss[0].vadr := a], Wrap(a + ss[0].size);
    SpreadNext(d, g, a, ss);
    if k == 0 {
      SpreadLeaves(b, g, next, ss[1..], ss[0].vadr);
    } else {
      SpreadGives(b, g, next, ss[1..], k - 1);
      assert ss[..k][0] == ss[0] && ss[..k][1..] == ss[1..][..k - 1];
    }
  }

  lemma {:induction false} SpreadNext(d: Data, g: nat, a: word, ss: seq<Struct>)
    requires g + 2 < |d| && (forall j :: 0 <= j < |ss| ==> g + ss[j].vadr < |d|) && ss != []
    ensures Spread(d, g, a, ss) == Spread(d[g + ss[0].vadr := a], g, Wrap(a + ss[0].size), ss[1..])
  {
  }

  lemma {:induction false} SpreadLeaves(d: Data, g: nat, a: word, ss: seq<Struct>, v: byte)
    requires g + 2 < |d| && (forall j :: 0 <= j < |ss| ==> g + ss[j].vadr < |d| && ss[j].vadr != v) && v != 2 && g + v < |d|
    ensures Spread(d, g, a, ss)[g + v] == d[g + v]
    decreases |ss|
  {
    if ss != [] {
      SpreadLeaves(d[g + ss[0].vadr := a], g, Wrap(a + ss[0].size), ss[1..], v);
    }
  }

  lemma {:induction false} SpreadKeeps(inits: seq<Init>, d: Data, g: nat, a: word, ss: seq<Struct>, m: nat)
    requires AllPlain(inits, g, ss, |d|) && m < |inits| && FlagOf(inits, m) < |d|
    ensures Spread(d, g, a, ss)[FlagOf(inits, m)] == d[FlagOf(inits, m)]
    decreases |ss|
  {
    if ss != [] {
      assert Plain(inits, g + ss[0].vadr, |d|);
      SpreadKeeps(inits, d[g + ss[0].vadr := a], g, Wrap(a + ss[0].size), ss[1..], m);
    }
  }

  /** Entering a module sets its flag and no other. */
  lemma {:induction false} MarkedOnly(inits: seq<Init>, d: Data, m: nat)
    requires Apart(inits, |d|) && m < |inits|
    ensures forall i :: 0 <= i < |inits| ==> FlagOf(inits, i) < |d| && Flagged(inits, MarkStarted(inits, d, m), i) == (i == m || Flagged(inits, d, i))
  {
    forall i | 0 <= i < |inits|
      ensures FlagOf(inits, i) < |d| && Flagged(inits, MarkStarted(inits, d, m), i) == (i == m || Flagged(inits, d, i))
    {
      assert AllPlain(inits, inits[i].g, inits[i].structs, |d|) && AllPlain(inits, inits[m].g, inits[m].structs, |d|);
      SpreadKeeps(inits, d[FlagOf(inits, m) := 1], inits[m].g, Wrap(inits[m].g + inits[m].adr), inits[m].structs, i);
    }
  }

  /** Procedure 0 of module m: its flag is set; when it was not set before, its imports follow, and
      its own statements. The call of the system module is ignored. */
  ghost function Visit(inits: seq<Init>, w: Walk, m: nat): (x: Walk)
    requires Apart(inits, |w.data|) && m < |inits|
    ensures More(inits, w.data, x.data) && (m != 0 ==> Flagged(inits, x.data, m)) && w.starts <= x.starts
    decreases Unset(inits, w.data, |inits|), 1, 0
  {
    if m == 0 then w
    else if Flagged(inits, w.data, m) then w.(data := w.data[FlagOf(inits, m) := 1])
    else
      var d := MarkStarted(inits, w.data, m);
      MarkedOnly(inits, w.data, m);
      FewerUnset(inits, w.data, d, |inits|);
      var x := VisitAll(inits, w.(data := d), inits[m].imports);
      assert KeepsFlags(inits, x.data, inits[m].effect(x.data));
      Walk(inits[m].effect(x.data), x.log + [m], x.starts + [(m, x.data)])
  }

  ghost function VisitAll(inits: seq<Init>, w: Walk, ms: seq<nat>): (x: Walk)
    requires Apart(inits, |w.data|) && InTable(inits, ms)
    ensures More(inits, w.data, x.data) && w.starts <= x.starts
    ensures forall k :: 0 <= k < |ms| && ms[k] != 0 ==> Flagged(inits, x.data, ms[k])
    decreases Unset(inits, w.data, |inits|), 2, |ms|
  {
    if ms == [] then w
    else
      var x := Visit(inits, w, ms[0]);
      FewerUnset(inits, w.data, x.data, |inits|);
      VisitAll(inits, x, ms[1..])
  }

  // --------------------------------------------------- each body once, in order

  predicate NoneTwice(log: seq<nat>) {
    forall j, k :: 0 <= j < k < |log| ==> log[j] != log[k]
  }

  /** From one walk to a later one: the log has grown by modules whose flags were not set before
      and are now. */
  predicate Grown(inits: seq<Init>, w: Walk, x: Walk) {
    && More(inits, w.data, x.data) && w.log <= x.log && NoneTwice(x.log[|w.log|..])
    && forall k :: |w.log| <= k < |x.log| ==>
         var m := x.log[k];
         m < |inits| && m != 0 && FlagOf(inits, m) < |w.data| && !Flagged(inits, w.data, m) && Flagged(inits, x.data, m)
  }

  lemma {:induction false} GrownTwice(inits: seq<Init>, w: Walk, x: Walk, y: Walk)
    requires Grown(inits, w, x) && Grown(inits, x, y)
    ensures Grown(inits, w, y)
  {
    forall k | |w.log| <= k < |y.log|
      ensures var m := y.log[k];
              m < |inits| && m != 0 && FlagOf(inits, m) < |w.data| && !Flagged(inits, w.data, m) && Flagged(inits, y.data, m)
    {
      if k < |x.log| {
        assert y.log[k] == x.log[k];
      }
    }
    forall j, k | |w.log| <= j < k < |y.log|
      ensures y.log[j] != y.log[k]
    {
      if k < |x.log| {
        assert x.log[|w.log|..][j - |w.log|] != x.log[|w.log|..][k - |w.log|];
      } else if j >= |x.log| {
        assert y.log[|x.log|..][j - |x.log|] != y.log[|x.log|..][k - |x.log|];
      } else {
        assert y.log[j] == x.log[j];
      }
    }
  }

  /** No module's statements run twice, and only those of modules that had not been started. */
  lemma {:induction false} VisitGrows(inits: seq<Init>, w: Walk, m: nat)
    requires Apart(inits, |w.data|) && m < |inits|
    ensures Grown(inits, w, Visit(inits, w, m))
    decreases Unset(inits, w.data, |inits|), 1, 0
  {
    if m != 0 && !Flagged(inits, w.data, m) {
      var v := w.(data := MarkStarted(inits, w.data, m));
      MarkedOnly(inits, w.data, m);
      FewerUnset(inits, w.data, v.data, |inits|);
      AllGrow(inits, v, inits[m].imports);
      var x := VisitAll(inits, v, inits[m].imports);
      var y := Walk(inits[m].effect(x.data), x.log + [m], x.starts + [(m, x.data)]);
      LastGrows(inits, w, v, x, y, m);
    }
  }

  lemma {:induction false} LastGrows(inits: seq<Init>, w: Walk, v: Walk, x: Walk, y: Walk, m: nat)
    requires Apart(inits, |w.data|) && 0 < m < |inits| && !Flagged(inits, w.data, m)
    requires v == w.(data := MarkStarted(inits, w.data, m)) && Grown(inits, v, x) && |x.data| == |w.data|
    requires KeepsFlags(inits, x.data, y.data) && y.log == x.log + [m]
    ensures Grown(inits, w, y)
  {
    MarkedOnly(inits, w.data, m);
    forall k | |w.log| <= k < |y.log|
      ensures var i := y.log[k];
              i < |inits| && i != 0 && FlagOf(inits, i) < |w.data| && !Flagged(inits, w.data, i) && Flagged(inits, y.data, i)
      ensures k < |x.log| ==> y.log[k] != m
    {
      if k < |x.log| {
        assert y.log[k] == x.log[k];
      }
    }
    forall j, k | |w.log| <= j < k < |y.log|
      ensures y.log[j] != y.log[k]
    {
      if k < |x.log| {
        assert x.log[|v.log|..][j - |v.log|] != x.log[|v.log|..][k - |v.log|];
      }
    }
  }

  lemma {:induction false} AllGrow(inits: seq<Init>, w: Walk, ms: seq<nat>)
    requires Apart(inits, |w.data|) && InTable(inits, ms)
    ensures Grown(inits, w, VisitAll(inits, w, ms))
    decreases Unset(inits, w.data, |inits|), 2, |ms|
  {
    hide Grown;
    if ms == [] {
      NothingGrows(inits, w);
    } else {
      VisitGrows(inits, w, ms[0]);
      var x := Visit(inits, w, ms[0]);
      FewerUnset(inits, w.data, x.data, |inits|);
      AllGrow(inits, x, ms[1..]);
      GrownTwice(inits, w, x, VisitAll(inits, x, ms[1..]));
    }
  }

  lemma {:induction false} NothingGrows(inits: seq<Init>, w: Walk)
    ensures Grown(inits, w, w)
  {
  }

  /** Every module started in between has run its statements in between. */
  predicate Filled(inits: seq<Init>, w: Walk, x: Walk) {
    && |w.data| == |x.data| && w.log <= x.log
    && forall i :: 0 <= i < |inits| && FlagOf(inits, i) < |w.data| && Flagged(inits, x.data, i) && !Flagged(inits, w.data, i) ==>
         i in x.log
  }

  lemma {:induction false} FilledTwice(inits: seq<Init>, w: Walk, x: Walk, y: Walk)
    requires Filled(inits, w, x) && Filled(inits, x, y)
    ensures Filled(inits, w, y)
  {
  }

  lemma {:induction false} VisitFills(inits: seq<Init>, w: Walk, m: nat)
    requires Apart(inits, |w.data|) && m < |inits|
    ensures Filled(inits, w, Visit(inits, w, m))
    decreases Unset(inits, w.data, |inits|), 1, 0
  {
    if m != 0 && !Flagged(inits, w.data, m) {
      var v := w.(data := MarkStarted(inits, w.data, m));
      MarkedOnly(inits, w.data, m);
      FewerUnset(inits, w.data, v.data, |inits|);
      AllFill(inits, v, inits[m].imports);
      var x := VisitAll(inits, v, inits[m].imports);
      assert KeepsFlags(inits, x.data, inits[m].effect(x.data));
    }
  }

  lemma {:induction false} AllFill(inits: seq<Init>, w: Walk, ms: seq<nat>)
    requires Apart(inits, |w.data|) && InTable(inits, ms)
    ensures Filled(inits, w, VisitAll(inits, w, ms))
    decreases Unset(inits, w.data, |inits|), 2, |ms|
  {
    if ms != [] {
      VisitFills(inits, w, ms[0]);
      var x := Visit(inits, w, ms[0]);
      FewerUnset(inits, w.data, x.data, |inits|);
      AllFill(inits, x, ms[1..]);
      FilledTwice(inits, w, x, VisitAll(inits, x, ms[1..]));
    }
  }

  // ---------------------------------------------------------- what is reached

  /** With a module, the set has all its imports. */
  predicate Closed(inits: seq<Init>, s: set<nat>) {
    forall m :: m in s && m < |inits| ==> forall k :: 0 <= k < |inits[m].imports| && inits[m].imports[k] != 0 ==> inits[m].imports[k] in s
  }

  predicate LogIn(w: Walk, s: set<nat>) {
    forall k :: 0 <= k < |w.log| ==> w.log[k] in s
  }

  lemma {:induction false} VisitStays(inits: seq<Init>, w: Walk, m: nat, s: set<nat>)
    requires Apart(inits, |w.data|) && m < |inits| && Closed(inits, s) && LogIn(w, s) && (m != 0 ==> m in s)
    ensures LogIn(Visit(inits, w, m), s)
    decreases Unset(inits, w.data, |inits|), 1, 0
  {
    if m != 0 && !Flagged(inits, w.data, m) {
      var v := w.(data := MarkStarted(inits, w.data, m));
      MarkedOnly(inits, w.data, m);
      FewerUnset(inits, w.data, v.data, |inits|);
      AllStay(inits, v, inits[m].imports, s);
    }
  }

  lemma {:induction false} AllStay(inits: seq<Init>, w: Walk, ms: seq<nat>, s: set<nat>)
    requires Apart(inits, |w.data|) && InTable(inits, ms) && Closed(inits, s) && LogIn(w, s)
    requires forall k :: 0 <= k < |ms| && ms[k] != 0 ==> ms[k] in s
    ensures LogIn(VisitAll(inits, w, ms), s)
    decreases Unset(inits, w.data, |inits|), 2, |ms|
  {
    if ms != [] {
      VisitStays(inits, w, ms[0], s);
      var x := Visit(inits, w, ms[0]);
      FewerUnset(inits, w.data, x.data, |inits|);
      AllStay(inits, x, ms[1..], s);
    }
  }

  /** All imports of the modules whose statements have run are flagged. */
  predicate ImportsFlagged(inits: seq<Init>, w: Walk) {
    forall j :: 0 <= j < |w.log| && w.log[j] < |inits| ==> AllFlagged(inits, w.data, inits[w.log[j]].imports)
  }

  predicate AllFlagged(inits: seq<Init>, d: Data, ms: seq<nat>) {
    forall k :: 0 <= k < |ms| && ms[k] != 0 ==> ms[k] < |inits| && FlagOf(inits, ms[k]) < |d| && Flagged(inits, d, ms[k])
  }

  lemma {:induction false} StayFlagged(inits: seq<Init>, w: Walk, d: Data)
    requires ImportsFlagged(inits, w) && More(inits, w.data, d)
    ensures ImportsFlagged(inits, w.(data := d))
  {
    forall j | 0 <= j < |w.log| && w.log[j] < |inits|
      ensures AllFlagged(inits, d, inits[w.log[j]].imports)
    {
      assert AllFlagged(inits, w.data, inits[w.log[j]].imports);
    }
  }

  lemma {:induction false} VisitFlags(inits: seq<Init>, w: Walk, m: nat)
    requires Apart(inits, |w.data|) && m < |inits| && ImportsFlagged(inits, w)
    ensures ImportsFlagged(inits, Visit(inits, w, m))
    decreases Unset(inits, w.data, |inits|), 1, 0
  {
    if m != 0 && !Flagged(inits, w.data, m) {
      var v := w.(data := MarkStarted(inits, w.data, m));
      MarkedOnly(inits, w.data, m);
      FewerUnset(inits, w.data, v.data, |inits|);
      StayFlagged(inits, w, v.data);
      AllFlag(inits, v, inits[m].imports);
      var x := VisitAll(inits, v, inits[m].imports);
      var e := inits[m].effect(x.data);
      assert KeepsFlags(inits, x.data, e);
      StayFlagged(inits, x, e);
      assert AllFlagged(inits, e, inits[m].imports);
      assert ImportsFlagged(inits, x.(data := e, log := x.log + [m]));
    }
  }

  lemma {:induction false} AllFlag(inits: seq<Init>, w: Walk, ms: seq<nat>)
    requires Apart(inits, |w.data|) && InTable(inits, ms) && ImportsFlagged(inits, w)
    ensures ImportsFlagged(inits, VisitAll(inits, w, ms))
    decreases Unset(inits, w.data, |inits|), 2, |ms|
  {
    if ms != [] {
      VisitFlags(inits, w, ms[0]);
      var x := Visit(inits, w, ms[0]);
      FewerUnset(inits, w.data, x.data, |inits|);
      AllFlag(inits, x, ms[1..]);
    }
  }

  /** No module has been started. */
  predicate Fresh(inits: seq<Init>, d: Data) {
    forall m :: 0 <= m < |inits| ==> FlagOf(inits, m) < |d| && !Flagged(inits, d, m)
  }

  predicate ImportsIn(inits: seq<Init>, m: nat, log: seq<nat>)
    requires m < |inits|
  {
    forall k :: 0 <= k < |inits[m].imports| && inits[m].imports[k] != 0 ==> inits[m].imports[k] in log
  }

  /** Starting module m runs the statements of each module it reaches through imports exactly once,
      its own ones last, and of no other module, whether or not imports are cyclic. */
  lemma {:induction false} EachReachedOnce(inits: seq<Init>, d: Data, m: nat, s: set<nat>)
    requires Apart(inits, |d|) && 0 < m < |inits| && Fresh(inits, d)
    ensures var log := Visit(inits, Walk(d, [], []), m).log;
            && NoneTwice(log) && log != [] && log[|log| - 1] == m
            && (forall j :: 0 <= j < |log| ==> 0 < log[j] < |inits| && ImportsIn(inits, log[j], log))
            && (Closed(inits, s) && m in s ==> forall j :: 0 <= j < |log| ==> log[j] in s)
  {
    var w := Walk(d, [], []);
    var x := Visit(inits, w, m);
    VisitGrows(inits, w, m);
    VisitFills(inits, w, m);
    VisitFlags(inits, w, m);
    assert x.log[0..] == x.log;
    forall j | 0 <= j < |x.log|
      ensures 0 < x.log[j] < |inits| && ImportsIn(inits, x.log[j], x.log)
    {
      assert AllFlagged(inits, x.data, inits[x.log[j]].imports);
    }
    if Closed(inits, s) && m in s {
      VisitStays(inits, w, m, s);
    }
  }

  // ------------------------------------------------------------ acyclic imports

  /** Imports have lower ranks: there is no cycle. */
  predicate Ranked(inits: seq<Init>, rank: seq<nat>) {
    && |rank| == |inits|
    && forall m :: 0 <= m < |inits| ==> forall k :: 0 <= k < |inits[m].imports| ==> RankBelow(rank, inits[m].imports[k], rank[m])
  }

  predicate RankBelow(rank: seq<nat>, m: nat, bound: nat) {
    m != 0 ==> m < |rank| && rank[m] < bound
  }

  /** Modules below the bound have run their statements if they have been started. */
  predicate RunBelow(inits: seq<Init>, rank: seq<nat>, w: Walk, bound: nat) {
    forall i :: 0 < i < |inits| && RankBelow(rank, i, bound) && FlagOf(inits, i) < |w.data| && Flagged(inits, w.data, i) ==> i in w.log
  }

  predicate ImportsFirst(inits: seq<Init>, log: seq<nat>) {
    forall j :: 0 <= j < |log| && log[j] < |inits| ==> ImportsIn(inits, log[j], log[..j])
  }

  lemma {:induction false} VisitOrders(inits: seq<Init>, rank: seq<nat>, w: Walk, m: nat, bound: nat)
    requires Apart(inits, |w.data|) && m < |inits| && Ranked(inits, rank) && RankBelow(rank, m, bound)
    requires RunBelow(inits, rank, w, bound) && ImportsFirst(inits, w.log)
    ensures var x := Visit(inits, w, m); RunBelow(inits, rank, x, bound) && ImportsFirst(inits, x.log)
    decreases Unset(inits, w.data, |inits|), 1, 0
  {
    if m != 0 && !Flagged(inits, w.data, m) {
      var v := w.(data := MarkStarted(inits, w.data, m));
      MarkedOnly(inits, w.data, m);
      FewerUnset(inits, w.data, v.data, |inits|);
      AllOrder(inits, rank, v, inits[m].imports, rank[m]);
      var x := VisitAll(inits, v, inits[m].imports);
      AllFill(inits, v, inits[m].imports);
      assert KeepsFlags(inits, x.data, inits[m].effect(x.data));
      hide RunBelow, ImportsFirst, Filled, Apart;
      StillRun(inits, rank, w, v, x, inits[m].effect(x.data), m, bound);
      ImportsHaveRun(inits, rank, x, m);
      OneMoreFirst(inits, x.log, m);
    }
  }

  lemma {:induction false} StillRun(inits: seq<Init>, rank: seq<nat>, w: Walk, v: Walk, x: Walk, e: Data, m: nat, bound: nat)
    requires RunBelow(inits, rank, w, bound) && Filled(inits, v, x) && KeepsFlags(inits, x.data, e) && v.log == w.log && |v.data| == |w.data|
    requires m < |inits|
    requires forall i :: 0 <= i < |inits| ==> FlagOf(inits, i) < |w.data| && Flagged(inits, v.data, i) == (i == m || Flagged(inits, w.data, i))
    ensures RunBelow(inits, rank, x.(data := e, log := x.log + [m]), bound)
  {
  }

  lemma {:induction false} ImportsHaveRun(inits: seq<Init>, rank: seq<nat>, x: Walk, m: nat)
    requires m < |inits| && Ranked(inits, rank) && RunBelow(inits, rank, x, rank[m]) && InTable(inits, inits[m].imports)
    requires forall k :: 0 <= k < |inits[m].imports| && inits[m].imports[k] != 0 ==>
               FlagOf(inits, inits[m].imports[k]) < |x.data| && Flagged(inits, x.data, inits[m].imports[k])
    ensures ImportsIn(inits, m, x.log)
  {
  }

  lemma {:induction false} OneMoreFirst(inits: seq<Init>, log: seq<nat>, m: nat)
    requires ImportsFirst(inits, log) && m < |inits| && ImportsIn(inits, m, log)
    ensures ImportsFirst(inits, log + [m])
  {
    var all := log + [m];
    forall j | 0 <= j < |all| && all[j] < |inits|
      ensures ImportsIn(inits, all[j], all[..j])
    {
      assert all[..j] == log[..j];
    }
    assert log[..|log|] == log;
  }

  lemma {:induction false} AllOrder(inits: seq<Init>, rank: seq<nat>, w: Walk, ms: seq<nat>, bound: nat)
    requires Apart(inits, |w.data|) && InTable(inits, ms) && Ranked(inits, rank)
    requires forall k :: 0 <= k < |ms| ==> RankBelow(rank, ms[k], bound)
    requires RunBelow(inits, rank, w, bound) && ImportsFirst(inits, w.log)
    ensures var x := VisitAll(inits, w, ms); RunBelow(inits, rank, x, bound) && ImportsFirst(inits, x.log)
    decreases Unset(inits, w.data, |inits|), 2, |ms|
  {
    if ms != [] {
      VisitOrders(inits, rank, w, ms[0], bound);
      var x := Visit(inits, w, ms[0]);
      FewerUnset(inits, w.data, x.data, |inits|);
      AllOrder(inits, rank, x, ms[1..], bound);
    }
  }

  /** Without import cycles a module's statements run after those of all modules it imports. */
  lemma {:induction false} ImportsRunFirst(inits: seq<Init>, rank: seq<nat>, d: Data, m: nat)
    requires Apart(inits, |d|) && m < |inits| && Ranked(inits, rank) && Fresh(inits, d)
    ensures ImportsFirst(inits, Visit(inits, Walk(d, [], []), m).log)
  {
    if m != 0 {
      VisitOrders(inits, rank, Walk(d, [], []), m, rank[m] + 1);
    }
  }
}
