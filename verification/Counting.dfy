/** FOR statements count: which values the control variable takes, and when the 16-bit machine
    stops after the last of them. */
module Counting {
  import opened Words
  import opened Options
  import opened Lang
  import opened StmtLang

  // ---------------------------------------------- variables a statement keeps

  /** The variables a statement may assign, control variables included. */
  function Assigned(s: Stmt): set<Var> {
    match s
    case Empty => {}
    case Seq(a, b) => Assigned(a) + Assigned(b)
    case Assign(v, _) => {v}
    case If(_, t) => Assigned(t)
    case IfElse(_, t, f) => Assigned(t) + Assigned(f)
    case While(g) => GuardsAssigned(g)
    case Repeat(b, _) => Assigned(b)
    case Loop(b) => Assigned(b)
    case Exit => {}
    case For(v, _, _, _, b) => {v} + Assigned(b)
    case Case(_, arms, d) => ArmsAssigned(arms) + if d.Else? then Assigned(d.body) else {}
  }

  function GuardsAssigned(g: Guards): set<Var> {
    Assigned(g.body) + if g.More? then GuardsAssigned(g.rest) else {}
  }

  function ArmsAssigned(a: Arms): set<Var> {
    if a.NoArms? then {} else Assigned(a.body) + ArmsAssigned(a.rest)
  }

  predicate Keeps(o: Outcome, v: Var, x: Value) {
    match o
    case Done(t) => v in t && t[v] == x
    case Exited(t) => v in t && t[v] == x
    case Trapped => true
    case Running => true
  }

  lemma {:induction false} Kept(s: Stmt, v: Var, st: Store, fuel: nat)
    requires v !in Assigned(s) && v in st
    ensures Keeps(Perform(s, st, fuel), v, st[v])
    decreases fuel, s, 1
  {
    match s
    case Empty =>
    case Seq(a, b) =>
      Kept(a, v, st, fuel);
      if Perform(a, st, fuel).Done? {
        Kept(b, v, Perform(a, st, fuel).s, fuel);
      }
    case Assign(_, _) =>
    case If(_, t) => Kept(t, v, st, fuel);
    case IfElse(_, t, f) => Kept(t, v, st, fuel); Kept(f, v, st, fuel);
    case While(g) => KeptGuards(g, g, v, st, fuel);
    case Repeat(b, _) =>
      Kept(b, v, st, fuel);
      if fuel > 0 && Perform(b, st, fuel).Done? {
        Kept(s, v, Perform(b, st, fuel).s, fuel - 1);
      }
    case Loop(b) =>
      Kept(b, v, st, fuel);
      if fuel > 0 && Perform(b, st, fuel).Done? {
        Kept(s, v, Perform(b, st, fuel).s, fuel - 1);
      }
    case Exit =>
    case For(c, low, high, step, b) =>
      if Eval(low, st).Some? && Eval(high, st).Some? {
        var first := Converted(Eval(low, st).value, c.typ);
        if first.Some? {
          KeptFor(c, SignedWord(Eval(high, st).value), step, b, v, st[c := first.value], fuel);
        }
      }
    case Case(e, arms, d) =>
      if Eval(e, st).Some? {
        var k := Ordinal(Eval(e, st).value);
        SelectSmaller(arms, k);
        if Select(arms, k).Some? {
          SelectedAssigned(arms, k);
          Kept(Select(arms, k).value, v, st, fuel);
        } else if d.Else? {
          Kept(d.body, v, st, fuel);
        }
      }
  }

  lemma {:induction false} KeptGuards(all: Guards, g: Guards, v: Var, st: Store, fuel: nat)
    requires v !in GuardsAssigned(all) && v !in GuardsAssigned(g) && v in st
    ensures Keeps(PerformGuards(all, g, st, fuel), v, st[v])
    decreases fuel, g, 0
  {
    Kept(g.body, v, st, fuel);
    if fuel > 0 && Perform(g.body, st, fuel).Done? {
      KeptGuards(all, all, v, Perform(g.body, st, fuel).s, fuel - 1);
    }
    if g.More? {
      KeptGuards(all, g.rest, v, st, fuel);
    }
  }

  lemma {:induction false} KeptFor(c: Var, limit: int, step: int, b: Stmt, v: Var, st: Store, fuel: nat)
    requires v !in Assigned(b) && v != c && v in st
    ensures Keeps(PerformFor(c, limit, step, b, st, fuel), v, st[v])
    decreases fuel, b, 2
  {
    hide Perform, PerformFor, Assigned;
    ForRound(c, limit, step, b, st, fuel);
    Kept(b, v, st, fuel);
    var o := Perform(b, st, fuel);
    if fuel > 0 && o.Done? && c in o.s {
      KeptFor(c, limit, step, b, v, o.s[c := FromWord(c.typ, Wrap(Encode(o.s[c]) + step))], fuel - 1);
    }
  }

  lemma {:induction false} SelectedAssigned(a: Arms, k: int)
    requires Select(a, k).Some?
    ensures Assigned(Select(a, k).value) <= ArmsAssigned(a)
  {
    if !InRanges(k, a.labels) {
      SelectedAssigned(a.rest, k);
    }
  }

  // --------------------------------------------------------------- the values

  function Distance(i: int, limit: int, step: int): nat {
    if step > 0 && limit >= i then limit - i + 1 else if step < 0 && i >= limit then i - limit + 1 else 0
  }

  /** The values a FOR from i to limit is to count through. */
  function Values(i: int, limit: int, step: int): seq<int>
    requires step != 0
    decreases Distance(i, limit, step)
  {
    if Beyond(i, limit, step) then [] else [i] + Values(i + step, limit, step)
  }

  /** They are i, i + step, i + 2 step and so on, as far as they do not pass the limit. */
  lemma {:induction false} ValuesAre(i: int, limit: int, step: int)
    requires step != 0
    ensures var vs := Values(i, limit, step);
            && (forall k :: 0 <= k < |vs| ==> vs[k] == i + k * step && !Beyond(vs[k], limit, step))
            && Beyond(i + |vs| * step, limit, step)
    decreases Distance(i, limit, step)
  {
    var vs := Values(i, limit, step);
    if vs != [] {
      ValuesAre(i + step, limit, step);
      forall k | 0 <= k < |vs|
        ensures vs[k] == i + k * step && !Beyond(vs[k], limit, step)
      {
        if k > 0 {
          assert vs[k] == Values(i + step, limit, step)[k - 1];
          OneMore(k, step);
        }
      }
      OneMore(|vs|, step);
    }
  }

  lemma {:induction false} OneMore(k: int, step: int)
    ensures step + (k - 1) * step == k * step
  {
  }

  predicate InWord(i: int) {
    -0x8000 <= i < 0x8000
  }

  /** Stepping behind the last value stays within 16 bits. */
  predicate StepsWithinWord(i: int, limit: int, step: int)
    requires step != 0
  {
    var vs := Values(i, limit, step);
    vs != [] ==> InWord(vs[|vs| - 1] + step)
  }

  // --------------------------------------------------------------- the rounds

  /** The body once for each value, in order, with the control variable set to it. */
  function Rounds(b: Stmt, v: Var, vs: seq<int>, st: Store, fuel: nat): Outcome
    decreases |vs|
  {
    if vs == [] then Done(st)
    else match Perform(b, st[v := FromWord(v.typ, Wrap(vs[0]))], fuel)
      case Done(t) => Rounds(b, v, vs[1..], t, fuel)
      case other => other
  }

  lemma {:induction false} MoreFuelBy(s: Stmt, st: Store, f: nat, k: nat)
    requires Perform(s, st, f) != Running
    ensures Perform(s, st, f + k) == Perform(s, st, f)
    decreases k
  {
    if k > 0 {
      MoreFuelBy(s, st, f, k - 1);
      MoreFuel(s, st, f + k - 1);
    }
  }

  lemma {:induction false} WordOf(t: Typ, i: int)
    requires t != Bool && InWord(i)
    ensures Signed(Encode(FromWord(t, Wrap(i)))) == i && Encode(FromWord(t, Wrap(i))) == Wrap(i)
  {
  }

  /** The next value of the control variable, as the machine computes it. */
  lemma {:induction false} NextValue(t: Typ, i: int, step: int)
    requires t != Bool && InWord(i) && -0x8000 <= step < 0x8000
    ensures var next := Wrap(Encode(FromWord(t, Wrap(i))) + step);
            && next == Wrap(i + step)
            && Signed(next) == (if InWord(i + step) then i + step else if step > 0 then i + step - 0x1_0000 else i + step + 0x1_0000)
  {
    WordOf(t, i);
  }

  /** What a FOR must satisfy to count: a control variable its body does not assign, a word-sized
      step, and a first value within the limit. */
  predicate Counts(v: Var, i: int, limit: int, step: int, b: Stmt) {
    && v.typ != Bool && v !in Assigned(b) && InWord(i) && InWord(limit)
    && step != 0 && -0x8000 <= step < 0x8000 && !Beyond(i, limit, step)
  }

  lemma {:induction false} MoreRounds(b: Stmt, v: Var, vs: seq<int>, st: Store, f: nat)
    requires Rounds(b, v, vs, st, f) != Running
    ensures Rounds(b, v, vs, st, f + 1) == Rounds(b, v, vs, st, f)
    decreases |vs|
  {
    hide Perform;
    if vs != [] {
      var first := st[v := FromWord(v.typ, Wrap(vs[0]))];
      MoreFuel(b, first, f);
      if Perform(b, first, f).Done? {
        MoreRounds(b, v, vs[1..], Perform(b, first, f).s, f);
      }
    }
  }

  /** Where the rounds over all values lead, the FOR follows. Behind the last value it stops if
      stepping on stays within 16 bits; otherwise it goes on with the wrapped value. */
  lemma {:induction false} ForFollows(v: Var, limit: int, step: int, b: Stmt, st: Store, i: int, f: nat)
    requires Counts(v, i, limit, step, b) && Rounds(b, v, Values(i, limit, step), st, f) != Running
    ensures var vs := Values(i, limit, step);
            var last := vs[|vs| - 1];
            && PerformFor(v, limit, step, b, st[v := FromWord(v.typ, Wrap(i))], f + |vs|)
            == (match Rounds(b, v, vs, st, f)
                case Done(t) =>
                  if InWord(last + step) then Done(t)
                  else PerformFor(v, limit, step, b, t[v := FromWord(v.typ, Wrap(last + step))], f)
                case other => other)
            && (match Rounds(b, v, vs, st, f)
                case Done(t) => v in t && t[v] == FromWord(v.typ, Wrap(last))
                case _ => true)
    decreases Distance(i, limit, step)
  {
    hide Perform, PerformFor, Encode, FromWord, Wrap, Signed, Assigned;
    var vs := Values(i, limit, step);
    var first := st[v := FromWord(v.typ, Wrap(i))];
    ForRound(v, limit, step, b, first, f + |vs|);
    MoreFuelBy(b, first, f, |vs|);
    Kept(b, v, first, f);
    NextValue(v.typ, i, step);
    var o := Perform(b, first, f);
    if o.Done? {
      if Values(i + step, limit, step) == [] {
        assert vs == [i];
        assert Rounds(b, v, vs[1..], o.s, f) == Done(o.s);
        LastValue(i, limit, step);
      } else {
        assert vs[1..] == Values(i + step, limit, step);
        assert InWord(i + step);
        ForFollows(v, limit, step, b, o.s, i + step, f);
      }
    }
  }

  /** Behind the last value the machine stops unless it wraps. */
  lemma {:induction false} LastValue(i: int, limit: int, step: int)
    requires InWord(i) && InWord(limit) && step != 0 && -0x8000 <= step < 0x8000 && !Beyond(i, limit, step) && Beyond(i + step, limit, step)
    ensures InWord(i + step) ==> Beyond(i + step, limit, step)
    ensures !InWord(i + step) ==> !Beyond(if step > 0 then i + step - 0x1_0000 else i + step + 0x1_0000, limit, step)
  {
  }

  /** A FOR that finishes has gone through exactly the rounds. */
  lemma {:induction false} ForPrecedes(v: Var, limit: int, step: int, b: Stmt, st: Store, i: int, f: nat)
    requires Counts(v, i, limit, step, b) && StepsWithinWord(i, limit, step)
    requires PerformFor(v, limit, step, b, st[v := FromWord(v.typ, Wrap(i))], f) != Running
    ensures Rounds(b, v, Values(i, limit, step), st, f) == PerformFor(v, limit, step, b, st[v := FromWord(v.typ, Wrap(i))], f)
    decreases Distance(i, limit, step)
  {
    hide Perform, PerformFor, Encode, FromWord, Wrap, Signed, Assigned;
    var vs := Values(i, limit, step);
    var first := st[v := FromWord(v.typ, Wrap(i))];
    ForRound(v, limit, step, b, first, f);
    Kept(b, v, first, f);
    NextValue(v.typ, i, step);
    var o := Perform(b, first, f);
    if o.Done? {
      var rest := Values(i + step, limit, step);
      assert vs[1..] == rest;
      if rest == [] {
        assert vs[|vs| - 1] == i;
        LastValue(i, limit, step);
      } else {
        assert vs[|vs| - 1] == rest[|rest| - 1];
        assert InWord(i + step);
        ForPrecedes(v, limit, step, b, o.s, i + step, f - 1);
        MoreRounds(b, v, rest, o.s, f - 1);
      }
    }
  }

  /** A FOR only ends behind a value whose successor passes the limit, as a 16-bit number. */
  lemma {:induction false} ForEnds(v: Var, limit: int, step: int, b: Stmt, st: Store, f: nat)
    requires PerformFor(v, limit, step, b, st, f).Done?
    ensures var t := PerformFor(v, limit, step, b, st, f).s;
            v in t && Beyond(Signed(Wrap(Encode(t[v]) + step)), limit, step)
    decreases f
  {
    hide Perform, PerformFor, Encode, FromWord, Wrap, Signed;
    ForRound(v, limit, step, b, st, f);
    var o := Perform(b, st, f);
    if o.Done? && v in o.s && !Beyond(Signed(Wrap(Encode(o.s[v]) + step)), limit, step) {
      ForEnds(v, limit, step, b, o.s[v := FromWord(v.typ, Wrap(Encode(o.s[v]) + step))], f - 1);
    }
  }

  // ------------------------------------------------------------ the statement

  /** The first value and the limit of a FOR, as signed words. */
  predicate Starts(s: Stmt, st: Store, i: int, limit: int) {
    && s.For? && s.v.typ != Bool && s.v !in Assigned(s.body) && s.step != 0 && -0x8000 <= s.step < 0x8000
    && Eval(s.low, st).Some? && Eval(s.high, st).Some? && Converted(Eval(s.high, st).value, s.v.typ).Some?
    && Converted(Eval(s.low, st).value, s.v.typ) == Some(FromWord(s.v.typ, Wrap(i)))
    && InWord(i) && limit == SignedWord(Eval(s.high, st).value)
  }

  ghost predicate ForLeads(s: Stmt, st: Store, o: Outcome) {
    exists f: nat :: Perform(s, st, f) == o
  }

  ghost predicate RoundsLead(s: Stmt, vs: seq<int>, st: Store, o: Outcome)
    requires s.For?
  {
    exists f: nat :: Rounds(s.body, s.v, vs, st, f) == o
  }

  lemma {:induction false} ForUnfolds(s: Stmt, st: Store, i: int, limit: int, f: nat)
    requires Starts(s, st, i, limit)
    ensures InWord(limit)
    ensures Perform(s, st, f)
         == if Beyond(i, limit, s.step) then Done(st)
            else PerformFor(s.v, limit, s.step, s.body, st[s.v := FromWord(s.v.typ, Wrap(i))], f)
  {
    WordOf(s.v.typ, i);
  }

  /** A FOR runs its body exactly for the values from the first one to the limit, in order, and
      possibly never, as long as stepping behind the last one does not leave 16 bits. */
  lemma {:induction false} ForRunsItsValues(s: Stmt, st: Store, i: int, limit: int, o: Outcome)
    requires Starts(s, st, i, limit) && StepsWithinWord(i, limit, s.step) && o != Running
    ensures ForLeads(s, st, o) <==> RoundsLead(s, Values(i, limit, s.step), st, o)
  {
    hide Perform, PerformFor, FromWord, Wrap, Assigned, Eval;
    var vs := Values(i, limit, s.step);
    if ForLeads(s, st, o) {
      var f: nat :| Perform(s, st, f) == o;
      ForUnfolds(s, st, i, limit, f);
      if vs != [] {
        ForPrecedes(s.v, limit, s.step, s.body, st, i, f);
      }
      assert Rounds(s.body, s.v, vs, st, f) == o;
    }
    if RoundsLead(s, vs, st, o) {
      var f: nat :| Rounds(s.body, s.v, vs, st, f) == o;
      ForUnfolds(s, st, i, limit, f + |vs|);
      if vs != [] {
        ForFollows(s.v, limit, s.step, s.body, st, i, f);
      }
      assert Perform(s, st, f + |vs|) == o;
    }
  }

  /** When the rounds end in store t, the FOR ends there if and only if stepping behind the last
      value stays within 16 bits. */
  lemma {:induction false} ForEndsInTime(s: Stmt, st: Store, i: int, limit: int, t: Store)
    requires Starts(s, st, i, limit) && RoundsLead(s, Values(i, limit, s.step), st, Done(t))
    ensures ForLeads(s, st, Done(t)) <==> StepsWithinWord(i, limit, s.step)
  {
    hide Perform, PerformFor, FromWord, Wrap, Assigned, Eval, Encode;
    var vs := Values(i, limit, s.step);
    if StepsWithinWord(i, limit, s.step) {
      ForRunsItsValues(s, st, i, limit, Done(t));
    } else {
      var last := vs[|vs| - 1];
      var g: nat :| Rounds(s.body, s.v, vs, st, g) == Done(t);
      ForUnfolds(s, st, i, limit, g);
      ForFollows(s.v, limit, s.step, s.body, st, i, g);
      LastInWord(i, limit, s.step);
      NextValue(s.v.typ, last, s.step);
      LastValue(last, limit, s.step);
      NeverDone(s, st, i, limit, t, last);
    }
  }

  /** A FOR does not end behind a value from which the machine steps on. */
  lemma {:induction false} NeverDone(s: Stmt, st: Store, i: int, limit: int, t: Store, last: int)
    requires Starts(s, st, i, limit) && !Beyond(i, limit, s.step) && s.v in t && t[s.v] == FromWord(s.v.typ, Wrap(last))
    requires !Beyond(Signed(Wrap(Encode(FromWord(s.v.typ, Wrap(last))) + s.step)), limit, s.step)
    ensures !ForLeads(s, st, Done(t))
  {
    hide Perform, PerformFor, FromWord, Wrap, Assigned, Eval, Encode;
    forall f: nat
      ensures Perform(s, st, f) != Done(t)
    {
      ForUnfolds(s, st, i, limit, f);
      if Perform(s, st, f) == Done(t) {
        ForEnds(s.v, limit, s.step, s.body, st[s.v := FromWord(s.v.typ, Wrap(i))], f);
      }
    }
  }

  lemma {:induction false} LastInWord(i: int, limit: int, step: int)
    requires InWord(i) && InWord(limit) && step != 0 && -0x8000 <= step < 0x8000 && !Beyond(i, limit, step)
    ensures var vs := Values(i, limit, step);
            && vs != [] && InWord(vs[|vs| - 1])
            && !Beyond(vs[|vs| - 1], limit, step) && Beyond(vs[|vs| - 1] + step, limit, step)
    decreases Distance(i, limit, step)
  {
    if !Beyond(i + step, limit, step) {
      LastInWord(i + step, limit, step);
    }
  }

  // ------------------------------------------------------------------ CARDINAL

  /** The words that stand for these numbers. */
  function AsWords(vs: seq<int>): (ws: seq<int>)
    ensures |ws| == |vs| && forall k :: 0 <= k < |vs| ==> ws[k] == Wrap(vs[k])
    decreases |vs|
  {
    if vs == [] then [] else [Wrap(vs[0])] + AsWords(vs[1..])
  }

  /** Counting the words from lo to hi as signed numbers, which FOR1 and FOR2 do for CARDINAL too, is
      counting them as cardinals if and only if lo and hi are in the same half. */
  lemma {:induction false} CardinalCounts(lo: word, hi: word, step: int)
    requires step != 0
    ensures AsWords(Values(Signed(lo), Signed(hi), step)) == Values(lo, hi, step) <==> (lo < 0x8000 <==> hi < 0x8000)
  {
    hide Values, Wrap, Distance;
    if lo < 0x8000 && hi < 0x8000 {
      SameWords(lo, hi, step, 0);
    } else if lo >= 0x8000 && hi >= 0x8000 {
      SameWords(lo, hi, step, 0x1_0000);
    } else {
      ValuesNone(lo, hi, step);
      ValuesNone(Signed(lo), Signed(hi), step);
    }
  }

  lemma {:induction false} ValuesNone(i: int, limit: int, step: int)
    requires step != 0
    ensures |AsWords(Values(i, limit, step))| == |Values(i, limit, step)|
    ensures Values(i, limit, step) == [] <==> Beyond(i, limit, step)
  {
  }

  /** Words of one half, counted c lower. */
  lemma {:induction false} SameWords(i: int, limit: word, step: int, c: int)
    requires step != 0 && (c == 0 || c == 0x1_0000) && (!Beyond(i, limit, step) ==> 0 <= i < 0x1_0000)
    ensures AsWords(Values(i - c, limit - c, step)) == Values(i, limit, step)
    decreases Distance(i, limit, step)
  {
    assert Beyond(i - c, limit - c, step) == Beyond(i, limit, step);
    ValuesUnfold(i, limit, step);
    ValuesUnfold(i - c, limit - c, step);
    if !Beyond(i, limit, step) {
      LowerWord(i, c);
      assert Distance(i + step, limit, step) < Distance(i, limit, step);
      assert !Beyond(i + step, limit, step) ==> 0 <= i + step < 0x1_0000;
      hide Wrap, Values, Distance, Beyond;
      SameWords(i + step, limit, step, c);
      var us := Values(i + step - c, limit - c, step);
      assert ([i - c] + us)[1..] == us;
      assert i - c + step == i + step - c;
    }
  }

  lemma {:induction false} ValuesUnfold(i: int, limit: int, step: int)
    requires step != 0
    ensures Values(i, limit, step) == if Beyond(i, limit, step) then [] else [i] + Values(i + step, limit, step)
  {
  }

  lemma {:induction false} LowerWord(i: int, c: int)
    requires (c == 0 || c == 0x1_0000) && 0 <= i < 0x1_0000
    ensures Wrap(i - c) == i
  {
  }

  /** Rounds go by the words only. */
  lemma {:induction false} RoundsByWords(b: Stmt, v: Var, vs: seq<int>, st: Store, fuel: nat)
    ensures Rounds(b, v, AsWords(vs), st, fuel) == Rounds(b, v, vs, st, fuel)
    decreases |vs|
  {
    hide Perform, FromWord;
    if vs != [] {
      assert Wrap(Wrap(vs[0])) == Wrap(vs[0]) && AsWords(vs)[1..] == AsWords(vs[1..]);
      var o := Perform(b, st[v := FromWord(v.typ, Wrap(vs[0]))], fuel);
      if o.Done? {
        RoundsByWords(b, v, vs[1..], o.s, fuel);
      }
    }
  }

  /** A FOR over CARDINAL counts the cardinals from its first value to its limit when both are in the
      same half. */
  lemma {:induction false} CardinalFor(s: Stmt, st: Store, lo: word, hi: word, o: Outcome)
    requires Starts(s, st, Signed(lo), Signed(hi)) && StepsWithinWord(Signed(lo), Signed(hi), s.step) && o != Running
    requires lo < 0x8000 <==> hi < 0x8000
    ensures ForLeads(s, st, o) <==> RoundsLead(s, Values(lo, hi, s.step), st, o)
  {
    hide Perform, Rounds, Values, Eval, FromWord, Converted;
    ForRunsItsValues(s, st, Signed(lo), Signed(hi), o);
    CardinalCounts(lo, hi, s.step);
    var vs := Values(Signed(lo), Signed(hi), s.step);
    forall f: nat
      ensures Rounds(s.body, s.v, AsWords(vs), st, f) == Rounds(s.body, s.v, vs, st, f)
    {
      RoundsByWords(s.body, s.v, vs, st, f);
    }
  }

  /** With first value and limit in different halves, a FOR that should count does nothing, upwards and
      downwards. */
  lemma {:induction false} CardinalSkips(s: Stmt, st: Store, lo: word, hi: word, f: nat)
    requires Starts(s, st, Signed(lo), Signed(hi)) && !(lo < 0x8000 <==> hi < 0x8000) && Values(lo, hi, s.step) != []
    ensures Perform(s, st, f) == Done(st)
  {
    hide Perform, PerformFor;
    ForUnfolds(s, st, Signed(lo), Signed(hi), f);
  }
}
