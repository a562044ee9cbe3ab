/** Statements of the source language and their meaning. */
module StmtLang {
  import opened Words
  import opened Options
  import opened Lang

  /** Labels low..high of a CASE arm. */
  datatype Range = Range(low: int, high: int)

  datatype Stmt =
    | Empty
    | Seq(first: Stmt, second: Stmt)
    | Assign(v: Var, e: Expr)
    | If(cond: Expr, thn: Stmt)
    | IfElse(cond: Expr, thn: Stmt, els: Stmt)     // ELSIF is an IF in the ELSE part
    | While(guards: Guards)
    | Repeat(body: Stmt, until: Expr)
    | Loop(body: Stmt)
    | Exit
    | For(v: Var, low: Expr, high: Expr, step: int, body: Stmt)
    | Case(sel: Expr, arms: Arms, default: Default)

  /** WHILE with one or more guarded bodies. */
  datatype Guards =
    | Last(cond: Expr, body: Stmt)
    | More(cond: Expr, body: Stmt, rest: Guards)

  datatype Arms =
    | NoArms
    | Arm(labels: seq<Range>, body: Stmt, rest: Arms)

  /** A CASE without ELSE traps when no label matches. */
  datatype Default = Trapping | Else(body: Stmt)

  datatype Outcome =
    | Done(s: Store)
    | Exited(s: Store)      // by EXIT, out of the innermost LOOP
    | Trapped
    | Running               // not finished with the given number of loop iterations

  // -------------------------------------------------------------- static rules

  predicate IsBool(e: Expr) { TypeOf(e) == Some(Bool) }

  /** A value of type u may be assigned to a variable of type t: CARDINAL and INTEGER mix. */
  predicate Assignable(t: Typ, u: Typ) {
    t == u || (t != Bool && u != Bool)
  }

  ghost predicate WellTyped(s: Stmt, vars: set<Var>) {
    match s
    case Empty => true
    case Seq(a, b) => WellTyped(a, vars) && WellTyped(b, vars)
    case Assign(v, e) => v in vars && Vars(e) <= vars && TypeOf(e).Some? && Assignable(v.typ, TypeOf(e).value)
    case If(c, t) => IsBool(c) && Vars(c) <= vars && WellTyped(t, vars)
    case IfElse(c, t, f) => IsBool(c) && Vars(c) <= vars && WellTyped(t, vars) && WellTyped(f, vars)
    case While(g) => GuardsTyped(g, vars)
    case Repeat(b, c) => IsBool(c) && Vars(c) <= vars && WellTyped(b, vars)
    case Loop(b) => WellTyped(b, vars)
    case Exit => true
    case For(v, low, high, _, b) =>
      && v in vars && v.typ != Bool
      && Vars(low) <= vars && TypeOf(low).Some? && Assignable(v.typ, TypeOf(low).value)
      && Vars(high) <= vars && TypeOf(high).Some? && TypeOf(high) != Some(Bool)
      && WellTyped(b, vars)
    case Case(e, arms, d) =>
      && Vars(e) <= vars && TypeOf(e).Some? && ArmsTyped(arms, vars)
      && (d.Else? ==> WellTyped(d.body, vars))
  }

  ghost predicate GuardsTyped(g: Guards, vars: set<Var>) {
    && IsBool(g.cond) && Vars(g.cond) <= vars && WellTyped(g.body, vars)
    && (g.More? ==> GuardsTyped(g.rest, vars))
  }

  ghost predicate ArmsTyped(a: Arms, vars: set<Var>) {
    a.Arm? ==> WellTyped(a.body, vars) && ArmsTyped(a.rest, vars)
  }

  /** No EXIT leaves a FOR or CASE statement; free says whether an EXIT may occur here. */
  predicate ExitsStayInside(s: Stmt, free: bool) {
    match s
    case Empty => true
    case Seq(a, b) => ExitsStayInside(a, free) && ExitsStayInside(b, free)
    case Assign(_, _) => true
    case If(_, t) => ExitsStayInside(t, free)
    case IfElse(_, t, f) => ExitsStayInside(t, free) && ExitsStayInside(f, free)
    case While(g) => GuardExits(g, free)
    case Repeat(b, _) => ExitsStayInside(b, free)
    case Loop(b) => ExitsStayInside(b, true)
    case Exit => free
    case For(_, _, _, _, b) => ExitsStayInside(b, false)
    case Case(_, arms, d) => ArmExits(arms) && (d.Else? ==> ExitsStayInside(d.body, false))
  }

  predicate GuardExits(g: Guards, free: bool) {
    ExitsStayInside(g.body, free) && (g.More? ==> GuardExits(g.rest, free))
  }

  predicate ArmExits(a: Arms) {
    a.Arm? ==> ExitsStayInside(a.body, false) && ArmExits(a.rest)
  }

  // ------------------------------------------------------------------- meaning

  predicate InRanges(k: int, rs: seq<Range>) {
    exists i :: 0 <= i < |rs| && rs[i].low <= k <= rs[i].high
  }

  /** The body a CASE selects: that of the first arm with a label k. */
  function Select(a: Arms, k: int): Option<Stmt> {
    match a
    case NoArms => None
    case Arm(rs, b, rest) => if InRanges(k, rs) then Some(b) else Select(rest, k)
  }

  /** A one-word value of type t from its machine word. */
  function FromWord(t: Typ, w: word): Value {
    match t
    case Card => C(w)
    case Int => I(Wrap16(w))
    case Bool => B(w % 2 == 1)
  }

  /** A value where a value of type t is wanted. CARDINAL and INTEGER share the numbers
      0..32767; any other number of the one type traps where the other type is wanted. */
  function Converted(x: Value, t: Typ): Option<Value> {
    if TypOf(x) == t then Some(x)
    else if t != Bool && !x.B? && Encode(x) <= MAX_INT then Some(FromWord(t, Encode(x)))
    else None
  }

  /** FOR compares its limits as signed words, whatever the type of the control variable. */
  function SignedWord(v: Value): int {
    Signed(Encode(v))
  }

  predicate Beyond(i: int, limit: int, step: int) {
    (step >= 0 && i > limit) || (step <= 0 && i < limit)
  }

  function Perform(s: Stmt, st: Store, fuel: nat): Outcome
    decreases fuel, s, 1
  {
    match s
    case Empty => Done(st)
    case Seq(a, b) =>
      (match Perform(a, st, fuel)
       case Done(st1) => Perform(b, st1, fuel)
       case other => other)
    case Assign(v, e) =>
      (match Eval(e, st)
       case Some(x) =>
         (match Converted(x, v.typ)
          case Some(y) => Done(st[v := y])
          case None => Trapped)
       case None => Trapped)
    case If(c, t) =>
      (match Eval(c, st)
       case Some(x) => if x == B(true) then Perform(t, st, fuel) else Done(st)
       case None => Trapped)
    case IfElse(c, t, f) =>
      (match Eval(c, st)
       case Some(x) => if x == B(true) then Perform(t, st, fuel) else Perform(f, st, fuel)
       case None => Trapped)
    case While(g) => PerformGuards(g, g, st, fuel)
    case Repeat(b, c) =>
      (match Perform(b, st, fuel)
       case Done(st1) =>
         (match Eval(c, st1)
          case Some(x) =>
            if x == B(true) then Done(st1) else if fuel == 0 then Running else Perform(s, st1, fuel - 1)
          case None => Trapped)
       case other => other)
    case Loop(b) =>
      (match Perform(b, st, fuel)
       case Done(st1) => if fuel == 0 then Running else Perform(s, st1, fuel - 1)
       case Exited(st1) => Done(st1)
       case other => other)
    case Exit => Exited(st)
    case For(v, low, high, step, b) =>
      (match (Eval(low, st), Eval(high, st))
       case (Some(lo), Some(hi)) =>
         var first := Converted(lo, v.typ);
         var limit := SignedWord(hi);
         if first == None || Converted(hi, v.typ) == None then Trapped
         else if (step > 0 && SignedWord(first.value) <= limit) || (step <= 0 && SignedWord(first.value) >= limit) then
           PerformFor(v, limit, step, b, st[v := first.value], fuel)
         else Done(st)
       case _ => Trapped)
    case Case(e, arms, d) =>
      (match Eval(e, st)
       case Some(x) =>
         (match Select(arms, Ordinal(x))
          case Some(b) => SelectSmaller(arms, Ordinal(x)); Perform(b, st, fuel)
          case None => if d.Else? then Perform(d.body, st, fuel) else Trapped)
       case None => Trapped)
  }

  lemma {:induction false} SelectSmaller(a: Arms, k: int)
    ensures Select(a, k).Some? ==> Select(a, k).value < a
  {
    if a.Arm? && !InRanges(k, a.labels) {
      SelectSmaller(a.rest, k);
    }
  }

  /** One round of a WHILE from guard g on; all is the whole list. */
  function PerformGuards(all: Guards, g: Guards, st: Store, fuel: nat): Outcome
    decreases fuel, g, 0
  {
    match Eval(g.cond, st)
    case Some(x) =>
      if x == B(true) then
        (match Perform(g.body, st, fuel)
         case Done(st1) => if fuel == 0 then Running else PerformGuards(all, all, st1, fuel - 1)
         case other => other)
      else if g.More? then PerformGuards(all, g.rest, st, fuel)
      else Done(st)
    case None => Trapped
  }

  /** The rounds of a FOR once its body has been entered. The control variable is stepped in
      16 bits and only stored again when the body runs again. */
  function PerformFor(v: Var, limit: int, step: int, b: Stmt, st: Store, fuel: nat): Outcome
    decreases fuel, b, 2
  {
    match Perform(b, st, fuel)
    case Done(st1) =>
      if v !in st1 then Trapped
      else
        var next := Wrap(Encode(st1[v]) + step);
        if Beyond(Signed(next), limit, step) then Done(st1)
        else if fuel == 0 then Running
        else PerformFor(v, limit, step, b, st1[v := FromWord(v.typ, next)], fuel - 1)
    case other => other
  }

  // ----------------------------------------- where no EXIT may occur, none does

  lemma {:induction false} NeverExits(s: Stmt, st: Store, fuel: nat)
    requires ExitsStayInside(s, false)
    ensures !Perform(s, st, fuel).Exited?
    decreases fuel, s, 1
  {
    match s
    case Empty =>
    case Seq(a, b) =>
      NeverExits(a, st, fuel);
      if Perform(a, st, fuel).Done? {
        NeverExits(b, Perform(a, st, fuel).s, fuel);
      }
    case Assign(_, _) =>
    case If(_, t) => NeverExits(t, st, fuel);
    case IfElse(_, t, f) => NeverExits(t, st, fuel); NeverExits(f, st, fuel);
    case While(g) => NeverExitsGuards(g, g, st, fuel);
    case Repeat(b, _) =>
      NeverExits(b, st, fuel);
      if fuel > 0 && Perform(b, st, fuel).Done? {
        NeverExits(s, Perform(b, st, fuel).s, fuel - 1);
      }
    case Loop(b) =>
      if fuel > 0 && Perform(b, st, fuel).Done? {
        NeverExits(s, Perform(b, st, fuel).s, fuel - 1);
      }
    case Exit =>
    case For(v, low, high, step, b) =>
      if Eval(low, st).Some? && Eval(high, st).Some? {
        var first := Converted(Eval(low, st).value, v.typ);
        if first.Some? {
          NeverExitsFor(v, SignedWord(Eval(high, st).value), step, b, st[v := first.value], fuel);
        }
      }
    case Case(e, arms, d) =>
      if Eval(e, st).Some? {
        var k := Ordinal(Eval(e, st).value);
        SelectSmaller(arms, k);
        if Select(arms, k).Some? {
          SelectedExits(arms, k);
          NeverExits(Select(arms, k).value, st, fuel);
        } else if d.Else? {
          NeverExits(d.body, st, fuel);
        }
      }
  }

  lemma {:induction false} NeverExitsGuards(all: Guards, g: Guards, st: Store, fuel: nat)
    requires GuardExits(all, false) && GuardExits(g, false)
    ensures !PerformGuards(all, g, st, fuel).Exited?
    decreases fuel, g, 0
  {
    NeverExits(g.body, st, fuel);
    if fuel > 0 && Perform(g.body, st, fuel).Done? {
      NeverExitsGuards(all, all, Perform(g.body, st, fuel).s, fuel - 1);
    }
    if g.More? {
      NeverExitsGuards(all, g.rest, st, fuel);
    }
  }

  lemma {:induction false} NeverExitsFor(v: Var, limit: int, step: int, b: Stmt, st: Store, fuel: nat)
    requires ExitsStayInside(b, false)
    ensures !PerformFor(v, limit, step, b, st, fuel).Exited?
    decreases fuel, b, 2
  {
    NeverExits(b, st, fuel);
    var o := Perform(b, st, fuel);
    if fuel > 0 && o.Done? && v in o.s {
      NeverExitsFor(v, limit, step, b, o.s[v := FromWord(v.typ, Wrap(Encode(o.s[v]) + step))], fuel - 1);
    }
  }

  lemma {:induction false} SelectedExits(a: Arms, k: int)
    requires ArmExits(a) && Select(a, k).Some?
    ensures ExitsStayInside(Select(a, k).value, false)
  {
    if !InRanges(k, a.labels) {
      SelectedExits(a.rest, k);
    }
  }

  // ------------------------------------------------- fuel is only a device

  lemma {:induction false} MoreFuel(s: Stmt, st: Store, f: nat)
    requires Perform(s, st, f) != Running
    ensures Perform(s, st, f + 1) == Perform(s, st, f)
    decreases f, s, 1
  {
    match s
    case Empty =>
    case Seq(a, b) =>
      MoreFuel(a, st, f);
      if Perform(a, st, f).Done? {
        MoreFuel(b, Perform(a, st, f).s, f);
      }
    case Assign(_, _) =>
    case If(c, t) =>
      if Eval(c, st) == Some(B(true)) {
        MoreFuel(t, st, f);
      }
    case IfElse(c, t, e) =>
      if Eval(c, st).Some? {
        MoreFuel(if Eval(c, st) == Some(B(true)) then t else e, st, f);
      }
    case While(g) => MoreFuelGuards(g, g, st, f);
    case Repeat(b, c) =>
      MoreFuel(b, st, f);
      var o := Perform(b, st, f);
      if o.Done? && Eval(c, o.s).Some? && Eval(c, o.s) != Some(B(true)) {
        MoreFuel(s, o.s, f - 1);
      }
    case Loop(b) =>
      MoreFuel(b, st, f);
      if Perform(b, st, f).Done? {
        MoreFuel(s, Perform(b, st, f).s, f - 1);
      }
    case Exit =>
    case For(v, low, high, step, b) =>
      if Eval(low, st).Some? && Eval(high, st).Some? {
        var first, hi := Converted(Eval(low, st).value, v.typ), Eval(high, st).value;
        var limit := SignedWord(hi);
        if first == None || Converted(hi, v.typ) == None {
        } else if (step > 0 && SignedWord(first.value) <= limit) || (step <= 0 && SignedWord(first.value) >= limit) {
          MoreFuelFor(v, limit, step, b, st[v := first.value], f);
        }
      }
    case Case(e, arms, d) =>
      if Eval(e, st).Some? {
        var k := Ordinal(Eval(e, st).value);
        SelectSmaller(arms, k);
        if Select(arms, k).Some? {
          MoreFuel(Select(arms, k).value, st, f);
        } else if d.Else? {
          MoreFuel(d.body, st, f);
        }
      }
  }

  lemma {:induction false} MoreFuelGuards(all: Guards, g: Guards, st: Store, f: nat)
    requires PerformGuards(all, g, st, f) != Running
    ensures PerformGuards(all, g, st, f + 1) == PerformGuards(all, g, st, f)
    decreases f, g, 0
  {
    if Eval(g.cond, st) == Some(B(true)) {
      MoreFuel(g.body, st, f);
      if Perform(g.body, st, f).Done? {
        MoreFuelGuards(all, all, Perform(g.body, st, f).s, f - 1);
      }
    } else if Eval(g.cond, st).Some? && g.More? {
      MoreFuelGuards(all, g.rest, st, f);
    }
  }

  lemma {:induction false} ForRound(v: Var, limit: int, step: int, b: Stmt, st: Store, f: nat)
    ensures PerformFor(v, limit, step, b, st, f)
         == match Perform(b, st, f)
            case Done(t) =>
              if v !in t then Trapped
              else
                var next := Wrap(Encode(t[v]) + step);
                if Beyond(Signed(next), limit, step) then Done(t)
                else if f == 0 then Running
                else PerformFor(v, limit, step, b, t[v := FromWord(v.typ, next)], f - 1)
            case other => other
  {
    hide Perform, Eval, Encode, FromWord, Wrap, Signed;
  }

  lemma {:induction false} MoreFuelFor(v: Var, limit: int, step: int, b: Stmt, st: Store, f: nat)
    requires PerformFor(v, limit, step, b, st, f) != Running
    ensures PerformFor(v, limit, step, b, st, f + 1) == PerformFor(v, limit, step, b, st, f)
    decreases f, b, 2
  {
    hide Perform, PerformFor, Eval, Encode, FromWord, Wrap, Signed;
    ForRound(v, limit, step, b, st, f);
    ForRound(v, limit, step, b, st, f + 1);
    MoreFuel(b, st, f);
    var o := Perform(b, st, f);
    if o.Done? && v in o.s {
      var next := Wrap(Encode(o.s[v]) + step);
      if !Beyond(Signed(next), limit, step) {
        MoreFuelFor(v, limit, step, b, o.s[v := FromWord(v.typ, next)], f - 1);
      }
    }
  }
}
