/** Function calls inside expressions: operands that wait on the expression stack are stored before a
    call and reloaded beneath its result. */
module Pending {
  import opened Words
  import opened Options
  import opened MCode
  import opened Emulator

  /** The operations that always have a result. */
  type TotalOp = op: BinaryOp | !op.UDiv? && !op.UMod? && !op.IDiv? witness UAdd

  /** An expression with function calls. */
  datatype FExpr = Const(w: word) | Both(op: TotalOp, l: FExpr, r: FExpr) | Apply(f: nat, args: FArgs)
  datatype FArgs = NoArgs | Args(init: FArgs, last: FExpr)

  /** The results of the functions, as functions of their arguments. */
  type Meaning = (nat, seq<word>) -> word

  function Value(fs: Meaning, e: FExpr): word {
    match e
    case Const(w) => w
    case Both(op, l, r) => MCode.Apply(op, Value(fs, l), Value(fs, r)).value
    case Apply(f, args) => fs(f, Values(fs, args))
  }

  function Values(fs: Meaning, a: FArgs): (ws: seq<word>)
    ensures |ws| == Count(a)
  {
    match a case NoArgs => [] case Args(init, e) => Values(fs, init) + [Value(fs, e)]
  }

  function Count(a: FArgs): nat {
    match a case NoArgs => 0 case Args(init, _) => Count(init) + 1
  }

  // ------------------------------------------------------------ what is emitted

  datatype Step = Load(w: word) | Operate(op: TotalOp) | Store | Call(f: nat, n: nat) | Reload

  /** The code of an expression when sp words are on the stack, as far as the compiler has counted. */
  function Code(e: FExpr, sp: nat): seq<Step>
    decreases e, 1
  {
    match e
    case Const(w) => [Load(w)]
    case Both(op, l, r) => Code(l, sp) + Code(r, sp + 1) + [Operate(op)]
    case Apply(f, args) => Prep(sp) + ArgsCode(args) + [Call(f, Count(args))] + Adjust(sp)
  }

  /** `PrepCall`: STORE exactly when operands are waiting. */
  function Prep(sp: nat): seq<Step> {
    if sp > 0 then [Store] else []
  }

  /** `adjustStack`: LODFW exactly when operands were waiting. */
  function Adjust(sp: nat): seq<Step> {
    if sp > 0 then [Reload] else []
  }

  /** The arguments, from an empty stack on. */
  function ArgsCode(a: FArgs): seq<Step> {
    match a case NoArgs => [] case Args(init, e) => ArgsCode(init) + Code(e, Count(init))
  }

  // ------------------------------------------------------------------- running

  /** Memory below S is unchanged. */
  predicate Below(a: State, b: State) {
    forall i :: 0 <= i < a.s && i < b.s ==> b.mem[i] == a.mem[i]
  }

  /** A function takes exactly the words on the stack as its arguments, and returns with its result
      alone on the stack, S where it was and everything below S as it was. */
  predicate Returned(fs: Meaning, f: nat, n: nat, a: State, b: State) {
    |a.es| == n && b.es == [fs(f, a.es)] && b.s == a.s && Below(a, b)
  }

  ghost predicate Did(fs: Meaning, s: Step, a: State, b: State) {
    match s
    case Load(w) => PushWord(a, w) == Some(b)
    case Operate(op) => ExecBinary(a, op) == Some(b)
    case Store => Save(a) == Some(b)
    case Call(f, n) => Returned(fs, f, n, a, b)
    case Reload => Reloaded(a) == Some(b)
  }

  /** LODFW. */
  function Reloaded(a: State): Option<State> {
    if !MCode.Holds(a, 1) then None
    else (match Restore(Pop(a, 1))
          case None => None
          case Some(r) => PushWord(r, Top(a)))
  }

  ghost predicate Runs(fs: Meaning, c: seq<Step>, a: State, b: State)
    decreases |c|
  {
    if c == [] then a == b else exists m :: Did(fs, c[0], a, m) && Runs(fs, c[1..], m, b)
  }

  lemma {:induction false} Split(fs: Meaning, c: seq<Step>, d: seq<Step>, a: State, b: State) returns (m: State)
    requires Runs(fs, c + d, a, b)
    ensures Runs(fs, c, a, m) && Runs(fs, d, m, b)
    decreases |c|
  {
    if c == [] {
      assert c + d == d;
      m := a;
    } else {
      var n :| Did(fs, (c + d)[0], a, n) && Runs(fs, (c + d)[1..], n, b);
      assert (c + d)[1..] == c[1..] + d;
      m := Split(fs, c[1..], d, n, b);
    }
  }

  lemma {:induction false} RunsOne(fs: Meaning, s: Step, a: State, b: State)
    requires Runs(fs, [s], a, b)
    ensures Did(fs, s, a, b)
  {
    var m :| Did(fs, s, a, m) && Runs(fs, [s][1..], m, b);
  }

  /** The value on top of what was there, and nothing below S changed. */
  predicate Pushed(a: State, b: State, ws: seq<word>) {
    b.es == a.es + ws && b.s == a.s && Below(a, b)
  }

  lemma {:induction false} Operated(fs: Meaning, op: TotalOp, a: State, b: State, rest: seq<word>, i: word, j: word)
    requires Did(fs, Operate(op), a, b) && a.es == rest + [i, j]
    ensures b.es == rest + [MCode.Apply(op, i, j).value] && b.s == a.s && b.mem == a.mem
  {
    hide MCode.Apply;
    TotalApplies(op, i, j);
    assert Pop(a, 2).es == rest && Second(a) == i && Top(a) == j;
  }

  lemma {:induction false} TotalApplies(op: TotalOp, i: word, j: word)
    ensures MCode.Apply(op, i, j).Some?
  {
    hide ShiftLeft, ShiftRight, CommonBits, Wrap, Signed;
  }

  /** However deep calls are nested, the code of an expression leaves its value on top of all waiting
      operands, in their order; and when code runs, the compiler's count is the stack's depth. */
  lemma {:induction false} CodeRuns(fs: Meaning, e: FExpr, a: State, b: State)
    requires Runs(fs, Code(e, |a.es|), a, b) && |a.es| <= EXS_SIZE
    ensures Pushed(a, b, [Value(fs, e)]) && |b.es| <= EXS_SIZE
    decreases e, 1
  {
    match e
    case Const(w) => RunsOne(fs, Load(w), a, b);
    case Both(op, l, r) =>
      var m := Split(fs, Code(l, |a.es|) + Code(r, |a.es| + 1), [Operate(op)], a, b);
      var n := Split(fs, Code(l, |a.es|), Code(r, |a.es| + 1), a, m);
      CodeRuns(fs, l, a, n);
      CodeRuns(fs, r, n, m);
      RunsOne(fs, Operate(op), m, b);
      assert m.es == a.es + [Value(fs, l), Value(fs, r)];
      Operated(fs, op, m, b, a.es, Value(fs, l), Value(fs, r));
    case Apply(f, args) => CallRuns(fs, e, f, args, a, b);
  }

  lemma {:induction false} ArgsRun(fs: Meaning, args: FArgs, a: State, b: State)
    requires Runs(fs, ArgsCode(args), a, b) && a.es == []
    ensures Pushed(a, b, Values(fs, args)) && |b.es| <= EXS_SIZE
    decreases args, 0
  {
    if args.Args? {
      var m := Split(fs, ArgsCode(args.init), Code(args.last, Count(args.init)), a, b);
      ArgsRun(fs, args.init, a, m);
      CodeRuns(fs, args.last, m, b);
    }
  }

  lemma {:induction false} CallRuns(fs: Meaning, e: FExpr, f: nat, args: FArgs, a: State, b: State)
    requires e == Apply(f, args) && Runs(fs, Code(e, |a.es|), a, b) && |a.es| <= EXS_SIZE
    ensures Pushed(a, b, [Value(fs, e)]) && |b.es| <= EXS_SIZE
    decreases e, 0
  {
    hide Save, Restore, Below;
    var n := |a.es|;
    var m3 := Split(fs, Prep(n) + ArgsCode(args) + [Call(f, Count(args))], Adjust(n), a, b);
    var m2 := Split(fs, Prep(n) + ArgsCode(args), [Call(f, Count(args))], a, m3);
    var m1 := Split(fs, Prep(n), ArgsCode(args), a, m2);
    Stored(fs, a, m1);
    ArgsRun(fs, args, m1, m2);
    assert [] + Values(fs, args) == Values(fs, args);
    RunsOne(fs, Call(f, Count(args)), m2, m3);
    BelowTwice(m1, m2, m3);
    if n > 0 {
      RunsOne(fs, Reload, m3, b);
      ReloadsBelow(a, m1, m3, b, Value(fs, e));
    } else {
      assert a.es + [Value(fs, e)] == [Value(fs, e)];
    }
  }

  lemma {:induction false} Stored(fs: Meaning, a: State, m: State)
    requires Runs(fs, Prep(|a.es|), a, m)
    ensures m.es == [] && (|a.es| > 0 ==> Save(a) == Some(m)) && (|a.es| == 0 ==> m == a)
  {
    if |a.es| > 0 {
      RunsOne(fs, Store, a, m);
    }
  }

  lemma {:induction false} BelowTwice(a: State, b: State, c: State)
    requires Below(a, b) && Below(b, c) && a.s == b.s == c.s
    ensures Below(a, c)
  {
  }

  lemma {:induction false} ReloadsBelow(a: State, m1: State, m3: State, b: State, w: word)
    requires 0 < |a.es| <= EXS_SIZE && Save(a) == Some(m1) && m3.es == [w] && m3.s == m1.s && Below(m1, m3) && Reloaded(m3) == Some(b)
    ensures Pushed(a, b, [w]) && |b.es| <= EXS_SIZE
  {
    assert Restore(Pop(m3, 1)).Some? ==> m3.s > 0;
    hide Restore;
    var empty := Pop(m3, 1);
    assert empty.es == [] && Top(m3) == w;
    SaveRestore(a, empty);
    assert [] + a.es == a.es;
  }

  /** Room for the expression on an expression stack of sp words and a memory stack of s: functions
      are called only while the memory stack ends at `limit` or below. */
  predicate Fits(e: FExpr, sp: nat, s: nat, limit: nat)
    decreases e, 1
  {
    match e
    case Const(_) => sp < EXS_SIZE
    case Both(_, l, r) => Fits(l, sp, s, limit) && Fits(r, sp + 1, s, limit)
    case Apply(_, args) => sp < EXS_SIZE && Stacked(sp, s) <= limit && ArgsFit(args, Stacked(sp, s), limit)
  }

  /** Where the memory stack ends when sp waiting operands have been stored on it. */
  function Stacked(sp: nat, s: nat): nat {
    if sp > 0 then s + sp + 1 else s
  }

  predicate ArgsFit(a: FArgs, s: nat, limit: nat) {
    match a case NoArgs => true case Args(init, e) => ArgsFit(init, s, limit) && Fits(e, Count(init), s, limit)
  }

  lemma {:induction false} Joined(fs: Meaning, c: seq<Step>, d: seq<Step>, a: State, m: State, b: State)
    requires Runs(fs, c, a, m) && Runs(fs, d, m, b)
    ensures Runs(fs, c + d, a, b)
    decreases |c|
  {
    hide Did;
    if c == [] {
      assert c + d == d;
    } else {
      var n :| Did(fs, c[0], a, n) && Runs(fs, c[1..], n, m);
      Joined(fs, c[1..], d, n, m, b);
      assert (c + d)[0] == c[0] && (c + d)[1..] == c[1..] + d;
    }
  }

  lemma {:induction false} OneRuns(fs: Meaning, s: Step, a: State, b: State)
    requires Did(fs, s, a, b)
    ensures Runs(fs, [s], a, b)
  {
    assert Runs(fs, [s][1..], b, b);
  }

  /** What STORE leaves is enough for LODFW. */
  lemma {:induction false} ReloadCanRun(a: State, m1: State, m3: State, w: word) returns (b: State)
    requires 0 < |a.es| < EXS_SIZE && Save(a) == Some(m1) && m3.es == [w] && m3.s == m1.s > 0 && Below(m1, m3)
    ensures Reloaded(m3) == Some(b)
  {
    var empty := Pop(m3, 1);
    assert empty.es == [] && Top(m3) == w;
    SaveRestore(a, empty);
    assert [] + a.es == a.es;
    b := Reloaded(m3).value;
  }
}
