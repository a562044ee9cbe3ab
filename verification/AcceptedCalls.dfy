/** Which expressions with calls the compiler accepts, counted on their source: procedure numbers,
    words on the expression stack, calls of imports and bytes of code. */
module AcceptedCalls {
  import opened Words
  import opened Options
  import opened Relocation
  import opened Pending
  import opened CallGen
  import opened Emitter
  import StmtGen
  import A = Acceptance
  import G = ExprGen

  /** A procedure of this module or of the calling level: its number is part of a CLL. */
  predicate ByNumber(q: Callee, level: nat) {
    q.pmod == 0 && (q.lev == 0 || q.lev == level)
  }

  /** Whatever is called by CLL has a number of one byte. */
  predicate Numbered(c: Scope, e: FExpr)
    requires InScope(c)
    decreases e, 1
  {
    match e
    case Const(_) => true
    case Both(_, l, r) => Numbered(c, l) && Numbered(c, r)
    case Apply(f, args) => (ByNumber(ProcOf(c, f), c.level) ==> ProcOf(c, f).num < 0x100) && ArgsNumbered(c, args)
  }

  predicate ArgsNumbered(c: Scope, args: FArgs)
    requires InScope(c)
    decreases args, 0
  {
    match args case NoArgs => true case Args(init, e) => ArgsNumbered(c, init) && Numbered(c, e)
  }

  /** The words on the expression stack when n are there before: the arguments of a call start from
      none, and the base address of a level between comes on top of them. */
  function WordsNeeded(c: Scope, e: FExpr, n: nat): nat
    requires InScope(c)
    decreases e, 1
  {
    match e
    case Const(_) => n + 1
    case Both(_, l, r) => A.Larger(WordsNeeded(c, l, n), WordsNeeded(c, r, n + 1))
    case Apply(f, args) =>
      var q := ProcOf(c, f);
      A.Larger(A.Larger(ArgsWords(c, args), Count(args) + if q.pmod == 0 && !ByNumber(q, c.level) then 1 else 0), n + 1)
  }

  function ArgsWords(c: Scope, args: FArgs): nat
    requires InScope(c)
    decreases args, 0
  {
    match args case NoArgs => 0 case Args(init, e) => A.Larger(ArgsWords(c, init), WordsNeeded(c, e, Count(init)))
  }

  /** How often procedures of other modules are called. */
  function FarCalls(c: Scope, e: FExpr): nat
    requires InScope(c)
    decreases e, 1
  {
    match e
    case Const(_) => 0
    case Both(_, l, r) => FarCalls(c, l) + FarCalls(c, r)
    case Apply(f, args) => ArgsFarCalls(c, args) + if ProcOf(c, f).pmod != 0 then 1 else 0
  }

  function ArgsFarCalls(c: Scope, args: FArgs): nat
    requires InScope(c)
    decreases args, 0
  {
    match args case NoArgs => 0 case Args(init, e) => ArgsFarCalls(c, init) + FarCalls(c, e)
  }

  function LiteralLength(w: word): nat {
    if w < 0x10 || w == 0xFFFF then 1 else if w < 0x100 then 2 else 3
  }

  function CallLength(q: Callee, level: nat): nat {
    if q.pmod != 0 then 3
    else if ByNumber(q, level) then (if q.num < 0x10 then 1 else 2)
    else if level - q.lev == 1 then 3
    else 4
  }

  /** The bytes for an expression when n words are on the stack; operands that wait for a call are
      stored before it and reloaded behind it. */
  function Length(c: Scope, e: FExpr, n: nat): nat
    requires InScope(c)
    decreases e, 1
  {
    match e
    case Const(w) => LiteralLength(w)
    case Both(_, l, r) => Length(c, l, n) + Length(c, r, n + 1) + 1
    case Apply(f, args) => ArgsLength(c, args) + CallLength(ProcOf(c, f), c.level) + if n > 0 then 2 else 0
  }

  function ArgsLength(c: Scope, args: FArgs): nat
    requires InScope(c)
    decreases args, 0
  {
    match args case NoArgs => 0 case Args(init, e) => ArgsLength(c, init) + Length(c, e, Count(init))
  }

  /** A place where code can be generated. */
  predicate Open(a: Site) {
    a.Site? && 0 <= a.sp <= StmtGen.STACK_DEPTH && |a.out| <= CODE_LENGTH && |a.rels| <= REL_TAB_LENGTH
  }

  /** There is room for this much. */
  predicate Fits(a: Site, words: nat, far: nat, length: nat)
    requires a.Site?
  {
    words <= 16 && |a.rels| + far <= 1000 && |a.out| + length <= 12000
  }

  /** Site b is reached from a, behind this much code, with n words on the stack. */
  predicate Behind(a: Site, b: Site, far: nat, length: nat, n: nat)
    requires a.Site?
  {
    b.Site? ==> Open(b) && b.sp == n && |b.rels| == |a.rels| + far && |b.out| == |a.out| + length
  }

  lemma {:induction false} LiteralSize(w: word)
    ensures |G.LitCode(w)| == LiteralLength(w)
  {
  }

  lemma {:induction false} CallSize(q: Callee, level: nat)
    requires q.lev <= level
    ensures CallBytes(q, level).Some? <==> (ByNumber(q, level) ==> q.num < 0x100)
    ensures CallBytes(q, level).Some? ==> |CallBytes(q, level).value| == CallLength(q, level)
  {
  }

  /** STORE, or nothing. */
  lemma {:induction false} PreparedWhen(a: Site)
    requires Open(a)
    ensures Prepared(a).Site? <==> Fits(a, 0, 0, if a.sp > 0 then 1 else 0)
    ensures Behind(a, Prepared(a), 0, if a.sp > 0 then 1 else 0, 0)
  {
  }

  lemma {:induction false} CallWhen(a: Site, q: Callee, level: nat)
    requires Open(a) && q.lev <= level
    ensures var extra, far := if q.pmod == 0 && !ByNumber(q, level) then 1 else 0, if q.pmod != 0 then 1 else 0;
            && (CallSite(a, q, level).Site? <==> (ByNumber(q, level) ==> q.num < 0x100) && Fits(a, a.sp + extra, far, CallLength(q, level)))
            && Behind(a, CallSite(a, q, level), far, CallLength(q, level), a.sp)
  {
    CallSize(q, level);
    hide CallBytes, CallLength;
    if q.pmod != 0 {
      assert CallLength(q, level) == 3 by { FarSize(q, level); }
    }
  }

  lemma {:induction false} FarSize(q: Callee, level: nat)
    requires q.lev <= level && q.pmod != 0
    ensures CallLength(q, level) == 3
  {
  }

  /** Behind the call of a procedure with a result of `size` words, 0 for none: nothing, or one
      instruction that brings n waiting operands back; the words counted are these and the result. */
  lemma {:induction false} AdjustedWhen(a: Site, n: nat, size: nat)
    requires Open(a) && n <= StmtGen.STACK_DEPTH && size <= 2
    ensures var words, length := if size == 0 then 0 else n + size, if size > 0 && n > 0 then 1 else 0;
            && (Adjusted(a, n, size).Site? <==> Fits(a, words, 0, length))
            && Behind(a, Adjusted(a, n, size), 0, length, words)
  {
  }

  lemma {:induction false} OperatorWhen(a: Site, op: TotalOp)
    requires Open(a) && a.sp > 0
    ensures Put(a, [OpByte(op)], -1, 0).Site? <==> Fits(a, 0, 0, 1)
    ensures Behind(a, Put(a, [OpByte(op)], -1, 0), 0, 1, a.sp - 1)
  {
    hide OpByte;
  }

  lemma {:induction false} WordsAtLeast(c: Scope, e: FExpr, n: nat)
    requires InScope(c)
    ensures WordsNeeded(c, e, n) > n
  {
    match e
    case Const(_) =>
    case Both(_, l, r) => WordsAtLeast(c, l, n);
    case Apply(_, _) =>
  }

  /** An expression with calls is accepted exactly when the procedures it calls have numbers that fit
      their calls, and there is room for its words, its relocations and its code. */
  lemma {:induction false} CallsAccepted(c: Scope, a: Site, e: FExpr)
    requires InScope(c) && Open(a)
    ensures Emitted(c, a, e).Site? <==> Numbered(c, e) && Fits(a, WordsNeeded(c, e, a.sp), FarCalls(c, e), Length(c, e, a.sp))
    ensures Behind(a, Emitted(c, a, e), FarCalls(c, e), Length(c, e, a.sp), a.sp + 1)
    decreases e, 1
  {
    hide OpByte, Prepared, CallSite, Adjusted, CallLength, ByNumber, Count;
    match e
    case Const(w) => LiteralSize(w);
    case Both(op, l, r) => BothAccepted(c, a, op, l, r);
    case Apply(f, args) => ApplyAccepted(c, a, f, args);
  }

  lemma {:induction false} BothAccepted(c: Scope, a: Site, op: TotalOp, l: FExpr, r: FExpr)
    requires InScope(c) && Open(a)
    ensures var e := Both(op, l, r);
            && (Emitted(c, a, e).Site? <==> Numbered(c, e) && Fits(a, WordsNeeded(c, e, a.sp), FarCalls(c, e), Length(c, e, a.sp)))
            && Behind(a, Emitted(c, a, e), FarCalls(c, e), Length(c, e, a.sp), a.sp + 1)
    decreases Both(op, l, r), 0
  {
    hide *;
    SpCounts(a);
    BothUnfold(c, a, op, l, r);
    BothEmitted(c, a, op, l, r);
    var m := Emitted(c, a, l);
    var b := Emitted(c, m, r);
    CallsAccepted(c, a, l);
    BehindParts(a, m, FarCalls(c, l), Length(c, l, a.sp), a.sp + 1);
    if m.Site? {
      CallsAccepted(c, m, r);
      BehindParts(m, b, FarCalls(c, r), Length(c, r, a.sp + 1), a.sp + 2);
      if b.Site? {
        OperatorWhen(b, op);
      }
    } else {
      StaysBroken(c, m, r);
    }
    OneBehindTheOther(a, m, b, Emitted(c, a, Both(op, l, r)), Numbered(c, l), WordsNeeded(c, l, a.sp), FarCalls(c, l), Length(c, l, a.sp),
                      Numbered(c, r), WordsNeeded(c, r, a.sp + 1), FarCalls(c, r), Length(c, r, a.sp + 1));
  }

  lemma {:induction false} SpCounts(a: Site)
    requires Open(a)
    ensures a.Site? && a.sp >= 0
  {
  }

  lemma {:induction false} BehindParts(a: Site, b: Site, far: nat, length: nat, n: nat)
    requires a.Site? && Behind(a, b, far, length, n)
    ensures b.Site? ==> Open(b) && b.sp == n
  {
  }

  /** Two operands and an operator: there is room for all when there is room for each where it stands. */
  lemma {:induction false} OneBehindTheOther(a: Site, m: Site, b: Site, end: Site, okl: bool, wl: nat, fl: nat, nl: nat, okr: bool, wr: nat, fr: nat, nr: nat)
    requires Open(a) && (m.Site? <==> okl && Fits(a, wl, fl, nl)) && Behind(a, m, fl, nl, a.sp + 1)
    requires m.Site? ==> (b.Site? <==> okr && Fits(m, wr, fr, nr)) && Behind(m, b, fr, nr, a.sp + 2)
    requires b.Site? ==> m.Site? && (end.Site? <==> Fits(b, 0, 0, 1)) && Behind(b, end, 0, 1, a.sp + 1)
    requires end.Site? ==> b.Site?
    ensures end.Site? <==> okl && okr && Fits(a, A.Larger(wl, wr), fl + fr, nl + nr + 1)
    ensures Behind(a, end, fl + fr, nl + nr + 1, a.sp + 1)
  {
  }

  lemma {:induction false} BothUnfold(c: Scope, a: Site, op: TotalOp, l: FExpr, r: FExpr)
    requires InScope(c) && Open(a)
    ensures var e := Both(op, l, r);
            && (Numbered(c, e) <==> Numbered(c, l) && Numbered(c, r))
            && WordsNeeded(c, e, a.sp) == A.Larger(WordsNeeded(c, l, a.sp), WordsNeeded(c, r, a.sp + 1))
            && FarCalls(c, e) == FarCalls(c, l) + FarCalls(c, r)
            && Length(c, e, a.sp) == Length(c, l, a.sp) + Length(c, r, a.sp + 1) + 1
  {
    hide Emitted, Put, OpByte, ProcOf;
  }

  lemma {:induction false} BothEmitted(c: Scope, a: Site, op: TotalOp, l: FExpr, r: FExpr)
    requires InScope(c)
    ensures Emitted(c, a, Both(op, l, r)) == Put(Emitted(c, Emitted(c, a, l), r), [OpByte(op)], -1, 0)
    ensures Put(Broken, [OpByte(op)], -1, 0) == Broken
  {
    hide OpByte, InScope, Prepared, CallSite, Adjusted, ProcOf;
  }

  lemma {:induction false} ApplyAccepted(c: Scope, a: Site, f: nat, args: FArgs)
    requires InScope(c) && Open(a)
    ensures var e := Apply(f, args);
            && (Emitted(c, a, e).Site? <==> Numbered(c, e) && Fits(a, WordsNeeded(c, e, a.sp), FarCalls(c, e), Length(c, e, a.sp)))
            && Behind(a, Emitted(c, a, e), FarCalls(c, e), Length(c, e, a.sp), a.sp + 1)
    decreases args, 1
  {
    ApplyUnfold(c, a, f, args);
    hide Emitted, EmittedArgs, Numbered, ArgsNumbered, WordsNeeded, ArgsWords, FarCalls, ArgsFarCalls, Length, ArgsLength, CallLength, InScope,
         Prepared, CallSite, Adjusted, ProcOf, ByNumber, Count;
    var m, q := Prepared(a), ProcOf(c, f);
    PreparedWhen(a);
    BrokenCall(q, c.level, a.sp);
    if m.Site? {
      ArgsAccepted(c, m, args);
      var b := EmittedArgs(c, m, args);
      if b.Site? {
        CallWhen(b, q, c.level);
        var d := CallSite(b, q, c.level);
        if d.Site? {
          AdjustedWhen(d, a.sp, 1);
        }
      }
    } else {
      ArgsStayBroken(c, m, args);
    }
  }

  lemma {:induction false} BrokenCall(q: Callee, level: nat, n: nat)
    requires q.lev <= level
    ensures CallSite(Broken, q, level) == Broken && Adjusted(Broken, n, 1) == Broken
  {
    hide CallBytes;
  }

  lemma {:induction false} ApplyUnfold(c: Scope, a: Site, f: nat, args: FArgs)
    requires InScope(c) && Open(a)
    ensures var e, q := Apply(f, args), ProcOf(c, f);
            && Emitted(c, a, e) == Adjusted(CallSite(EmittedArgs(c, Prepared(a), args), q, c.level), a.sp, 1)
            && (Numbered(c, e) <==> (ByNumber(q, c.level) ==> q.num < 0x100) && ArgsNumbered(c, args))
            && WordsNeeded(c, e, a.sp)
            == A.Larger(A.Larger(ArgsWords(c, args), Count(args) + if q.pmod == 0 && !ByNumber(q, c.level) then 1 else 0), a.sp + 1)
            && FarCalls(c, e) == ArgsFarCalls(c, args) + (if q.pmod != 0 then 1 else 0)
            && Length(c, e, a.sp) == ArgsLength(c, args) + CallLength(q, c.level) + (if a.sp > 0 then 2 else 0)
  {
    hide Adjusted, CallSite, Prepared, ByNumber, CallLength, Count;
  }

  lemma {:induction false} ArgsAccepted(c: Scope, a: Site, args: FArgs)
    requires InScope(c) && Open(a) && a.sp == 0
    ensures EmittedArgs(c, a, args).Site? <==> ArgsNumbered(c, args) && Fits(a, ArgsWords(c, args), ArgsFarCalls(c, args), ArgsLength(c, args))
    ensures Behind(a, EmittedArgs(c, a, args), ArgsFarCalls(c, args), ArgsLength(c, args), Count(args))
    decreases args, 0
  {
    hide Emitted, Numbered, WordsNeeded, FarCalls, Length, InScope;
    if args.Args? {
      ArgsAccepted(c, a, args.init);
      var m := EmittedArgs(c, a, args.init);
      if m.Site? {
        CallsAccepted(c, m, args.last);
      } else {
        StaysBroken(c, m, args.last);
      }
    }
  }
}
