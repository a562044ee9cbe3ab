/** The arms of a compiled CASE: which code the jump table leads to, and that it is the code of
    the arm the source program selects. */
module CaseProof {
  import opened Words
  import opened Options
  import opened MCode
  import opened Machines
  import opened Lang
  import opened StmtLang
  import opened ExprProof
  import opened Blocks
  import opened StmtGen
  import opened StmtProof
  import opened StmtParts
  import opened CaseTable
  import opened Nested

  // ------------------------------------------------------------ the selector

  /** A selector matches labels in 0..32767 as a number just when its word does. */
  lemma {:induction false} WordMatches(rs: seq<Range>, x: Value)
    requires LabelsFit(rs)
    ensures InRanges(Ordinal(x), rs) == InRanges(Encode(x), rs)
  {
    if Ordinal(x) != Encode(x) {
      assert x.I? && x.i < 0 && Encode(x) >= 0x8000;
    }
  }

  lemma {:induction false} WordSelects(a: Arms, env: Env, x: Value)
    requires ArmsFit(a, env)
    ensures Select(a, Ordinal(x)) == Select(a, Encode(x))
  {
    if a.Arm? {
      WordMatches(a.labels, x);
      WordSelects(a.rest, env, x);
    }
  }

  lemma {:induction false} InsertAllWithin(tab: seq<Entry>, rs: seq<Range>, target: int)
    requires Within(tab) && LabelsFit(rs) && InsertAll(tab, rs, target).Some?
    ensures Within(InsertAll(tab, rs, target).value)
    decreases |rs|
  {
    if rs != [] {
      var x := Entry(rs[0].low, rs[0].high, target);
      var t := Insert(tab, x).value;
      InsertAdds(tab, x);
      forall i | 0 <= i < |t|
        ensures 0 <= t[i].low && t[i].high < 0x8000
      {
        assert t[i] in multiset(t);
        assert t[i] == x || t[i] in tab;
      }
      InsertAllWithin(t, rs[1..], target);
    }
  }

  lemma {:induction false} TableWithin(a: Arms, fa: FlowArms, env: Env, at: nat, tab: seq<Entry>, t: seq<Entry>)
    requires ArmsFit(a, env) && Within(tab) && ArmTable(a, fa, at, tab) == Some(t)
    ensures Within(t)
    decreases a
  {
    if a.Arm? && fa.FlowArm? {
      InsertAllWithin(tab, a.labels, at);
      TableWithin(a.rest, fa.rest, env, at + Size(fa.body) + 1, InsertAll(tab, a.labels, at).value, t);
    }
  }

  /** What the finished table does with a selector. */
  lemma {:induction false} TableMeaning(env: Env, a: Arms, fa: FlowArms, tab: seq<Entry>, x: Value, otherwise: int)
    requires Armed()(env, a, fa) && ArmTable(a, fa, 0, []) == Some(tab)
    ensures Ordered(tab) && Within(tab) && Select(a, Ordinal(x)) == Select(a, Encode(x))
    ensures Lookup(tab, Encode(x), otherwise)
         == match ArmPlace(a, fa, 0, Encode(x)) case Some(n) => n case None => otherwise
  {
    assert ArmsCompiled(env, a, fa);
    TableSelects(a, fa, 0, [], tab, Encode(x), otherwise);
    TableWithin(a, fa, env, 0, [], tab);
    WordSelects(a, env, x);
  }

  // ---------------------------------------------------------------- the code

  lemma {:induction false} CaseLayout(p: seq<Module>, st: State, ce: seq<byte>, ca: seq<byte>, cd: seq<byte>, tab: seq<Entry>)
    requires Ready(p, st, CaseCode(ce, ca, cd, tab))
    ensures var pos, origin := |ca| + |cd|, st.pc + |ce| + 3;
            && origin + pos + TableLen(tab) < 0x1_0000
            && Ready(p, st, ce) && Ready(p, st.(pc := st.pc + |ce|), FarJump(0xC2, pos + 2))
            && Ready(p, st.(pc := origin), ca) && Ready(p, st.(pc := origin + |ca|), cd)
            && CodeAt(p[st.modn].code, origin + pos, TableCode(tab, |ca|, pos))
  {
    hide FarJump, TableCode;
    var pos, code := |ca| + |cd|, p[st.modn].code;
    var jump, t := FarJump(0xC2, pos + 2), TableCode(tab, |ca|, pos);
    CodeAtParts(code, st.pc, ce + jump + ca + cd, t);
    CodeAtParts(code, st.pc, ce + jump + ca, cd);
    CodeAtParts(code, st.pc, ce + jump, ca);
    CodeAtParts(code, st.pc, ce, jump);
  }

  /** An arm's body, as it lies in the code behind `origin`. */
  datatype Place = Place(body: Stmt, flow: Flow, exit: int, at: nat)

  ghost predicate ArmLies(p: seq<Module>, env: Env, st: State, origin: int, b: Place) {
    && Compiled()(env, b.body, false, b.flow) && 0 <= origin && origin + b.at + Size(b.flow) + 1 < 0x1_0000
    && Ready(p, st.(pc := origin + b.at), Assemble(b.flow, b.exit) + [0xC3])
  }

  /** The arm that the source program selects lies where the table leads. */
  lemma {:induction false} ArmFound(p: seq<Module>, env: Env, st: State, origin: int, a: Arms, fa: FlowArms, at: nat, k: int, x: int)
    returns (b: Place)
    requires Armed()(env, a, fa) && 0 <= origin && origin + at < 0x1_0000
    requires Ready(p, st.(pc := origin + at), AssembleArms(fa, x))
    ensures ArmPlace(a, fa, at, k).Some? == Select(a, k).Some?
    ensures Select(a, k).Some? ==>
              && b.body == Select(a, k).value && ArmPlace(a, fa, at, k) == Some(b.at) && b.at < at + ArmsSize(fa)
              && ArmLies(p, env, st, origin, b) && StackWords(b.body) <= ArmWords(a)
    decreases a
  {
    hide CodeAt, Size, Assemble, StackWords;
    if a.NoArms? {
      b := Place(Empty, Straight([]), 0, 0);
    } else {
      ArmParts(env, a, fa);
      var here := st.(pc := origin + at);
      var body, rest := Assemble(fa.body, x) + [0xC3], AssembleArms(fa.rest, x - Size(fa.body) - 1);
      ReadyParts(p, here, body, rest);
      if InRanges(k, a.labels) {
        b := Place(a.body, fa.body, x, at);
      } else {
        b := ArmFound(p, env, st, origin, a.rest, fa.rest, at + Size(fa.body) + 1, k, x - Size(fa.body) - 1);
      }
    }
  }

  /** The state in which an arm's code starts. */
  function ArmStart(st: State, at: word, end: word): State
    requires st.s + 1 < MEM_SIZE
  {
    st.(pc := at, s := st.s + 1, mem := st.mem[st.s := end])
  }

  /** When the body is through, EXC leaves the CASE. */
  lemma {:induction false} LeaveCase(p: seq<Module>, env: Env, s: Store, st: State, n: nat, at: word, end: word, o: Outcome, fuel: nat,
                  mid: int, exit: int, exit': int)
    requires Boundary()(env, s, st, n) && 1 <= n && st.s + 1 < MEM_SIZE && Leads(p)(st, Some(ArmStart(st, at, end)))
    requires Simulates(p)(env, ArmStart(st, at, end), o, fuel, mid, exit) && !o.Exited?
    requires 0 < mid < 0x1_0000 && Ready(p, st.(pc := mid), [0xC3])
    ensures Simulates(p)(env, st, o, fuel, end, exit')
  {
    hide Ready, CodeAt, Decode, Exec, WellLaid, Represents;
    var inner := ArmStart(st, at, end);
    Hold(env, s, st, n, inner, [end]);
    if o.Done? {
      var c := DoneState(p, env, inner, o.s, fuel, mid, exit);
      HeldAfter(env, s, st, n, s, inner, [end], o.s, c);
      assert [end][0] == end;
      SamePlace(p, st.(pc := mid), c, [0xC3]);
      ExitCaseRuns(p, c, end);
      var d := c.(pc := end, s := st.s);
      LeadsOn(p, st, inner, Some(c));
      LeadsOn(p, st, c, Some(d));
      Release(env, st, o.s, c, [end], end);
      ArriveDone(p, env, st, o.s, d, fuel, end, exit');
    } else {
      BodyDecides(p, env, st, inner, o, fuel, mid, exit, end);
      Entered(p, env, st, inner, o, fuel, end, exit');
    }
  }

  /** Evaluating the selector and jumping through the table. */
  lemma {:induction false} SelectorRuns(p: seq<Module>, env: Env, s: Store, st: State, n: nat, e: Expr, ce: seq<byte>, tab: seq<Entry>,
                     otherwise: int, pos: nat)
    requires Boundary()(env, s, st, n) && 1 <= n && Prepared()(env, e, 0, ce)
    requires Ready(p, st, ce) && st.pc + |ce| + 3 + pos + TableLen(tab) < 0x1_0000 && st.s + 1 < MEM_SIZE
    requires Ready(p, st.(pc := st.pc + |ce|), FarJump(0xC2, pos + 2))
    requires CodeAt(p[st.modn].code, st.pc + |ce| + 3 + pos, TableCode(tab, otherwise, pos))
    requires Ordered(tab) && Within(tab)
    requires Eval(e, s).Some? ==> 0 <= st.pc + |ce| + 3 + Lookup(tab, Encode(Eval(e, s).value), otherwise) < 0x1_0000
    ensures Leads(p)(st, match Eval(e, s)
                         case None => None
                         case Some(x) =>
                           var origin := st.pc + |ce| + 3;
                           Some(ArmStart(st, origin + Lookup(tab, Encode(x), otherwise), origin + pos + TableLen(tab))))
  {
    hide FarJump, TableCode, Ordered, Within, Lookup, CodeAt, Decode, Exec, Eval, WellLaid;
    BoundaryFacts(env, s, st, n);
    ValueRuns(p, env, s, st, n, st, e, 0, ce);
    if Eval(e, s).Some? {
      var k := Encode(Eval(e, s).value);
      var one := Pushed(st, |ce|, k);
      EnterCaseRuns(p, one, tab, otherwise, pos, k);
      var origin := st.pc + |ce| + 3;
      LeadsOn(p, st, one, Some(ArmStart(st, origin + Lookup(tab, k, otherwise), origin + pos + TableLen(tab))));
    }
  }
}
