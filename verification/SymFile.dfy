/** The symbol file: what the writer puts into it for the types and objects of a module, and what
    the reader makes of it. */
module SymFile {
  import opened Words
  import opened Options

  // ------------------------------------------------------------- type graphs

  /** A standard type, known by its number, or a node of the type graph. */
  datatype Type = Std(k: nat) | Own(i: nat)

  datatype Field = Field(name: seq<byte>, typ: Type, offset: word)
  datatype Param = Param(varpar: bool, typ: Type)

  datatype Form =
    | Enum(consts: word)
    | Range(base: Type, min: word, max: word)
    | Pointer(to: Option<Type>)
    | Set(base: Type)
    | ProcTyp(params: seq<Param>, res: Option<Type>)
    | Array(elem: Type, index: Type)
    | DynArray(elem: Type)
    | Record(fields: seq<Field>)
    | Opaque

  datatype Struct = Struct(size: word, form: Form)

  datatype Obj =
    | TypeObj(name: seq<byte>, typ: Type)
    | VarObj(name: seq<byte>, typ: Type, lev: word, adr: word)

  type Graph = seq<Struct>

  const MIN_S: nat := 32       // the first number that is not a standard type's
  const MAX_S: nat := 1024

  const CTL: word := 0xF000    // 170000B
  const STR: word := 0xF200
  const CMP: word := 0xF400
  const OBJ: word := 0xF600
  const MOD_TAG: word := 1
  const REF_TAG: word := 3
  const LINKAGE: word := 4

  predicate StdNumber(k: nat) {
    1 <= k <= 13 && k != 8
  }

  function FieldTypes(fs: seq<Field>): (ts: seq<Type>)
    ensures |ts| == |fs| && forall i :: 0 <= i < |fs| ==> ts[i] == fs[i].typ
  {
    seq(|fs|, i requires 0 <= i < |fs| => fs[i].typ)
  }

  function ParamTypes(ps: seq<Param>): (ts: seq<Type>)
    ensures |ts| == |ps| && forall i :: 0 <= i < |ps| ==> ts[i] == ps[i].typ
  {
    seq(|ps|, i requires 0 <= i < |ps| => ps[i].typ)
  }

  /** The types that must have a number before a structure is written, in the order in which the
      writer comes to them. The base of a pointer is not among them. */
  function Components(f: Form): seq<Type> {
    match f
    case Enum(_) => []
    case Range(b, _, _) => [b]
    case Pointer(_) => []
    case Set(b) => [b]
    case ProcTyp(ps, r) => ParamTypes(ps) + if r.Some? then [r.value] else []
    case Array(e, i) => [e, i]
    case DynArray(e) => [e]
    case Record(fs) => FieldTypes(fs)
    case Opaque => []
  }

  /** A name carries its length, itself included, in its first byte. */
  predicate Named(n: seq<byte>) {
    n != [] && n[0] == |n|
  }

  predicate Known(g: Graph, t: Type) {
    match t case Std(k) => StdNumber(k) case Own(i) => i < |g|
  }

  function Rank(rank: seq<nat>, t: Type): nat {
    match t case Std(_) => 0 case Own(i) => if i < |rank| then 1 + rank[i] else 0
  }

  /** Types refer to types of the graph, without a cycle that avoids pointers: rank grows from
      the components to the whole. Result types are standard types. */
  predicate WellFormed(g: Graph, rank: seq<nat>) {
    |rank| == |g| && forall i :: 0 <= i < |g| ==> WellStructured(g, rank, i, g[i].form)
  }

  predicate WellStructured(g: Graph, rank: seq<nat>, i: nat, f: Form)
    requires i < |rank|
  {
    && (forall t :: t in Components(f) ==> Known(g, t) && Rank(rank, t) <= rank[i])
    && (f.Pointer? ==> f.to.Some? && Known(g, f.to.value))
    && (f.ProcTyp? ==> (f.res.Some? ==> f.res.value.Std?))
    && (f.Record? ==> (forall k :: 0 <= k < |f.fields| ==> Named(f.fields[k].name)) && Distinct(f.fields))
  }

  predicate Distinct(fs: seq<Field>) {
    forall j, k :: 0 <= j < k < |fs| ==> fs[j].name != fs[k].name
  }

  predicate ObjsKnown(g: Graph, objs: seq<Obj>) {
    && (forall k :: 0 <= k < |objs| ==> Known(g, objs[k].typ) && Named(objs[k].name))
    && (forall j, k :: 0 <= j < k < |objs| ==> objs[j].name != objs[k].name)
  }

  // ---------------------------------------------------------------- the writer

  datatype Temp = Temp(typ: Type, baseref: nat)

  /** The words written, the numbers given to types (in the order of `order`), and the pointers
      whose base is still to be linked. */
  datatype Writer = Writer(out: seq<word>, order: seq<nat>, temps: seq<Temp>)

  function CurStr(w: Writer): nat {
    MIN_S + |w.order|
  }

  function IndexOf(s: seq<nat>, i: nat): (k: nat)
    ensures k <= |s| && (k < |s| <==> i in s) && (k < |s| ==> s[k] == i)
  {
    if s == [] then 0 else if s[0] == i then 0 else 1 + IndexOf(s[1..], i)
  }

  /** The number of a type; 0 when it has none yet. */
  function RefOf(order: seq<nat>, t: Type): nat {
    match t
    case Std(k) => k
    case Own(i) => if i in order then MIN_S + IndexOf(order, i) else 0
  }

  function NameWords(n: seq<byte>): seq<word> {
    if n == [] then []
    else if |n| == 1 then [Join(n[0], 0)]
    else [Join(n[0], n[1])] + NameWords(n[2..])
  }

  function ParamWords(order: seq<nat>, ps: seq<Param>): seq<word> {
    if ps == [] then []
    else [if ps[0].varpar then CMP else CMP + 1, Wrap(RefOf(order, ps[0].typ))] + ParamWords(order, ps[1..])
  }

  function FieldWords(order: seq<nat>, fs: seq<Field>): seq<word> {
    if fs == [] then []
    else [CMP + 2, Wrap(RefOf(order, fs[0].typ)), fs[0].offset] + NameWords(fs[0].name) + FieldWords(order, fs[1..])
  }

  /** What is written for a structure once all its components have numbers. */
  function StructWords(order: seq<nat>, s: Struct): seq<word> {
    match s.form
    case Enum(n) => [STR, s.size, n]
    case Range(b, lo, hi) => [STR + 1, s.size, Wrap(RefOf(order, b)), lo, hi]
    case Pointer(_) => [STR + 2, s.size]
    case Set(b) => [STR + 3, s.size, Wrap(RefOf(order, b))]
    case ProcTyp(ps, r) =>
      ParamWords(order, ps)
      + (match r case None => [STR + 4, s.size] case Some(t) => [STR + 5, s.size, Wrap(RefOf(order, t))])
    case Array(e, i) => [STR + 6, s.size, Wrap(RefOf(order, e)), Wrap(RefOf(order, i))]
    case DynArray(e) => [STR + 7, s.size, Wrap(RefOf(order, e))]
    case Record(fs) => FieldWords(order, fs) + [STR + 8, s.size]
    case Opaque => [STR + 9, s.size]
  }

  /** The structure itself: its words, its number, and its base to be linked. */
  function PutStruct(g: Graph, w: Writer, i: nat): Writer
    requires i < |g|
  {
    Writer(w.out + StructWords(w.order, g[i]), w.order + [i],
           if g[i].form.Pointer? && g[i].form.to.Some? then w.temps + [Temp(g[i].form.to.value, CurStr(w))] else w.temps)
  }

  // ------------------------------------------------ numbers are given once

  predicate NoRepeats(s: seq<nat>) {
    forall j, k :: 0 <= j < k < |s| ==> s[j] != s[k]
  }

  predicate Sound(g: Graph, w: Writer) {
    && NoRepeats(w.order) && (forall k :: 0 <= k < |w.order| ==> w.order[k] < |g|)
    && (forall k :: 0 <= k < |w.temps| ==> Known(g, w.temps[k].typ))
  }

  /** What was there before stays in front, and new numbers go to types below the bound. */
  predicate Extends(rank: seq<nat>, w: Writer, x: Writer, bound: nat) {
    && w.order <= x.order && w.temps <= x.temps && w.out <= x.out
    && forall k :: |w.order| <= k < |x.order| && x.order[k] < |rank| ==> rank[x.order[k]] < bound
  }

  /** `OutStr`: first the components that have no number, then the structure. */
  function OutStr(g: Graph, rank: seq<nat>, w: Writer, i: nat): (x: Writer)
    requires WellFormed(g, rank) && i < |g| && Sound(g, w) && i !in w.order
    ensures Sound(g, x) && Extends(rank, w, x, rank[i] + 1) && i in x.order
    decreases rank[i], |Components(g[i].form)| + 1
  {
    assert WellStructured(g, rank, i, g[i].form);
    PutStruct(g, OutEach(g, rank, w, Components(g[i].form), rank[i]), i)
  }

  function OutEach(g: Graph, rank: seq<nat>, w: Writer, ts: seq<Type>, bound: nat): (x: Writer)
    requires WellFormed(g, rank) && Sound(g, w) && forall k :: 0 <= k < |ts| ==> Known(g, ts[k]) && Rank(rank, ts[k]) <= bound
    ensures Sound(g, x) && Extends(rank, w, x, bound)
    ensures forall k :: 0 <= k < |ts| ==> RefOf(x.order, ts[k]) != 0
    decreases bound, |ts|
  {
    if ts == [] then w
    else
      hide WellFormed, Sound, Extends;
      assert Known(g, ts[0]) && Rank(rank, ts[0]) <= bound;
      var w1 := if RefOf(w.order, ts[0]) == 0 then OutStr(g, rank, w, ts[0].i) else w;
      FirstExtends(g, rank, w, w1, ts[0], bound);
      var x := OutEach(g, rank, w1, ts[1..], bound);
      EachExtends(rank, w, w1, x, ts, bound);
      x
  }

  lemma {:induction false} FirstExtends(g: Graph, rank: seq<nat>, w: Writer, w1: Writer, t: Type, bound: nat)
    requires |rank| == |g| && Known(g, t) && Rank(rank, t) <= bound
    requires w1 == w || (t.Own? && Extends(rank, w, w1, rank[t.i] + 1))
    ensures Extends(rank, w, w1, bound)
  {
  }

  lemma {:induction false} EachExtends(rank: seq<nat>, w: Writer, w1: Writer, x: Writer, ts: seq<Type>, bound: nat)
    requires ts != [] && Extends(rank, w, w1, bound) && Extends(rank, w1, x, bound) && RefOf(w1.order, ts[0]) != 0
    requires forall k :: 0 <= k < |ts| - 1 ==> RefOf(x.order, ts[1..][k]) != 0
    ensures Extends(rank, w, x, bound) && forall k :: 0 <= k < |ts| ==> RefOf(x.order, ts[k]) != 0
  {
    StillIn(w1.order, x.order, ts[0]);
    assert forall k :: 0 < k < |ts| ==> ts[1..][k - 1] == ts[k];
  }

  lemma {:induction false} StillIn(a: seq<nat>, b: seq<nat>, t: Type)
    requires a <= b && RefOf(a, t) != 0
    ensures RefOf(b, t) != 0
  {
    if t.Own? {
      assert forall k :: 0 <= k < |a| ==> a[k] == b[k];
    }
  }

  /** A type gets a number, unless it has one. */
  function OutType(g: Graph, rank: seq<nat>, w: Writer, t: Type): (x: Writer)
    requires WellFormed(g, rank) && Known(g, t) && Sound(g, w)
    ensures Sound(g, x) && w.order <= x.order && w.temps <= x.temps && RefOf(x.order, t) != 0
    ensures RefOf(w.order, t) == 0 ==> |w.order| < |x.order|
    ensures RefOf(w.order, t) != 0 ==> x == w
  {
    if RefOf(w.order, t) == 0 then OutStr(g, rank, w, t.i) else w
  }

  function ObjWords(order: seq<nat>, o: Obj): seq<word> {
    match o
    case TypeObj(n, t) => [OBJ + 4, Wrap(RefOf(order, t)), 0] + NameWords(n)
    case VarObj(n, t, lev, adr) => [OBJ + 1, Wrap(RefOf(order, t)), lev, adr] + NameWords(n)
  }

  /** `OutObj` for a type or a variable. */
  function OutObj(g: Graph, rank: seq<nat>, w: Writer, o: Obj): (x: Writer)
    requires WellFormed(g, rank) && Known(g, o.typ) && Sound(g, w)
    ensures Sound(g, x) && RefOf(x.order, o.typ) != 0
  {
    var w1 := OutType(g, rank, w, o.typ);
    w1.(out := w1.out + ObjWords(w1.order, o))
  }

  function OutObjs(g: Graph, rank: seq<nat>, w: Writer, objs: seq<Obj>): (x: Writer)
    requires WellFormed(g, rank) && ObjsKnown(g, objs) && Sound(g, w)
    ensures Sound(g, x)
    decreases |objs|
  {
    if objs == [] then w
    else OutObj(g, rank, OutObjs(g, rank, w, objs[..|objs| - 1]), objs[|objs| - 1])
  }

  /** How many types have no number yet. */
  function Left(g: Graph, w: Writer): nat
    requires Sound(g, w)
  {
    AtMost(w.order, |g|);
    |g| - |w.order|
  }

  lemma {:induction false} AtMost(s: seq<nat>, n: nat)
    requires NoRepeats(s) && forall k :: 0 <= k < |s| ==> s[k] < n
    ensures |s| <= n
  {
    BelowSize(n);
    AtMostIn(s, Below(n));
  }

  lemma {:induction false} AtMostIn(s: seq<nat>, all: set<nat>)
    requires NoRepeats(s) && forall k :: 0 <= k < |s| ==> s[k] in all
    ensures |s| <= |all|
  {
    if s != [] {
      AtMostIn(s[1..], all - {s[0]});
    }
  }

  function Below(n: nat): set<nat> {
    if n == 0 then {} else Below(n - 1) + {n - 1}
  }

  lemma {:induction false} BelowSize(n: nat)
    ensures |Below(n)| == n && forall i: nat {:trigger i in Below(n)} :: i in Below(n) <==> i < n
  {
    if n > 0 {
      BelowSize(n - 1);
    }
  }

  /** The base of the k-th pointer, and where it is to be linked. */
  function LinkOut(g: Graph, rank: seq<nat>, w: Writer, k: nat): (x: Writer)
    requires WellFormed(g, rank) && Sound(g, w) && k < |w.temps|
    ensures Sound(g, x) && w.order <= x.order && w.temps <= x.temps
    ensures Left(g, x) < Left(g, w) || (Left(g, x) == Left(g, w) && x.temps == w.temps)
  {
    var t := w.temps[k];
    var w1 := OutType(g, rank, w, t.typ);
    w1.(out := w1.out + [CTL + LINKAGE, Wrap(RefOf(w1.order, t.typ)), Wrap(t.baseref)])
  }

  /** `OutLink`: the bases of all pointers written, from the k-th on. Writing a base may bring new
      pointers, which join the end of the list. */
  function OutLinks(g: Graph, rank: seq<nat>, w: Writer, k: nat): (x: Writer)
    requires WellFormed(g, rank) && Sound(g, w) && k <= |w.temps|
    ensures Sound(g, x)
    decreases Left(g, w), |w.temps| - k
  {
    if k == |w.temps| then w else OutLinks(g, rank, LinkOut(g, rank, w, k), k + 1)
  }

  /** The file of a module with these objects, from the first object to the end mark. */
  function OutUnit(g: Graph, rank: seq<nat>, objs: seq<Obj>): (w: Writer)
    requires WellFormed(g, rank) && ObjsKnown(g, objs)
    ensures Sound(g, w)
  {
    OutLinks(g, rank, OutObjs(g, rank, Writer([], [], []), objs), 0)
  }

  /** The whole file: objects and structures, the module's mark, and the mark that ends it. */
  function FileOf(g: Graph, rank: seq<nat>, objs: seq<Obj>, modno: word, adr: word, pno: word): seq<word>
    requires WellFormed(g, rank) && ObjsKnown(g, objs)
  {
    OutUnit(g, rank, objs).out + [CTL + MOD_TAG, modno, CTL + REF_TAG, adr, pno]
  }
}
