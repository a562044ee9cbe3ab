/** Type graphs survive the symbol file. */
module SymProof {
  import opened Words
  import opened Options
  import opened SymFile
  import opened SymRead

  // ---------------------------------------------------- the graph that is read

  /** What a numbered type becomes: the node with its number. */
  function Image(order: seq<nat>, t: Type): Type {
    match t case Std(_) => t case Own(i) => Own(IndexOf(order, i))
  }

  function ImageParams(order: seq<nat>, ps: seq<Param>): seq<Param> {
    if ps == [] then [] else [Param(ps[0].varpar, Image(order, ps[0].typ))] + ImageParams(order, ps[1..])
  }

  function ImageFields(order: seq<nat>, fs: seq<Field>): seq<Field> {
    if fs == [] then [] else [Field(fs[0].name, Image(order, fs[0].typ), fs[0].offset)] + ImageFields(order, fs[1..])
  }

  /** A structure with all types replaced by their images; linked says whether a pointer has its
      base already. */
  function ImageForm(order: seq<nat>, f: Form, linked: bool): Form {
    match f
    case Enum(_) => f
    case Range(b, lo, hi) => Range(Image(order, b), lo, hi)
    case Pointer(to) => Pointer(if linked && to.Some? then Some(Image(order, to.value)) else None)
    case Set(b) => Form.Set(Image(order, b))
    case ProcTyp(ps, r) => ProcTyp(ImageParams(order, ps), match r case None => None case Some(t) => Some(Image(order, t)))
    case Array(e, i) => Array(Image(order, e), Image(order, i))
    case DynArray(e) => DynArray(Image(order, e))
    case Record(fs) => Record(ImageFields(order, fs))
    case Opaque => f
  }

  function ImageStruct(order: seq<nat>, s: Struct, linked: bool): Struct {
    Struct(s.size, ImageForm(order, s.form, linked))
  }

  function ImageObj(order: seq<nat>, o: Obj): Obj {
    match o
    case TypeObj(n, t) => TypeObj(n, Image(order, t))
    case VarObj(n, t, lev, adr) => VarObj(n, Image(order, t), lev, adr)
  }

  predicate Numbered(order: seq<nat>, t: Type) {
    RefOf(order, t) != 0
  }

  // --------------------------------------------------- numbers are never changed

  lemma {:induction false} IndexStays(a: seq<nat>, b: seq<nat>, i: nat)
    requires a <= b && i in a
    ensures IndexOf(b, i) == IndexOf(a, i)
  {
    if a[0] != i {
      assert i in a[1..];
      IndexStays(a[1..], b[1..], i);
    }
  }

  lemma {:induction false} ImageStays(a: seq<nat>, b: seq<nat>, t: Type)
    requires a <= b && Numbered(a, t)
    ensures Image(b, t) == Image(a, t) && Numbered(b, t)
  {
    if t.Own? {
      IndexStays(a, b, t.i);
    }
  }

  lemma {:induction false} ParamsStay(a: seq<nat>, b: seq<nat>, ps: seq<Param>)
    requires a <= b && forall k :: 0 <= k < |ps| ==> Numbered(a, ps[k].typ)
    ensures ImageParams(b, ps) == ImageParams(a, ps)
  {
    if ps != [] {
      ImageStays(a, b, ps[0].typ);
      ParamsStay(a, b, ps[1..]);
    }
  }

  lemma {:induction false} FieldsStay(a: seq<nat>, b: seq<nat>, fs: seq<Field>)
    requires a <= b && forall k :: 0 <= k < |fs| ==> Numbered(a, fs[k].typ)
    ensures ImageFields(b, fs) == ImageFields(a, fs)
  {
    if fs != [] {
      ImageStays(a, b, fs[0].typ);
      FieldsStay(a, b, fs[1..]);
    }
  }

  /** Everything a structure refers to, except the base of a pointer, has a number. */
  predicate PartsNumbered(order: seq<nat>, f: Form) {
    forall k :: 0 <= k < |Components(f)| ==> Numbered(order, Components(f)[k])
  }

  lemma {:induction false} FormStays(a: seq<nat>, b: seq<nat>, f: Form, linked: bool)
    requires a <= b && PartsNumbered(a, f) && (f.Pointer? && f.to.Some? && linked ==> Numbered(a, f.to.value))
    ensures ImageForm(b, f, linked) == ImageForm(a, f, linked) && PartsNumbered(b, f)
  {
    hide ImageFields, ImageParams, Image, Numbered, IndexOf, ParamTypes, FieldTypes, RefOf;
    var cs := Components(f);
    forall k | 0 <= k < |cs|
      ensures Image(b, cs[k]) == Image(a, cs[k]) && Numbered(b, cs[k])
    {
      ImageStays(a, b, cs[k]);
    }
    match f
    case Enum(_) =>
    case Range(t, _, _) => assert cs[0] == t;
    case Pointer(to) =>
      if to.Some? && linked {
        ImageStays(a, b, to.value);
      }
    case Set(t) => assert cs[0] == t;
    case ProcTyp(ps, r) =>
      assert forall k :: 0 <= k < |ps| ==> ps[k].typ == cs[k];
      ParamsStay(a, b, ps);
      if r.Some? {
        assert cs[|ps|] == r.value;
      }
    case Array(e, i) => assert cs[0] == e && cs[1] == i;
    case DynArray(e) => assert cs[0] == e;
    case Record(fs) =>
      assert forall k :: 0 <= k < |fs| ==> fs[k].typ == cs[k];
      FieldsStay(a, b, fs);
    case Opaque =>
  }

  // ------------------------------------------------------ reading what is written

  /** The words lead the reader from a to b, or to an error, whatever follows them. */
  ghost predicate Takes(ws: seq<word>, a: Reader, b: Option<Reader>) {
    forall rest: seq<word> {:trigger ws + rest} :: Parse(ws + rest, a) == match b case None => None case Some(r) => Parse(rest, r)
  }

  lemma {:induction false} TakesTwice(v: seq<word>, w: seq<word>, a: Reader, b: Reader, c: Option<Reader>)
    requires Takes(v, a, Some(b)) && Takes(w, b, c)
    ensures Takes(v + w, a, c)
  {
    forall rest: seq<word>
      ensures Parse(v + w + rest, a) == match c case None => None case Some(r) => Parse(rest, r)
    {
      assert v + w + rest == v + (w + rest);
    }
  }

  lemma {:induction false} TakesNoMore(v: seq<word>, w: seq<word>, a: Reader)
    requires Takes(v, a, None)
    ensures Takes(v + w, a, None)
  {
    forall rest: seq<word>
      ensures Parse(v + w + rest, a) == None
    {
      assert v + w + rest == v + (w + rest);
    }
  }

  /** One block. */
  lemma {:induction false} TakesBlock(ws: seq<word>, a: Reader, b: Option<Reader>)
    requires ws != [] && ws[0] != CTL + REF_TAG
    requires forall rest: seq<word> {:trigger ws + rest} ::
               ReadBlock(ws + rest, a) == match b case None => None case Some(r) => Some(Block(r, rest))
    ensures Takes(ws, a, b)
  {
    forall rest: seq<word>
      ensures Parse(ws + rest, a) == match b case None => None case Some(r) => Parse(rest, r)
    {
      assert (ws + rest)[0] == ws[0];
      assert ReadBlock(ws + rest, a) == match b case None => None case Some(r) => Some(Block(r, rest));
    }
  }

  lemma {:induction false} TakesNothing(a: Reader)
    ensures Takes([], a, Some(a))
  {
    forall rest: seq<word>
      ensures Parse([] + rest, a) == Parse(rest, a)
    {
      assert [] + rest == rest;
    }
  }

  /** A number written down leads back to the type. */
  lemma {:induction false} RefRead(order: seq<nat>, r: Reader, t: Type)
    requires Numbered(order, t) && |r.structs| == |order| <= MAX_S - MIN_S + 1 && (t.Std? ==> StdNumber(t.k))
    ensures StructAt(r, Wrap(RefOf(order, t))) == Some(Image(order, t))
  {
  }

  lemma {:induction false} ParamsRead(order: seq<nat>, ps: seq<Param>, r: Reader)
    requires |r.structs| == |order| <= MAX_S - MIN_S + 1
    requires forall k :: 0 <= k < |ps| ==> Numbered(order, ps[k].typ) && (ps[k].typ.Std? ==> StdNumber(ps[k].typ.k))
    ensures Takes(ParamWords(order, ps), r, Some(r.(params := r.params + ImageParams(order, ps))))
    decreases |ps|
  {
    if ps == [] {
      TakesNothing(r);
      assert r.params + [] == r.params;
    } else {
      hide Takes, Image, RefOf, ParamWords, ImageParams;
      var first: seq<word> := [if ps[0].varpar then CMP else CMP + 1, Wrap(RefOf(order, ps[0].typ))];
      var next := ParamRead(order, ps[0], r);
      ParamsRead(order, ps[1..], next);
      ParamsUnfold(order, ps, r.params);
      TakesTwice(first, ParamWords(order, ps[1..]), r, next, Some(r.(params := r.params + ImageParams(order, ps))));
    }
  }

  lemma {:induction false} ParamsUnfold(order: seq<nat>, ps: seq<Param>, there: seq<Param>)
    requires ps != []
    ensures ParamWords(order, ps)
         == [if ps[0].varpar then CMP else CMP + 1, Wrap(RefOf(order, ps[0].typ))] + ParamWords(order, ps[1..])
    ensures there + ImageParams(order, ps) == there + [Param(ps[0].varpar, Image(order, ps[0].typ))] + ImageParams(order, ps[1..])
  {
    hide Image, RefOf;
  }

  lemma {:induction false} ParamRead(order: seq<nat>, p: Param, r: Reader) returns (next: Reader)
    requires |r.structs| == |order| <= MAX_S - MIN_S + 1
    requires Numbered(order, p.typ) && (p.typ.Std? ==> StdNumber(p.typ.k))
    ensures next == r.(params := r.params + [Param(p.varpar, Image(order, p.typ))])
    ensures Takes([if p.varpar then CMP else CMP + 1, Wrap(RefOf(order, p.typ))], r, Some(next))
  {
    next := r.(params := r.params + [Param(p.varpar, Image(order, p.typ))]);
    var ws: seq<word> := [if p.varpar then CMP else CMP + 1, Wrap(RefOf(order, p.typ))];
    RefRead(order, r, p.typ);
    forall rest: seq<word> {:trigger ws + rest}
      ensures ReadBlock(ws + rest, r) == Some(Block(next, rest))
    {
      assert (ws + rest)[2..] == rest;
    }
    TakesBlock(ws, r, Some(next));
  }

  /** The names of the fields are all different, and none is waiting already. */
  predicate NewNames(there: seq<Field>, fs: seq<Field>) {
    && Distinct(fs) && (forall k :: 0 <= k < |fs| ==> Named(fs[k].name))
    && forall j, k :: 0 <= j < |there| && 0 <= k < |fs| ==> there[j].name != fs[k].name
  }

  lemma {:induction false} NamesAfter(there: seq<Field>, fs: seq<Field>, f: Field)
    requires NewNames(there, fs) && fs != [] && f.name == fs[0].name
    ensures Named(fs[0].name) && !FieldNamed(there, fs[0].name) && NewNames(there + [f], fs[1..])
  {
  }

  lemma {:induction false} FieldsRead(order: seq<nat>, fs: seq<Field>, r: Reader)
    requires |r.structs| == |order| <= MAX_S - MIN_S + 1 && NewNames(r.fields, fs)
    requires forall k :: 0 <= k < |fs| ==> Numbered(order, fs[k].typ) && (fs[k].typ.Std? ==> StdNumber(fs[k].typ.k))
    ensures Takes(FieldWords(order, fs), r, Some(r.(fields := r.fields + ImageFields(order, fs))))
    decreases |fs|
  {
    hide Wrap, Join, NewNames, Takes, NameWords, RefOf, Image, Distinct, FieldNamed, Numbered;
    if fs == [] {
      TakesNothing(r);
      assert r.fields + [] == r.fields;
    } else {
      hide FieldWords, ImageFields;
      var f := fs[0];
      NamesAfter(r.fields, fs, Field(f.name, Image(order, f.typ), f.offset));
      var next := FieldRead(order, f, r);
      FieldsRead(order, fs[1..], next);
      FieldsUnfold(order, fs, r.fields);
      var first := [CMP + 2, Wrap(RefOf(order, f.typ)), f.offset] + NameWords(f.name);
      TakesTwice(first, FieldWords(order, fs[1..]), r, next, Some(r.(fields := r.fields + ImageFields(order, fs))));
    }
  }

  lemma {:induction false} FieldsUnfold(order: seq<nat>, fs: seq<Field>, there: seq<Field>)
    requires fs != []
    ensures FieldWords(order, fs)
         == [CMP + 2, Wrap(RefOf(order, fs[0].typ)), fs[0].offset] + NameWords(fs[0].name) + FieldWords(order, fs[1..])
    ensures there + ImageFields(order, fs)
         == there + [Field(fs[0].name, Image(order, fs[0].typ), fs[0].offset)] + ImageFields(order, fs[1..])
  {
    hide NameWords, Image, RefOf;
  }

  lemma {:induction false} FieldRead(order: seq<nat>, f: Field, r: Reader) returns (next: Reader)
    requires |r.structs| == |order| <= MAX_S - MIN_S + 1 && Named(f.name) && !FieldNamed(r.fields, f.name)
    requires Numbered(order, f.typ) && (f.typ.Std? ==> StdNumber(f.typ.k))
    ensures next == r.(fields := r.fields + [Field(f.name, Image(order, f.typ), f.offset)])
    ensures Takes([CMP + 2, Wrap(RefOf(order, f.typ)), f.offset] + NameWords(f.name), r, Some(next))
  {
    next := r.(fields := r.fields + [Field(f.name, Image(order, f.typ), f.offset)]);
    var head: seq<word> := [CMP + 2, Wrap(RefOf(order, f.typ)), f.offset];
    var ws := head + NameWords(f.name);
    RefRead(order, r, f.typ);
    forall rest: seq<word> {:trigger ws + rest}
      ensures ReadBlock(ws + rest, r) == Some(Block(next, rest))
    {
      assert (ws + rest)[3..] == NameWords(f.name) + rest;
      NameRoundTrip(f.name, rest);
    }
    TakesBlock(ws, r, Some(next));
  }

  /** All types in a structure are numbered, and its names are as they should be. */
  predicate Writable(order: seq<nat>, f: Form) {
    && PartsNumbered(order, f)
    && (forall k :: 0 <= k < |Components(f)| ==> Components(f)[k].Std? ==> StdNumber(Components(f)[k].k))
    && (f.Record? ==> NewNames([], f.fields))
  }

  /** The reader between two structures, with n of them read. */
  predicate Waiting(r: Reader, n: nat) {
    r.params == [] && r.fields == [] && |r.structs| == n <= MAX_S - MIN_S + 1
  }

  /** The reader with one more structure, as far as there are numbers. */
  function WithStruct(r: Reader, s: Struct): Option<Reader> {
    if MIN_S + |r.structs| > MAX_S then None else Some(r.(structs := r.structs + [s]))
  }

  lemma {:induction false} StructRead(order: seq<nat>, s: Struct, r: Reader)
    requires Waiting(r, |order|) && Writable(order, s.form)
    ensures Takes(StructWords(order, s), r, WithStruct(r, ImageStruct(order, s, false)))
  {
    hide Takes;
    match s.form
    case ProcTyp(ps, res) => ProcRead(order, s, ps, res, r);
    case Record(fs) => RecordRead(order, s, fs, r);
    case Enum(_) => PlainRead(order, s, r);
    case Range(_, _, _) => PlainRead(order, s, r);
    case Pointer(_) => PlainRead(order, s, r);
    case Set(_) => PlainRead(order, s, r);
    case Array(_, _) => PlainRead(order, s, r);
    case DynArray(_) => PlainRead(order, s, r);
    case Opaque => PlainRead(order, s, r);
  }

  lemma {:induction false} PlainRead(order: seq<nat>, s: Struct, r: Reader)
    requires Waiting(r, |order|) && Writable(order, s.form) && !s.form.ProcTyp? && !s.form.Record?
    ensures Takes(StructWords(order, s), r, WithStruct(r, ImageStruct(order, s, false)))
  {
    var ws, b := StructWords(order, s), WithStruct(r, ImageStruct(order, s, false));
    var cs := Components(s.form);
    forall k | 0 <= k < |cs|
      ensures StructAt(r, Wrap(RefOf(order, cs[k]))) == Some(Image(order, cs[k]))
    {
      RefRead(order, r, cs[k]);
    }
    forall rest: seq<word> {:trigger ws + rest}
      ensures ReadBlock(ws + rest, r) == match b case None => None case Some(x) => Some(Block(x, rest))
    {
      PlainBlock(order, s, r, rest);
    }
    TakesBlock(ws, r, b);
  }

  lemma {:induction false} PlainBlock(order: seq<nat>, s: Struct, r: Reader, rest: seq<word>)
    requires !s.form.ProcTyp? && !s.form.Record?
    requires forall k :: 0 <= k < |Components(s.form)| ==>
               StructAt(r, Wrap(RefOf(order, Components(s.form)[k]))) == Some(Image(order, Components(s.form)[k]))
    ensures ReadBlock(StructWords(order, s) + rest, r)
         == match WithStruct(r, ImageStruct(order, s, false)) case None => None case Some(x) => Some(Block(x, rest))
  {
    hide StructAt, Wrap, RefOf, Image;
    var ws, cs := StructWords(order, s), Components(s.form);
    assert (ws + rest)[|ws|..] == rest;
    match s.form
    case Enum(_) =>
    case Range(t, _, _) => assert cs[0] == t;
    case Pointer(_) =>
    case Set(t) => assert cs[0] == t;
    case Array(e, i) => assert cs[0] == e && cs[1] == i;
    case DynArray(e) => assert cs[0] == e;
    case Opaque =>
  }

  lemma {:induction false} ProcRead(order: seq<nat>, s: Struct, ps: seq<Param>, res: Option<Type>, r: Reader)
    requires Waiting(r, |order|) && Writable(order, s.form) && s.form == ProcTyp(ps, res)
    ensures Takes(StructWords(order, s), r, WithStruct(r, ImageStruct(order, s, false)))
  {
    var cs, b := Components(s.form), WithStruct(r, ImageStruct(order, s, false));
    assert forall k :: 0 <= k < |ps| ==> ps[k].typ == cs[k];
    ParamsRead(order, ps, r);
    var mid := r.(params := r.params + ImageParams(order, ps));
    assert mid.params == ImageParams(order, ps);
    var ws: seq<word> := match res case None => [STR + 4, s.size] case Some(t) => [STR + 5, s.size, Wrap(RefOf(order, t))];
    if res.Some? {
      assert cs[|ps|] == res.value;
      RefRead(order, mid, res.value);
    }
    forall rest: seq<word> {:trigger ws + rest}
      ensures ReadBlock(ws + rest, mid) == match b case None => None case Some(x) => Some(Block(x, rest))
    {
      assert (ws + rest)[|ws|..] == rest;
    }
    TakesBlock(ws, mid, b);
    TakesTwice(ParamWords(order, ps), ws, r, mid, b);
  }

  lemma {:induction false} RecordRead(order: seq<nat>, s: Struct, fs: seq<Field>, r: Reader)
    requires Waiting(r, |order|) && Writable(order, s.form) && s.form == Record(fs)
    ensures Takes(StructWords(order, s), r, WithStruct(r, ImageStruct(order, s, false)))
  {
    var cs, b := Components(s.form), WithStruct(r, ImageStruct(order, s, false));
    assert forall k :: 0 <= k < |fs| ==> fs[k].typ == cs[k];
    FieldsRead(order, fs, r);
    var mid := r.(fields := r.fields + ImageFields(order, fs));
    assert mid.fields == ImageFields(order, fs);
    var ws: seq<word> := [STR + 8, s.size];
    forall rest: seq<word> {:trigger ws + rest}
      ensures ReadBlock(ws + rest, mid) == match b case None => None case Some(x) => Some(Block(x, rest))
    {
      assert (ws + rest)[|ws|..] == rest;
    }
    TakesBlock(ws, mid, b);
    TakesTwice(FieldWords(order, fs), ws, r, mid, b);
  }

  // ------------------------------------------------------- writer and reader in step

  /** The j-th structure is a pointer whose base is among the first k to be linked. */
  predicate Linked(temps: seq<Temp>, k: nat, j: nat) {
    exists m :: 0 <= m < k <= |temps| && temps[m].baseref == MIN_S + j
  }

  /** The list entry belongs to a pointer that has been written, and names its base. */
  predicate BaseOf(g: Graph, order: seq<nat>, t: Temp) {
    && MIN_S <= t.baseref < MIN_S + |order| && order[t.baseref - MIN_S] < |g|
    && g[order[t.baseref - MIN_S]].form == Pointer(Some(t.typ))
  }

  predicate PointerAt(g: Graph, order: seq<nat>, j: nat) {
    j < |order| && order[j] < |g| && g[order[j]].form.Pointer?
  }

  /** Every pointer written waits in the list with its base, and nothing else does. */
  predicate Pending(g: Graph, w: Writer) {
    && (forall m :: 0 <= m < |w.temps| ==> BaseOf(g, w.order, w.temps[m]))
    && (forall j :: 0 <= j < |w.order| ==> PointerAt(g, w.order, j) ==> Linked(w.temps, |w.temps|, j))
  }

  /** What the reader has of the j-th structure when the first k bases are linked. */
  function Copy(g: Graph, w: Writer, k: nat, j: nat): Struct
    requires Sound(g, w) && j < |w.order|
  {
    ImageStruct(w.order, g[w.order[j]], Linked(w.temps, k, j))
  }

  /** The types a structure needs are numbered, the bases of linked pointers included. */
  predicate Settled(g: Graph, w: Writer, k: nat)
    requires Sound(g, w)
  {
    && (forall j :: 0 <= j < |w.order| ==> PartsNumbered(w.order, g[w.order[j]].form))
    && (forall m :: 0 <= m < k <= |w.temps| ==> Numbered(w.order, w.temps[m].typ))
  }

  predicate Mirrors(g: Graph, w: Writer, k: nat, r: Reader)
    requires Sound(g, w)
  {
    Waiting(r, |w.order|) && r.marks == [] && forall j :: 0 <= j < |w.order| ==> r.structs[j] == Copy(g, w, k, j)
  }

  /** The reader's state r after the words written so far: it mirrors the writer, or has run out of
      numbers. */
  ghost predicate InStep(g: Graph, w: Writer, k: nat, r: Option<Reader>) {
    && Sound(g, w) && Pending(g, w) && Settled(g, w, k) && Takes(w.out, START, r)
    && (match r
        case Some(x) => Mirrors(g, w, k, x)
        case None => MIN_S + |w.order| > MAX_S + 1)
  }

  lemma {:induction false} LinkedStays(g: Graph, w: Writer, x: Writer, k: nat, j: nat)
    requires k <= |w.temps| && w.temps <= x.temps
    ensures Linked(x.temps, k, j) == Linked(w.temps, k, j)
  {
    if Linked(x.temps, k, j) {
      var m :| 0 <= m < k && x.temps[m].baseref == MIN_S + j;
      assert w.temps[m] == x.temps[m];
    }
    if Linked(w.temps, k, j) {
      var m :| 0 <= m < k && w.temps[m].baseref == MIN_S + j;
      assert w.temps[m] == x.temps[m];
    }
  }

  /** What the reader has does not change when more types get numbers. */
  lemma {:induction false} CopyStays(g: Graph, w: Writer, x: Writer, k: nat, j: nat)
    requires Sound(g, w) && Sound(g, x) && Pending(g, w) && Settled(g, w, k) && k <= |w.temps| && j < |w.order|
    requires w.order <= x.order && w.temps <= x.temps
    ensures Copy(g, x, k, j) == Copy(g, w, k, j) && PartsNumbered(x.order, g[w.order[j]].form)
  {
    hide ImageForm, PartsNumbered, Image, RefOf;
    LinkedStays(g, w, x, k, j);
    var f := g[w.order[j]].form;
    if Linked(w.temps, k, j) {
      var m :| 0 <= m < k && w.temps[m].baseref == MIN_S + j;
      assert BaseOf(g, w.order, w.temps[m]);
    }
    FormStays(w.order, x.order, f, Linked(w.temps, k, j));
  }

  /** A structure written and read. */
  lemma {:induction false} PutInStep(g: Graph, rank: seq<nat>, w: Writer, i: nat, k: nat, r: Option<Reader>) returns (q: Option<Reader>)
    requires WellFormed(g, rank) && i < |g| && InStep(g, w, k, r) && k <= |w.temps| && i !in w.order
    requires PartsNumbered(w.order, g[i].form)
    ensures InStep(g, PutStruct(g, w, i), k, q) && (r.Some? && q.Some? ==> q.value.objs == r.value.objs) && (r == None ==> q == None)
  {
    hide Takes, PartsNumbered, ImageForm, StructWords;
    var x := PutStruct(g, w, i);
    assert WellStructured(g, rank, i, g[i].form);
    PutPending(g, w, i);
    PutSettled(g, w, i, k);
    if r == None {
      q := None;
      TakesNoMore(w.out, StructWords(w.order, g[i]), START);
    } else {
      q := WithStruct(r.value, ImageStruct(w.order, g[i], false));
      WritableForm(g, rank, w.order, i);
      StructRead(w.order, g[i], r.value);
      TakesTwice(w.out, StructWords(w.order, g[i]), START, r.value, q);
      if q.Some? {
        PutMirrors(g, w, i, k, r.value, q.value);
      }
    }
  }

  lemma {:induction false} WritableForm(g: Graph, rank: seq<nat>, order: seq<nat>, i: nat)
    requires WellFormed(g, rank) && i < |g| && PartsNumbered(order, g[i].form)
    ensures Writable(order, g[i].form)
  {
    var f := g[i].form;
    assert WellStructured(g, rank, i, f);
    forall k | 0 <= k < |Components(f)| && Components(f)[k].Std?
      ensures StdNumber(Components(f)[k].k)
    {
      assert Components(f)[k] in Components(f);
    }
  }

  lemma {:induction false} PutSound(g: Graph, w: Writer, i: nat)
    requires Sound(g, w) && i < |g| && i !in w.order && (g[i].form.Pointer? && g[i].form.to.Some? ==> Known(g, g[i].form.to.value))
    ensures Sound(g, PutStruct(g, w, i))
  {
    hide Known, StructWords;
  }

  lemma {:induction false} PutPending(g: Graph, w: Writer, i: nat)
    requires Sound(g, w) && Pending(g, w) && i < |g| && i !in w.order && (g[i].form.Pointer? ==> g[i].form.to.Some?)
    requires g[i].form.Pointer? ==> Known(g, g[i].form.to.value)
    ensures Sound(g, PutStruct(g, w, i)) && Pending(g, PutStruct(g, w, i))
  {
    PutSound(g, w, i);
    hide Sound, Known, StructWords;
    var x := PutStruct(g, w, i);
    forall m | 0 <= m < |x.temps|
      ensures BaseOf(g, x.order, x.temps[m])
    {
      if m < |w.temps| {
        assert BaseOf(g, w.order, w.temps[m]);
      }
    }
    forall j | 0 <= j < |x.order| && PointerAt(g, x.order, j)
      ensures Linked(x.temps, |x.temps|, j)
    {
      if j < |w.order| {
        assert PointerAt(g, w.order, j);
        var m :| 0 <= m < |w.temps| && w.temps[m].baseref == MIN_S + j;
        assert x.temps[m].baseref == MIN_S + j;
      } else {
        assert x.temps[|w.temps|].baseref == MIN_S + j;
      }
    }
  }

  lemma {:induction false} PutSettled(g: Graph, w: Writer, i: nat, k: nat)
    requires Sound(g, w) && Pending(g, w) && Settled(g, w, k) && k <= |w.temps| && i < |g| && i !in w.order
    requires PartsNumbered(w.order, g[i].form) && Sound(g, PutStruct(g, w, i))
    ensures Settled(g, PutStruct(g, w, i), k)
  {
    hide PartsNumbered, ImageForm;
    var x := PutStruct(g, w, i);
    forall j | 0 <= j < |x.order|
      ensures PartsNumbered(x.order, g[x.order[j]].form)
    {
      FormStays(w.order, x.order, g[x.order[j]].form, false);
    }
    forall m | 0 <= m < k
      ensures Numbered(x.order, x.temps[m].typ)
    {
      ImageStays(w.order, x.order, w.temps[m].typ);
    }
  }

  lemma {:induction false} PutMirrors(g: Graph, w: Writer, i: nat, k: nat, r: Reader, q: Reader)
    requires Sound(g, w) && Pending(g, w) && Settled(g, w, k) && k <= |w.temps| && i < |g| && Sound(g, PutStruct(g, w, i))
    requires Mirrors(g, w, k, r) && WithStruct(r, ImageStruct(w.order, g[i], false)) == Some(q) && PartsNumbered(w.order, g[i].form)
    ensures Mirrors(g, PutStruct(g, w, i), k, q)
  {
    hide PartsNumbered, ImageForm, Settled;
    var x := PutStruct(g, w, i);
    forall j | 0 <= j < |x.order|
      ensures q.structs[j] == Copy(g, x, k, j)
    {
      if j < |w.order| {
        CopyStays(g, w, x, k, j);
      } else {
        LinkedStays(g, w, x, k, j);
        assert !Linked(w.temps, k, j);
        FormStays(w.order, x.order, g[i].form, false);
      }
    }
  }

  /** The same objects as before, unless the reader has run out of numbers. */
  predicate SameObjs(a: Option<Reader>, b: Option<Reader>) {
    b.Some? ==> a.Some? && a.value.objs == b.value.objs
  }

  lemma {:induction false} StrInStep(g: Graph, rank: seq<nat>, w: Writer, i: nat, k: nat, r: Option<Reader>) returns (q: Option<Reader>)
    requires WellFormed(g, rank) && i < |g| && i !in w.order && InStep(g, w, k, r) && k <= |w.temps|
    ensures InStep(g, OutStr(g, rank, w, i), k, q) && SameObjs(r, q)
    decreases rank[i], |Components(g[i].form)| + 1
  {
    hide InStep, PartsNumbered;
    InStepSound(g, w, k, r);
    assert WellStructured(g, rank, i, g[i].form);
    var cs := Components(g[i].form);
    var x := OutEach(g, rank, w, cs, rank[i]);
    var p := EachInStep(g, rank, w, cs, rank[i], k, r);
    NumberedNow(x.order, g[i].form);
    NotYet(rank, w, x, i);
    q := PutInStep(g, rank, x, i, k, p);
  }

  lemma {:induction false} InStepSound(g: Graph, w: Writer, k: nat, r: Option<Reader>)
    requires InStep(g, w, k, r)
    ensures Sound(g, w)
  {
  }

  lemma {:induction false} NumberedNow(order: seq<nat>, f: Form)
    requires forall k :: 0 <= k < |Components(f)| ==> RefOf(order, Components(f)[k]) != 0
    ensures PartsNumbered(order, f)
  {
  }

  lemma {:induction false} NotYet(rank: seq<nat>, w: Writer, x: Writer, i: nat)
    requires i < |rank| && i !in w.order && Extends(rank, w, x, rank[i])
    ensures i !in x.order
  {
  }

  lemma {:induction false} EachInStep(g: Graph, rank: seq<nat>, w: Writer, ts: seq<Type>, bound: nat, k: nat, r: Option<Reader>)
    returns (q: Option<Reader>)
    requires WellFormed(g, rank) && Sound(g, w) && forall m :: 0 <= m < |ts| ==> Known(g, ts[m]) && Rank(rank, ts[m]) <= bound
    requires InStep(g, w, k, r) && k <= |w.temps|
    ensures InStep(g, OutEach(g, rank, w, ts, bound), k, q) && SameObjs(r, q)
    decreases bound, |ts|
  {
    hide InStep, Sound, Extends;
    if ts == [] {
      q := r;
    } else {
      assert Known(g, ts[0]) && Rank(rank, ts[0]) <= bound;
      var w1, p := w, r;
      if RefOf(w.order, ts[0]) == 0 {
        p := StrInStep(g, rank, w, ts[0].i, k, r);
        w1 := OutStr(g, rank, w, ts[0].i);
        TempsGrow(rank, w, w1, rank[ts[0].i] + 1);
      }
      q := EachInStep(g, rank, w1, ts[1..], bound, k, p);
    }
  }

  lemma {:induction false} TempsGrow(rank: seq<nat>, w: Writer, x: Writer, bound: nat)
    requires Extends(rank, w, x, bound)
    ensures |w.temps| <= |x.temps|
  {
  }

  lemma {:induction false} TypeInStep(g: Graph, rank: seq<nat>, w: Writer, t: Type, k: nat, r: Option<Reader>) returns (q: Option<Reader>)
    requires WellFormed(g, rank) && Sound(g, w) && Known(g, t) && InStep(g, w, k, r) && k <= |w.temps|
    ensures InStep(g, OutType(g, rank, w, t), k, q) && SameObjs(r, q)
  {
    hide InStep, Sound;
    q := r;
    if RefOf(w.order, t) == 0 {
      q := StrInStep(g, rank, w, t.i, k, r);
    }
  }

  // ------------------------------------------------------------------ objects

  function ImageObjs(order: seq<nat>, os: seq<Obj>): (r: seq<Obj>)
    ensures |r| == |os| && forall k :: 0 <= k < |os| ==> r[k] == ImageObj(order, os[k])
  {
    seq(|os|, k requires 0 <= k < |os| => ImageObj(order, os[k]))
  }

  predicate ObjsNumbered(order: seq<nat>, os: seq<Obj>) {
    forall k :: 0 <= k < |os| ==> Numbered(order, os[k].typ)
  }

  lemma {:induction false} ObjsStay(a: seq<nat>, b: seq<nat>, os: seq<Obj>)
    requires a <= b && ObjsNumbered(a, os)
    ensures ImageObjs(b, os) == ImageObjs(a, os) && ObjsNumbered(b, os)
  {
    forall k | 0 <= k < |os|
      ensures ImageObj(b, os[k]) == ImageObj(a, os[k]) && Numbered(b, os[k].typ)
    {
      ImageStays(a, b, os[k].typ);
    }
  }

  /** One object written and read. */
  lemma {:induction false} ObjRead(order: seq<nat>, o: Obj, r: Reader) returns (q: Reader)
    requires Waiting(r, |order|) && Numbered(order, o.typ) && (o.typ.Std? ==> StdNumber(o.typ.k)) && Named(o.name)
    requires !ObjNamed(r.objs, o.name)
    ensures q == r.(objs := r.objs + [ImageObj(order, o)]) && Takes(ObjWords(order, o), r, Some(q))
  {
    q := r.(objs := r.objs + [ImageObj(order, o)]);
    var ws := ObjWords(order, o);
    RefRead(order, r, o.typ);
    forall rest: seq<word> {:trigger ws + rest}
      ensures ReadBlock(ws + rest, r) == Some(Block(q, rest))
    {
      NameRoundTrip(o.name, rest);
      if o.TypeObj? {
        assert (ws + rest)[3..] == NameWords(o.name) + rest;
      } else {
        assert (ws + rest)[4..] == NameWords(o.name) + rest;
      }
    }
    TakesBlock(ws, r, Some(q));
  }

  /** The objects read so far are the images of the objects written so far. */
  predicate HasObjs(w: Writer, r: Option<Reader>, os: seq<Obj>) {
    ObjsNumbered(w.order, os) && (r.Some? ==> r.value.objs == ImageObjs(w.order, os))
  }

  lemma {:induction false} ObjInStep(g: Graph, rank: seq<nat>, w: Writer, os: seq<Obj>, o: Obj, r: Option<Reader>) returns (q: Option<Reader>)
    requires WellFormed(g, rank) && Sound(g, w) && Known(g, o.typ) && InStep(g, w, 0, r) && HasObjs(w, r, os) && Named(o.name)
    requires forall j :: 0 <= j < |os| ==> os[j].name != o.name
    ensures InStep(g, OutObj(g, rank, w, o), 0, q) && HasObjs(OutObj(g, rank, w, o), q, os + [o])
  {
    hide Takes, Mirrors, Pending, Settled;
    var x := OutType(g, rank, w, o.typ);
    var p := TypeInStep(g, rank, w, o.typ, 0, r);
    ObjsStay(w.order, x.order, os);
    var ws := ObjWords(x.order, o);
    if p == None {
      q := None;
      TakesNoMore(x.out, ws, START);
    } else {
      MirrorsWaits(g, x, 0, p.value);
      assert !ObjNamed(p.value.objs, o.name);
      var b := ObjRead(x.order, o, p.value);
      q := Some(b);
      TakesTwice(x.out, ws, START, p.value, q);
      assert ImageObjs(x.order, os + [o]) == ImageObjs(x.order, os) + [ImageObj(x.order, o)];
    }
    OutOnly(g, x, x.(out := x.out + ws), 0, p, q);
  }

  lemma {:induction false} MirrorsWaits(g: Graph, w: Writer, k: nat, r: Reader)
    requires Sound(g, w) && Mirrors(g, w, k, r)
    ensures Waiting(r, |w.order|)
  {
  }

  /** Words that change neither numbers nor structures. */
  lemma {:induction false} OutOnly(g: Graph, w: Writer, x: Writer, k: nat, r: Option<Reader>, q: Option<Reader>)
    requires InStep(g, w, k, r) && x == w.(out := x.out) && Takes(x.out, START, q)
    requires match q case None => r == None case Some(b) => r.Some? && b == r.value.(objs := b.objs)
    ensures InStep(g, x, k, q)
  {
    hide Takes, PartsNumbered;
    if q.Some? {
      forall j | 0 <= j < |x.order|
        ensures q.value.structs[j] == Copy(g, x, k, j)
      {
        assert r.value.structs[j] == Copy(g, w, k, j);
      }
    }
  }

  lemma {:induction false} NothingInStep(g: Graph)
    ensures var w := Writer([], [], []); InStep(g, w, 0, Some(START)) && HasObjs(w, Some(START), [])
  {
    TakesNothing(START);
  }

  lemma {:induction false} ObjsUnfold(g: Graph, rank: seq<nat>, w: Writer, objs: seq<Obj>)
    requires WellFormed(g, rank) && ObjsKnown(g, objs) && Sound(g, w) && objs != []
    ensures ObjsKnown(g, objs[..|objs| - 1]) && Known(g, objs[|objs| - 1].typ) && Named(objs[|objs| - 1].name)
    ensures forall j :: 0 <= j < |objs| - 1 ==> objs[j].name != objs[|objs| - 1].name
    ensures OutObjs(g, rank, w, objs) == OutObj(g, rank, OutObjs(g, rank, w, objs[..|objs| - 1]), objs[|objs| - 1])
  {
  }

  lemma {:induction false} StartSound(g: Graph, rank: seq<nat>, objs: seq<Obj>)
    requires WellFormed(g, rank)
    ensures Sound(g, Writer([], [], [])) && (objs == [] ==> OutObjs(g, rank, Writer([], [], []), objs) == Writer([], [], []))
  {
    hide WellFormed;
  }

  lemma {:induction false} ObjsInStep(g: Graph, rank: seq<nat>, objs: seq<Obj>) returns (q: Option<Reader>)
    requires WellFormed(g, rank) && ObjsKnown(g, objs)
    ensures var w := OutObjs(g, rank, Writer([], [], []), objs); InStep(g, w, 0, q) && HasObjs(w, q, objs)
    decreases |objs|
  {
    hide *;
    var start := Writer([], [], []);
    StartSound(g, rank, objs);
    if objs == [] {
      q := Some(START);
      NothingInStep(g);
    } else {
      var init, o := objs[..|objs| - 1], objs[|objs| - 1];
      ObjsUnfold(g, rank, start, objs);
      assert init + [o] == objs;
      assert forall j :: 0 <= j < |init| ==> init[j] == objs[j];
      var r := ObjsInStep(g, rank, init);
      q := ObjInStep(g, rank, OutObjs(g, rank, start, init), init, o, r);
    }
  }

  // ----------------------------------------------------------- pointer bases

  /** The base of the k-th pointer read. */
  lemma {:induction false} LinkRead(g: Graph, w: Writer, k: nat, r: Reader) returns (q: Reader)
    requires Sound(g, w) && Pending(g, w) && Settled(g, w, k) && k < |w.temps| && Mirrors(g, w, k, r)
    requires Numbered(w.order, w.temps[k].typ)
    ensures Mirrors(g, w, k + 1, q) && q.objs == r.objs
    ensures Takes([CTL + LINKAGE, Wrap(RefOf(w.order, w.temps[k].typ)), Wrap(w.temps[k].baseref)], r, Some(q))
  {
    var t := w.temps[k];
    var j := t.baseref - MIN_S;
    var ws: seq<word> := [CTL + LINKAGE, Wrap(RefOf(w.order, t.typ)), Wrap(t.baseref)];
    assert BaseOf(g, w.order, t);
    assert r.structs[j] == Copy(g, w, k, j);
    q := Link(r, j, Image(w.order, t.typ)).value;
    assert Known(g, t.typ);
    RefRead(w.order, r, t.typ);
    forall rest: seq<word> {:trigger ws + rest}
      ensures ReadBlock(ws + rest, r) == Some(Block(q, rest))
    {
      assert (ws + rest)[3..] == rest;
    }
    TakesBlock(ws, r, Some(q));
    LinkMirrors(g, w, k, r, q, j);
  }

  lemma {:induction false} LinkMirrors(g: Graph, w: Writer, k: nat, r: Reader, q: Reader, j: nat)
    requires Sound(g, w) && Pending(g, w) && k < |w.temps| && Mirrors(g, w, k, r)
    requires BaseOf(g, w.order, w.temps[k]) && w.temps[k].baseref == MIN_S + j
    requires Link(r, j, Image(w.order, w.temps[k].typ)) == Some(q)
    ensures Mirrors(g, w, k + 1, q)
  {
    hide Image;
    forall i | 0 <= i < |w.order|
      ensures q.structs[i] == Copy(g, w, k + 1, i)
    {
      LinkedNext(w.temps, k, i);
      assert r.structs[i] == Copy(g, w, k, i);
      if i != j {
        assert q.structs[i] == r.structs[i];
      }
    }
  }

  lemma {:induction false} LinkedNext(temps: seq<Temp>, k: nat, j: nat)
    requires k < |temps|
    ensures Linked(temps, k + 1, j) <==> Linked(temps, k, j) || temps[k].baseref == MIN_S + j
  {
    if temps[k].baseref == MIN_S + j {
      assert 0 <= k < k + 1;
    }
    if Linked(temps, k, j) {
      var m :| 0 <= m < k && temps[m].baseref == MIN_S + j;
      assert 0 <= m < k + 1;
    }
  }

  /** The k-th base written and read. */
  lemma {:induction false} LinkInStep(g: Graph, rank: seq<nat>, w: Writer, k: nat, r: Option<Reader>) returns (q: Option<Reader>)
    requires WellFormed(g, rank) && InStep(g, w, k, r) && k < |w.temps|
    ensures InStep(g, LinkOut(g, rank, w, k), k + 1, q) && SameObjs(r, q)
  {
    hide Takes, Mirrors, Pending, PartsNumbered, Wrap, Linked, OutType, RefOf, WellFormed, OutEach;
    var t := w.temps[k];
    var x := OutType(g, rank, w, t.typ);
    var p := TypeInStep(g, rank, w, t.typ, k, r);
    assert x.temps[k] == t;
    var ws: seq<word> := [CTL + LINKAGE, Wrap(RefOf(x.order, t.typ)), Wrap(t.baseref)];
    var y := x.(out := x.out + ws);
    PendingOut(g, x, y);
    if p == None {
      q := None;
      TakesNoMore(x.out, ws, START);
    } else {
      var b := LinkRead(g, x, k, p.value);
      q := Some(b);
      TakesTwice(x.out, ws, START, p.value, q);
      MirrorsOut(g, x, y, k + 1, b);
    }
  }

  lemma {:induction false} PendingOut(g: Graph, x: Writer, y: Writer)
    requires Pending(g, x) && y == x.(out := y.out)
    ensures Pending(g, y)
  {
  }

  lemma {:induction false} MirrorsOut(g: Graph, x: Writer, y: Writer, k: nat, r: Reader)
    requires Sound(g, x) && Sound(g, y) && Mirrors(g, x, k, r) && y == x.(out := y.out)
    ensures Mirrors(g, y, k, r)
  {
    forall j | 0 <= j < |y.order|
      ensures r.structs[j] == Copy(g, y, k, j)
    {
      assert r.structs[j] == Copy(g, x, k, j);
    }
  }

  lemma {:induction false} LinksInStep(g: Graph, rank: seq<nat>, w: Writer, k: nat, os: seq<Obj>, r: Option<Reader>)
    returns (q: Option<Reader>)
    requires WellFormed(g, rank) && Sound(g, w) && k <= |w.temps| && InStep(g, w, k, r) && HasObjs(w, r, os)
    ensures var x := OutLinks(g, rank, w, k); InStep(g, x, |x.temps|, q) && HasObjs(x, q, os)
    decreases Left(g, w), |w.temps| - k
  {
    hide InStep, HasObjs, Sound;
    if k == |w.temps| {
      q := r;
    } else {
      var p := LinkInStep(g, rank, w, k, r);
      var y := LinkOut(g, rank, w, k);
      ObjsKept(w, y, r, p, os);
      q := LinksInStep(g, rank, y, k + 1, os, p);
    }
  }

  lemma {:induction false} ObjsKept(w: Writer, x: Writer, r: Option<Reader>, q: Option<Reader>, os: seq<Obj>)
    requires HasObjs(w, r, os) && w.order <= x.order && SameObjs(r, q)
    ensures HasObjs(x, q, os)
  {
    ObjsStay(w.order, x.order, os);
  }

  // ------------------------------------------------------------- the round trip

  /** Graph h with objects os is graph g with objects objs, cut down to the types in `order` and
      renumbered: order is one-to-one, every type referred to is in it, pointers' bases included,
      and h says of every node what g says. */
  predicate Isomorphic(g: Graph, objs: seq<Obj>, order: seq<nat>, h: Graph, os: seq<Obj>) {
    && NoRepeats(order) && (forall j :: 0 <= j < |order| ==> order[j] < |g|)
    && |h| == |order| && |os| == |objs|
    && (forall j :: 0 <= j < |order| ==>
          AllNumbered(order, g[order[j]].form) && h[j] == ImageStruct(order, g[order[j]], true))
    && (forall k :: 0 <= k < |objs| ==> Numbered(order, objs[k].typ) && os[k] == ImageObj(order, objs[k]))
  }

  predicate AllNumbered(order: seq<nat>, f: Form) {
    PartsNumbered(order, f) && (f.Pointer? && f.to.Some? ==> Numbered(order, f.to.value))
  }

  /** Reading what was written yields an isomorphic type graph and the same objects, if and only if
      the structures do not run out of numbers; otherwise the reader reports an error. */
  lemma {:induction false} RoundTrip(g: Graph, rank: seq<nat>, objs: seq<Obj>, modno: word, adr: word, pno: word)
    requires WellFormed(g, rank) && ObjsKnown(g, objs)
    ensures var order := OutUnit(g, rank, objs).order;
            var o := Parse(FileOf(g, rank, objs, modno, adr, pno), START);
            && (o.Some? <==> |order| <= MAX_S - MIN_S + 1)
            && (o.Some? ==> Isomorphic(g, objs, order, o.value.r.structs, o.value.r.objs)
                            && o.value.adr == adr && o.value.pno == pno && o.value.r.marks == [modno])
  {
    hide Takes, Mirrors, Pending, Settled, PartsNumbered, Parse, OutStr;
    var w := OutUnit(g, rank, objs);
    var r := ObjsInStep(g, rank, objs);
    var q := LinksInStep(g, rank, OutObjs(g, rank, Writer([], [], []), objs), 0, objs, r);
    EndRead(w.out, modno, adr, pno, q);
    if q.Some? {
      AllLinked(g, w, objs, q.value);
    }
  }

  lemma {:induction false} EndRead(out: seq<word>, modno: word, adr: word, pno: word, q: Option<Reader>)
    requires Takes(out, START, q)
    ensures Parse(out + [CTL + MOD_TAG, modno, CTL + REF_TAG, adr, pno], START)
         == match q case None => None case Some(r) => Some(Unit(r.(marks := r.marks + [modno]), adr, pno))
  {
    var end := [CTL + MOD_TAG, modno, CTL + REF_TAG, adr, pno];
    assert Parse(out + end, START) == match q case None => None case Some(r) => Parse(end, r);
    if q.Some? {
      var tail := [CTL + REF_TAG, adr, pno];
      assert end[2..] == tail;
      var r := q.value.(marks := q.value.marks + [modno]);
      assert Parse(tail, r) == Some(Unit(r, adr, pno));
      assert ReadBlock(end, q.value) == Some(Block(r, tail));
    }
  }

  /** Once all bases are linked, the reader has the image of the whole graph. */
  lemma {:induction false} AllLinked(g: Graph, w: Writer, objs: seq<Obj>, r: Reader)
    requires InStep(g, w, |w.temps|, Some(r)) && HasObjs(w, Some(r), objs)
    ensures Isomorphic(g, objs, w.order, r.structs, r.objs) && |w.order| <= MAX_S - MIN_S + 1 && r.marks == []
  {
    hide Takes, PartsNumbered, Image;
    forall j | 0 <= j < |w.order|
      ensures AllNumbered(w.order, g[w.order[j]].form) && r.structs[j] == ImageStruct(w.order, g[w.order[j]], true)
    {
      var f := g[w.order[j]].form;
      assert r.structs[j] == Copy(g, w, |w.temps|, j);
      if f.Pointer? {
        assert PointerAt(g, w.order, j);
        var m :| 0 <= m < |w.temps| && w.temps[m].baseref == MIN_S + j;
        assert BaseOf(g, w.order, w.temps[m]);
      }
    }
  }

  // ------------------------------------------------- only what is needed is written

  predicate Inside(s: set<nat>, t: Type) {
    t.Own? ==> t.i in s
  }

  /** With a type, all types it refers to are in the set. */
  predicate Closed(g: Graph, s: set<nat>) {
    forall i :: i in s && i < |g| ==>
      && (forall k :: 0 <= k < |Components(g[i].form)| ==> Inside(s, Components(g[i].form)[k]))
      && (g[i].form.Pointer? && g[i].form.to.Some? ==> Inside(s, g[i].form.to.value))
  }

  predicate StaysInside(s: set<nat>, w: Writer) {
    && (forall k :: 0 <= k < |w.order| ==> w.order[k] in s)
    && (forall m :: 0 <= m < |w.temps| ==> Inside(s, w.temps[m].typ))
  }

  lemma {:induction false} StrInside(g: Graph, rank: seq<nat>, w: Writer, i: nat, s: set<nat>)
    requires WellFormed(g, rank) && i < |g| && i !in w.order && Sound(g, w) && Closed(g, s) && StaysInside(s, w) && i in s
    ensures StaysInside(s, OutStr(g, rank, w, i))
    decreases rank[i], |Components(g[i].form)| + 1
  {
    assert WellStructured(g, rank, i, g[i].form);
    EachInside(g, rank, w, Components(g[i].form), rank[i], s);
  }

  lemma {:induction false} EachInside(g: Graph, rank: seq<nat>, w: Writer, ts: seq<Type>, bound: nat, s: set<nat>)
    requires WellFormed(g, rank) && Sound(g, w) && forall k :: 0 <= k < |ts| ==> Known(g, ts[k]) && Rank(rank, ts[k]) <= bound
    requires Closed(g, s) && StaysInside(s, w) && forall k :: 0 <= k < |ts| ==> Inside(s, ts[k])
    ensures StaysInside(s, OutEach(g, rank, w, ts, bound))
    decreases bound, |ts|
  {
    hide Closed, StaysInside;
    if ts != [] {
      assert Known(g, ts[0]) && Rank(rank, ts[0]) <= bound && Inside(s, ts[0]);
      var w1 := w;
      if RefOf(w.order, ts[0]) == 0 {
        StrInside(g, rank, w, ts[0].i, s);
        w1 := OutStr(g, rank, w, ts[0].i);
      }
      EachInside(g, rank, w1, ts[1..], bound, s);
    }
  }

  lemma {:induction false} ObjsInside(g: Graph, rank: seq<nat>, w: Writer, objs: seq<Obj>, s: set<nat>)
    requires WellFormed(g, rank) && ObjsKnown(g, objs) && Sound(g, w) && Closed(g, s) && StaysInside(s, w)
    requires forall k :: 0 <= k < |objs| ==> Inside(s, objs[k].typ)
    ensures StaysInside(s, OutObjs(g, rank, w, objs))
    decreases |objs|
  {
    if objs != [] {
      var init, o := objs[..|objs| - 1], objs[|objs| - 1];
      ObjsInside(g, rank, w, init, s);
      var x := OutObjs(g, rank, w, init);
      if RefOf(x.order, o.typ) == 0 {
        StrInside(g, rank, x, o.typ.i, s);
      }
    }
  }

  lemma {:induction false} LinksInside(g: Graph, rank: seq<nat>, w: Writer, k: nat, s: set<nat>)
    requires WellFormed(g, rank) && Sound(g, w) && k <= |w.temps| && Closed(g, s) && StaysInside(s, w)
    ensures StaysInside(s, OutLinks(g, rank, w, k))
    decreases Left(g, w), |w.temps| - k
  {
    if k < |w.temps| {
      var t := w.temps[k];
      if RefOf(w.order, t.typ) == 0 {
        StrInside(g, rank, w, t.typ.i, s);
      }
      LinksInside(g, rank, LinkOut(g, rank, w, k), k + 1, s);
    }
  }

  /** A type is written only if the objects need it: the types written lie in every set that has
      the objects' types and, with a type, all it refers to. */
  lemma {:induction false} OnlyNeeded(g: Graph, rank: seq<nat>, objs: seq<Obj>, s: set<nat>, i: nat)
    requires WellFormed(g, rank) && ObjsKnown(g, objs) && Closed(g, s) && forall k :: 0 <= k < |objs| ==> Inside(s, objs[k].typ)
    requires i in OutUnit(g, rank, objs).order
    ensures i in s
  {
    ObjsInside(g, rank, Writer([], [], []), objs, s);
    LinksInside(g, rank, OutObjs(g, rank, Writer([], [], []), objs), 0, s);
  }
}
