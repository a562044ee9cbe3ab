/** The module table: loading a program with everything it imports, and taking it out again. */
module Closure {
  import opened Words
  import opened Options

  type Name = seq<byte>

  datatype Id = Id(name: Name, key: seq<word>)

  /** What an object file says about its module. */
  datatype ObjectFile = ObjectFile(id: Id, size: word, imports: seq<Id>)

  datatype Entry = Entry(id: Id, loaded: bool, dataOfs: word, dataSize: word, imports: seq<nat>)

  /** The module table, and the first word above all data frames, counted in 16 bits. */
  datatype Table = Table(mods: seq<Entry>, dataTop: word)

  /** How loading ends: all modules are there; a file is missing, and the table is as far as loading had
      come; or an error has ended the emulator. */
  datatype Outcome = Whole(t: Table) | Missing(t: Table) | Ended

  type Files = map<Name, ObjectFile>

  const MOD_TAB_MAX: nat := 255

  // ------------------------------------------------------------------- entries

  /** `find_mod_entry`: the first entry of that name. */
  function Find(mods: seq<Entry>, n: Name): (i: nat)
    ensures i <= |mods| && (i < |mods| ==> mods[i].id.name == n) && forall j :: 0 <= j < i ==> mods[j].id.name != n
    decreases |mods|
  {
    if mods == [] || mods[0].id.name == n then 0
    else
      assert forall j :: 0 < j < |mods| ==> mods[j] == mods[1..][j - 1];
      1 + Find(mods[1..], n)
  }

  /** `init_mod_entry`: the entry of a module, made when there is none. None stands for a key that
      differs and for a full table, which end the emulator. */
  function Enter(mods: seq<Entry>, id: Id): (o: Option<(seq<Entry>, nat)>)
    ensures o.Some? ==> mods <= o.value.0 && o.value.1 < |o.value.0| <= |mods| + 1 && o.value.0[o.value.1].id == id
  {
    var i := Find(mods, id.name);
    if i < |mods| then if mods[i].id == id then Some((mods, i)) else None
    else if |mods| == MOD_TAB_MAX then None
    else Some((mods + [Entry(id, false, 0xFFFF, 0, [])], |mods|))
  }

  function EnterAll(mods: seq<Entry>, ids: seq<Id>): (o: Option<(seq<Entry>, seq<nat>)>)
    ensures o.Some? ==> mods <= o.value.0 && |o.value.1| == |ids|
    ensures o.Some? ==> forall k :: 0 <= k < |ids| ==> o.value.1[k] < |o.value.0| && o.value.0[o.value.1[k]].id == ids[k]
    decreases |ids|
  {
    if ids == [] then Some((mods, []))
    else
      var one :- EnterAll(mods, ids[..|ids| - 1]);
      var two :- Enter(one.0, ids[|ids| - 1]);
      Some((two.0, one.1 + [two.1]))
  }

  /** The table part of `le_parse_objfile`. */
  function Parsed(t: Table, f: ObjectFile): Option<Table> {
    var own :- Enter(t.mods, f.id);
    var i := own.1;
    var mine := own.0[i := own.0[i].(loaded := true, dataOfs := t.dataTop, dataSize := f.size)];
    var all :- EnterAll(mine, f.imports);
    Some(Table(all.0[i := all.0[i].(imports := all.1)], Wrap(t.dataTop + f.size)))
  }

  // ---------------------------------------------------------------- what is kept

  predicate Unique(mods: seq<Entry>) {
    forall i, j :: 0 <= i < j < |mods| ==> mods[i].id.name != mods[j].id.name
  }

  /** Entries keep their places and identifications, and loaded ones do not change. */
  predicate Grown(a: seq<Entry>, b: seq<Entry>) {
    && |a| <= |b|
    && forall i :: 0 <= i < |a| ==> b[i].id == a[i].id && (a[i].loaded ==> b[i] == a[i])
  }

  function LoadedNames(mods: seq<Entry>): set<Name> {
    set i | 0 <= i < |mods| && mods[i].loaded :: mods[i].id.name
  }

  predicate NotLoaded(mods: seq<Entry>, n: Name) {
    forall i :: 0 <= i < |mods| && mods[i].id.name == n ==> !mods[i].loaded
  }

  /** Every file holds the module it is named after. */
  predicate Consistent(files: Files) {
    forall n :: n in files ==> files[n].id.name == n
  }

  function Left(files: Files, mods: seq<Entry>): nat {
    |files.Keys - LoadedNames(mods)|
  }

  lemma {:induction false} EnterKeeps(mods: seq<Entry>, id: Id)
    requires Unique(mods) && |mods| <= MOD_TAB_MAX && Enter(mods, id).Some?
    ensures var b := Enter(mods, id).value.0;
            Unique(b) && Grown(mods, b) && |b| <= MOD_TAB_MAX && forall i :: |mods| <= i < |b| ==> !b[i].loaded && b[i].dataSize == 0
  {
  }

  lemma {:induction false} GrownTwice(a: seq<Entry>, b: seq<Entry>, c: seq<Entry>)
    requires Grown(a, b) && Grown(b, c)
    ensures Grown(a, c)
  {
  }

  lemma {:induction false} EnterAllKeeps(mods: seq<Entry>, ids: seq<Id>)
    requires Unique(mods) && |mods| <= MOD_TAB_MAX && EnterAll(mods, ids).Some?
    ensures var b := EnterAll(mods, ids).value.0;
            Unique(b) && Grown(mods, b) && |b| <= MOD_TAB_MAX && forall i :: |mods| <= i < |b| ==> !b[i].loaded && b[i].dataSize == 0
    decreases |ids|
  {
    if ids != [] {
      EnterAllKeeps(mods, ids[..|ids| - 1]);
      var one := EnterAll(mods, ids[..|ids| - 1]).value.0;
      EnterKeeps(one, ids[|ids| - 1]);
      GrownTwice(mods, one, EnterAll(mods, ids).value.0);
    }
  }

  /** The entry a parsed module takes: a new one, or the one made when it was imported. */
  function OwnEntry(t: Table, f: ObjectFile): nat {
    Find(t.mods, f.id.name)
  }

  /** Parsing one file loads one module, which takes the next data frame, and makes entries for its
      imports; nothing else changes. */
  lemma {:induction false} ParsedKeeps(t: Table, f: ObjectFile)
    requires Unique(t.mods) && |t.mods| <= MOD_TAB_MAX && NotLoaded(t.mods, f.id.name) && Parsed(t, f).Some?
    ensures var u, i := Parsed(t, f).value, OwnEntry(t, f);
            && Unique(u.mods) && |u.mods| <= MOD_TAB_MAX && Grown(t.mods, u.mods) && u.dataTop == Wrap(t.dataTop + f.size)
            && i < |u.mods| && u.mods[i].loaded && u.mods[i].id == f.id && u.mods[i].dataOfs == t.dataTop && u.mods[i].dataSize == f.size
            && |u.mods[i].imports| == |f.imports|
            && (forall k :: 0 <= k < |f.imports| ==> u.mods[i].imports[k] < |u.mods| && u.mods[u.mods[i].imports[k]].id == f.imports[k])
            && (forall j :: 0 <= j < |t.mods| && j != i ==> u.mods[j] == t.mods[j])
            && (forall j :: |t.mods| <= j < |u.mods| && j != i ==> !u.mods[j].loaded && u.mods[j].dataSize == 0)
  {
    hide Unique, Grown, Enter, EnterAll, Find;
    ParsedUnfolds(t, f);
    EnterKeeps(t.mods, f.id);
    var own := Enter(t.mods, f.id).value;
    var i := own.1;
    var mine := own.0[i := own.0[i].(loaded := true, dataOfs := t.dataTop, dataSize := f.size)];
    OneChanged(t.mods, own.0, i, mine);
    EnterAllKeeps(mine, f.imports);
    var all := EnterAll(mine, f.imports).value;
    ImportsNoted(t.mods, mine, all.0, i, all.1);
  }

  lemma {:induction false} ParsedUnfolds(t: Table, f: ObjectFile)
    requires Parsed(t, f).Some? && NotLoaded(t.mods, f.id.name)
    ensures Enter(t.mods, f.id).Some?
    ensures var own := Enter(t.mods, f.id).value;
            var i := own.1;
            var mine := own.0[i := own.0[i].(loaded := true, dataOfs := t.dataTop, dataSize := f.size)];
            && i == OwnEntry(t, f) && (i < |t.mods| ==> !t.mods[i].loaded) && |own.0| <= |t.mods| + 1 && (|own.0| > |t.mods| ==> i == |t.mods|)
            && EnterAll(mine, f.imports).Some?
            && var all := EnterAll(mine, f.imports).value;
               Parsed(t, f).value == Table(all.0[i := all.0[i].(imports := all.1)], Wrap(t.dataTop + f.size))
  {
    hide EnterAll;
  }

  /** The entry of a module that was not loaded is marked. */
  lemma {:induction false} OneChanged(mods: seq<Entry>, b: seq<Entry>, i: nat, mine: seq<Entry>)
    requires Unique(b) && Grown(mods, b) && mods <= b && i < |b| == |mine| && (i < |mods| ==> !mods[i].loaded)
    requires mine == b[i := mine[i]] && mine[i].id == b[i].id
    ensures Unique(mine) && Grown(mods, mine) && forall j :: 0 <= j < |mods| && j != i ==> mine[j] == mods[j]
  {
  }

  /** The same entry gets its imports. */
  lemma {:induction false} ImportsNoted(mods: seq<Entry>, mine: seq<Entry>, all: seq<Entry>, i: nat, refs: seq<nat>)
    requires Unique(all) && mine <= all && Grown(mods, mine) && i < |mine| && (i < |mods| ==> !mods[i].loaded)
    ensures var u := all[i := all[i].(imports := refs)];
            && Unique(u) && Grown(mods, u) && u[i] == mine[i].(imports := refs)
            && (forall k :: 0 <= k < |all| ==> u[k].id == all[k].id) && forall j :: 0 <= j < |all| && j != i ==> u[j] == all[j]
  {
  }

  lemma {:induction false} FewerLeft(files: Files, a: seq<Entry>, b: seq<Entry>, n: Name)
    requires Grown(a, b)
    ensures LoadedNames(a) <= LoadedNames(b) && Left(files, b) <= Left(files, a)
    ensures n in files && n in LoadedNames(b) && n !in LoadedNames(a) ==> Left(files, b) < Left(files, a)
  {
    forall n: Name | n in LoadedNames(a)
      ensures n in LoadedNames(b)
    {
      var i :| 0 <= i < |a| && a[i].loaded && a[i].id.name == n;
      assert b[i].loaded && b[i].id.name == n;
    }
    var x, y := files.Keys - LoadedNames(a), files.Keys - LoadedNames(b);
    assert y <= x;
    Smaller(y, x);
    if n in files && n in LoadedNames(b) && n !in LoadedNames(a) {
      assert n in x && n !in y;
      Smaller(y, x - {n});
    }
  }

  lemma {:induction false} Smaller(a: set<Name>, b: set<Name>)
    requires a <= b
    ensures |a| <= |b|
  {
    assert b == a + (b - a);
  }

  // ------------------------------------------------------------------- loading

  predicate Ready(files: Files, t: Table) {
    Consistent(files) && Unique(t.mods) && |t.mods| <= MOD_TAB_MAX
  }

  /** `le_load_objfile`: a module, and then every module that has an entry from place top on and is
      not loaded. */
  function LoadObj(files: Files, t: Table, n: Name): (o: Outcome)
    requires Ready(files, t) && NotLoaded(t.mods, n)
    ensures !o.Ended? ==> Ready(files, o.t) && Grown(t.mods, o.t.mods)
    ensures o.Whole? ==> n in LoadedNames(o.t.mods)
    decreases Left(files, t.mods), 0, 0
  {
    if n !in files then Missing(t)
    else
      match Parsed(t, files[n])
      case None => Ended
      case Some(u) =>
        ParsedKeeps(t, files[n]);
        ParsedLoads(files, t, n);
        LoadRest(files, u, |t.mods| + 1)
  }

  function LoadRest(files: Files, t: Table, top: nat): (o: Outcome)
    requires Ready(files, t)
    ensures !o.Ended? ==> Ready(files, o.t) && Grown(t.mods, o.t.mods) && LoadedNames(t.mods) <= LoadedNames(o.t.mods)
    ensures o.Whole? ==> forall j :: top <= j < |o.t.mods| ==> o.t.mods[j].loaded
    decreases Left(files, t.mods), 1, MOD_TAB_MAX + 1 - top
  {
    if top >= |t.mods| then Whole(t)
    else if t.mods[top].loaded then LoadRest(files, t, top + 1)
    else
      var o := LoadObj(files, t, t.mods[top].id.name);
      if o.Ended? then o
      else
        FewerLeft(files, t.mods, o.t.mods, t.mods[top].id.name);
        if o.Missing? then o
        else
          NowLoaded(t.mods, o.t.mods, top);
          var p := LoadRest(files, o.t, top + 1);
          RestGrows(t, o.t, top, p);
          p
  }

  lemma {:induction false} RestGrows(a: Table, b: Table, top: nat, o: Outcome)
    requires Grown(a.mods, b.mods) && top < |a.mods| && b.mods[top].loaded && LoadedNames(a.mods) <= LoadedNames(b.mods)
    requires !o.Ended? ==> Grown(b.mods, o.t.mods) && LoadedNames(b.mods) <= LoadedNames(o.t.mods)
    ensures !o.Ended? ==> Grown(a.mods, o.t.mods) && LoadedNames(a.mods) <= LoadedNames(o.t.mods) && o.t.mods[top].loaded
  {
  }

  lemma {:induction false} NowLoaded(a: seq<Entry>, b: seq<Entry>, i: nat)
    requires Grown(a, b) && Unique(b) && i < |a| && a[i].id.name in LoadedNames(b)
    ensures b[i].loaded
  {
  }

  lemma {:induction false} ParsedLoads(files: Files, t: Table, n: Name)
    requires Ready(files, t) && n in files && NotLoaded(t.mods, n) && Parsed(t, files[n]).Some?
    ensures var u := Parsed(t, files[n]).value; n in LoadedNames(u.mods) && Left(files, u.mods) < Left(files, t.mods)
  {
    ParsedKeeps(t, files[n]);
    var u, i := Parsed(t, files[n]).value, OwnEntry(t, files[n]);
    assert u.mods[i].loaded && u.mods[i].id.name == n;
    FewerLeft(files, t.mods, u.mods, n);
  }

  // --------------------------------------------------------------- data frames

  predicate AllLoaded(mods: seq<Entry>, n: nat) {
    forall i :: 0 <= i < n && i < |mods| ==> mods[i].loaded
  }

  function Sizes(mods: seq<Entry>, from: nat): nat {
    if |mods| <= from then 0 else Sizes(mods[..|mods| - 1], from) + mods[|mods| - 1].dataSize
  }

  predicate FrameIn(e: Entry, low: int, high: int) {
    low <= e.dataOfs && e.dataOfs + e.dataSize <= high
  }

  predicate Disjoint(a: Entry, b: Entry) {
    a.dataOfs + a.dataSize <= b.dataOfs || b.dataOfs + b.dataSize <= a.dataOfs
  }

  /** The frames of the modules from place `from` on lie between base and dataTop and do not overlap. */
  predicate Framed(t: Table, from: nat, base: int) {
    && (forall i :: from <= i < |t.mods| && t.mods[i].loaded ==> FrameIn(t.mods[i], base, t.dataTop))
    && (forall i, j :: from <= i < j < |t.mods| && t.mods[i].loaded && t.mods[j].loaded ==> Disjoint(t.mods[i], t.mods[j]))
  }

  /** A frame that goes on behind the last word of memory, so that its addresses wrap to the first ones. */
  predicate Beyond(e: Entry) {
    e.loaded && e.dataOfs + e.dataSize >= 0x1_0000
  }

  /** Frames taken one above the other from base on: they are apart as long as their sum stays within
      memory, and one of them goes beyond it otherwise. */
  predicate Stacked(t: Table, from: nat, base: word) {
    && (forall i :: from <= i < |t.mods| && !t.mods[i].loaded ==> t.mods[i].dataSize == 0)
    && t.dataTop == Wrap(base + Sizes(t.mods, from))
    && if base + Sizes(t.mods, from) < 0x1_0000 then Framed(t, from, base)
       else exists i :: from <= i < |t.mods| && Beyond(t.mods[i])
  }

  lemma {:induction false} StackedFramed(t: Table, from: nat, base: word)
    requires Stacked(t, from, base)
    ensures Framed(t, from, base) <==> base + Sizes(t.mods, from) < 0x1_0000
  {
    if base + Sizes(t.mods, from) >= 0x1_0000 {
      var i :| from <= i < |t.mods| && Beyond(t.mods[i]);
      assert !FrameIn(t.mods[i], base, t.dataTop);
    }
  }

  /** A loaded module is the one its file holds, and its imports are resolved by name and key. */
  predicate Faithful(files: Files, mods: seq<Entry>, e: Entry) {
    && e.id.name in files && files[e.id.name].id == e.id && e.dataSize == files[e.id.name].size
    && |e.imports| == |files[e.id.name].imports|
    && forall k :: 0 <= k < |e.imports| ==> e.imports[k] < |mods| && mods[e.imports[k]].id == files[e.id.name].imports[k]
  }

  /** What loading keeps, for the modules above those that were there at the start. */
  predicate Kept(files: Files, t: Table, from: nat, base: word) {
    && from <= |t.mods| && AllLoaded(t.mods, from) && Stacked(t, from, base)
    && forall i :: from <= i < |t.mods| && t.mods[i].loaded ==> Faithful(files, t.mods, t.mods[i])
  }

  lemma {:induction false} SizesSame(a: seq<Entry>, b: seq<Entry>, from: nat)
    requires |a| <= |b| && from <= |a|
    requires forall i :: from <= i < |a| ==> b[i].dataSize == a[i].dataSize
    requires forall i :: |a| <= i < |b| ==> b[i].dataSize == 0
    ensures Sizes(b, from) == Sizes(a, from)
    decreases |b|
  {
    if |b| > from {
      if |b| > |a| {
        SizesSame(a, b[..|b| - 1], from);
      } else {
        SizesSame(a[..|a| - 1], b[..|b| - 1], from);
      }
    }
  }

  lemma {:induction false} SizesOne(a: seq<Entry>, b: seq<Entry>, from: nat, k: nat)
    requires |a| == |b| && from <= k < |a| && forall i :: from <= i < |a| && i != k ==> b[i].dataSize == a[i].dataSize
    ensures Sizes(b, from) == Sizes(a, from) + b[k].dataSize - a[k].dataSize
    decreases |a|
  {
    if k == |a| - 1 {
      SizesSame(a[..k], b[..k], from);
    } else {
      SizesOne(a[..|a| - 1], b[..|b| - 1], from, k);
    }
  }

  /** Padding a table with entries that have no data yet. */
  function Padded(mods: seq<Entry>, n: nat): (r: seq<Entry>)
    ensures |r| == |mods| + n && mods <= r && forall i :: |mods| <= i < |r| ==> r[i].dataSize == 0
  {
    mods + seq(n, _ => Entry(Id([], []), false, 0, 0, []))
  }

  /** From table t to u one module more has been loaded, at place k, into the space above. */
  predicate OneLoaded(t: Table, u: Table, k: nat) {
    && k < |u.mods| && |t.mods| <= |u.mods| && u.mods[k].loaded && u.mods[k].dataOfs == t.dataTop
    && u.dataTop == Wrap(t.dataTop + u.mods[k].dataSize)
    && (k < |t.mods| ==> !t.mods[k].loaded)
    && (forall j :: 0 <= j < |t.mods| && j != k ==> u.mods[j] == t.mods[j])
    && (forall j :: |t.mods| <= j < |u.mods| && j != k ==> !u.mods[j].loaded && u.mods[j].dataSize == 0)
  }

  lemma {:induction false} FramesNext(t: Table, u: Table, k: nat, from: nat, base: word)
    requires OneLoaded(t, u, k) && from <= |t.mods| && from <= k && AllLoaded(t.mods, from) && Stacked(t, from, base)
    ensures AllLoaded(u.mods, from) && Stacked(u, from, base)
  {
    hide Sizes, Wrap, Framed, FrameIn, Disjoint;
    var was, now := Sizes(t.mods, from), Sizes(u.mods, from);
    SizesNext(t, u, k, from);
    WrapSum(base + was, u.mods[k].dataSize);
    WrapSmall(base + was);
    WrapSmall(base + now);
    assert u.dataTop == Wrap(base + now);
    if base + was >= 0x1_0000 {
      var i :| from <= i < |t.mods| && Beyond(t.mods[i]);
      assert u.mods[i] == t.mods[i];
    } else if base + now >= 0x1_0000 {
      assert Beyond(u.mods[k]);
    } else {
      FramedNext(t, u, k, from, base);
    }
  }

  lemma {:induction false} FramedNext(t: Table, u: Table, k: nat, from: nat, base: word)
    requires OneLoaded(t, u, k) && from <= |t.mods| && from <= k && Framed(t, from, base)
    requires base <= t.dataTop && u.dataTop == t.dataTop + u.mods[k].dataSize
    ensures Framed(u, from, base)
  {
    hide Wrap;
    assert forall i :: from <= i < |u.mods| && u.mods[i].loaded && i != k ==> i < |t.mods| && u.mods[i] == t.mods[i];
  }

  lemma {:induction false} WrapSmall(x: int)
    requires 0 <= x
    ensures x < 0x1_0000 ==> Wrap(x) == x
  {
  }

  lemma {:induction false} SizesNext(t: Table, u: Table, k: nat, from: nat)
    requires OneLoaded(t, u, k) && from <= |t.mods| && from <= k
    requires forall i :: from <= i < |t.mods| && !t.mods[i].loaded ==> t.mods[i].dataSize == 0
    ensures Sizes(u.mods, from) == Sizes(t.mods, from) + u.mods[k].dataSize
  {
    var p := Padded(t.mods, |u.mods| - |t.mods|);
    SizesSame(t.mods, p, from);
    SizesOne(p, u.mods, from, k);
  }

  lemma {:induction false} ParsedFrames(files: Files, t: Table, f: ObjectFile, from: nat, base: word)
    requires Unique(t.mods) && |t.mods| <= MOD_TAB_MAX && NotLoaded(t.mods, f.id.name) && Parsed(t, f).Some?
    requires from <= |t.mods| && AllLoaded(t.mods, from) && Stacked(t, from, base)
    ensures var u := Parsed(t, f).value; AllLoaded(u.mods, from) && Stacked(u, from, base) && from <= OwnEntry(t, f)
  {
    hide Stacked, Parsed, Sizes, Wrap;
    ParsedKeeps(t, f);
    var u, k := Parsed(t, f).value, OwnEntry(t, f);
    assert forall i :: 0 <= i < from ==> t.mods[i].loaded && t.mods[i].id.name != f.id.name;
    FramesNext(t, u, k, from, base);
  }

  lemma {:induction false} ParsedKept(files: Files, t: Table, n: Name, from: nat, base: word)
    requires Ready(files, t) && n in files && NotLoaded(t.mods, n) && Parsed(t, files[n]).Some? && Kept(files, t, from, base)
    ensures Kept(files, Parsed(t, files[n]).value, from, base)
  {
    hide Stacked, Parsed, Wrap;
    ParsedKeeps(t, files[n]);
    ParsedFrames(files, t, files[n], from, base);
    var u, k := Parsed(t, files[n]).value, OwnEntry(t, files[n]);
    forall i | from <= i < |u.mods| && u.mods[i].loaded
      ensures Faithful(files, u.mods, u.mods[i])
    {
      if i != k {
        assert u.mods[i] == t.mods[i] && Faithful(files, t.mods, t.mods[i]);
      }
    }
  }

  lemma {:induction false} LoadKept(files: Files, t: Table, n: Name, from: nat, base: word)
    requires Ready(files, t) && NotLoaded(t.mods, n) && !LoadObj(files, t, n).Ended? && Kept(files, t, from, base)
    ensures Kept(files, LoadObj(files, t, n).t, from, base)
    decreases Left(files, t.mods), 0, 0
  {
    hide Kept, Parsed, Left, Unique, Grown, LoadedNames, Find, LoadRest;
    if n in files {
      ParsedKeeps(t, files[n]);
      ParsedLoads(files, t, n);
      ParsedKept(files, t, n, from, base);
      RestKept(files, Parsed(t, files[n]).value, |t.mods| + 1, from, base);
    }
  }

  lemma {:induction false} RestKept(files: Files, t: Table, top: nat, from: nat, base: word)
    requires Ready(files, t) && !LoadRest(files, t, top).Ended? && Kept(files, t, from, base)
    ensures Kept(files, LoadRest(files, t, top).t, from, base)
    decreases Left(files, t.mods), 1, MOD_TAB_MAX + 1 - top
  {
    hide Kept, Parsed, Left;
    if top < |t.mods| {
      if t.mods[top].loaded {
        RestKept(files, t, top + 1, from, base);
      } else {
        LoadKept(files, t, t.mods[top].id.name, from, base);
        var o := LoadObj(files, t, t.mods[top].id.name);
        if o.Whole? {
          FewerLeft(files, t.mods, o.t.mods, t.mods[top].id.name);
          RestKept(files, o.t, top + 1, from, base);
        }
      }
    }
  }

  // ------------------------------------------------------------------ unloading

  /** The modules above place n taken out again, topmost first. */
  function Unloaded(t: Table, n: nat): Table
    decreases |t.mods|
  {
    if |t.mods| <= n then t
    else Unloaded(Table(t.mods[..|t.mods| - 1], Wrap(t.dataTop - t.mods[|t.mods| - 1].dataSize)), n)
  }

  lemma {:induction false} UnloadedIs(t: Table, n: nat)
    requires n <= |t.mods|
    ensures Unloaded(t, n) == Table(t.mods[..n], Wrap(t.dataTop - Sizes(t.mods, n)))
    decreases |t.mods|
  {
    if n < |t.mods| {
      hide Wrap;
      var init, size: int := t.mods[..|t.mods| - 1], t.mods[|t.mods| - 1].dataSize;
      UnloadedIs(Table(init, Wrap(t.dataTop - size)), n);
      assert init[..n] == t.mods[..n];
      var rest: int := Sizes(init, n);
      WrapSum(t.dataTop - size, -rest);
    } else {
      assert t.mods[..n] == t.mods;
    }
  }

  lemma {:induction false} KeptAtStart(files: Files, t: Table)
    requires AllLoaded(t.mods, |t.mods|)
    ensures Kept(files, t, |t.mods|, t.dataTop)
  {
    assert Sizes(t.mods, |t.mods|) == 0;
  }

  /** A program that is not in the table, in a table whose modules are all loaded. */
  predicate Loadable(files: Files, t: Table, n: Name) {
    Ready(files, t) && AllLoaded(t.mods, |t.mods|) && Find(t.mods, n) == |t.mods|
  }

  /** Loading a program that is not in the table loads exactly one module for each name, all of them,
      and resolves every import by name and key. Their frames fill the space above dataTop without
      overlapping if and only if that space is large enough; nothing in the loader looks at that. */
  lemma {:induction false} LoadCloses(files: Files, t: Table, n: Name)
    requires Loadable(files, t, n) && LoadObj(files, t, n).Whole?
    ensures var u := LoadObj(files, t, n).t;
            && |t.mods| < |u.mods| && u.mods[..|t.mods|] == t.mods && u.mods[|t.mods|].id.name == n
            && Unique(u.mods) && AllLoaded(u.mods, |u.mods|)
            && (forall i :: |t.mods| <= i < |u.mods| ==> Faithful(files, u.mods, u.mods[i]))
            && u.dataTop == Wrap(t.dataTop + Sizes(u.mods, |t.mods|))
            && (Framed(u, |t.mods|, t.dataTop) <==> t.dataTop + Sizes(u.mods, |t.mods|) < 0x1_0000)
  {
    var from := |t.mods|;
    KeptAtStart(files, t);
    hide Framed, Faithful, Parsed, Left, Sizes, Stacked, Wrap;
    LoadKept(files, t, n, from, t.dataTop);
    OwnFirst(files, t, n);
    var u := LoadObj(files, t, n).t;
    GrownPrefix(t.mods, u.mods);
    StackedParts(u, from, t.dataTop);
  }

  lemma {:induction false} StackedParts(t: Table, from: nat, base: word)
    requires Stacked(t, from, base)
    ensures t.dataTop == Wrap(base + Sizes(t.mods, from))
    ensures Framed(t, from, base) <==> base + Sizes(t.mods, from) < 0x1_0000
  {
    StackedFramed(t, from, base);
  }

  /** The program itself takes the first free place. */
  lemma {:induction false} OwnFirst(files: Files, t: Table, n: Name)
    requires Loadable(files, t, n) && !LoadObj(files, t, n).Ended?
    ensures var o := LoadObj(files, t, n);
            if n in files then |t.mods| < |o.t.mods| && o.t.mods[|t.mods|].loaded && o.t.mods[|t.mods|].id.name == n
                               && o.t.mods[|t.mods|].dataSize == files[n].size && (o.Whole? ==> AllLoaded(o.t.mods, |o.t.mods|))
            else o == Missing(t)
  {
    hide Parsed, Left, Find;
    if n in files {
      assert NotLoaded(t.mods, n);
      ParsedKeeps(t, files[n]);
      var p, o := Parsed(t, files[n]).value, LoadObj(files, t, n);
      assert o == LoadRest(files, p, |t.mods| + 1);
      hide LoadObj, LoadRest;
      assert p.mods[|t.mods|].loaded && o.t.mods[|t.mods|] == p.mods[|t.mods|];
    }
  }

  lemma {:induction false} GrownPrefix(a: seq<Entry>, b: seq<Entry>)
    requires Grown(a, b) && AllLoaded(a, |a|)
    ensures b[..|a|] == a
  {
  }

  const BIG: Files := map[[1] := ObjectFile(Id([1], [0]), 40000, [Id([2], [0])]), [2] := ObjectFile(Id([2], [0]), 40000, [])]

  /** Two modules of forty thousand words each are loaded without an error, and the frame of the second
      one goes on over the first. */
  lemma {:induction false} TwoTooLarge()
    ensures Loadable(BIG, Table([], 0), [1]) && LoadObj(BIG, Table([], 0), [1]).Whole?
    ensures var u := LoadObj(BIG, Table([], 0), [1]).t; u.dataTop == 14464 && !Framed(u, 0, 0)
  {
    hide Parsed, Left, Find, Enter, EnterAll;
    FirstParsed();
    SecondLoaded();
    var u := Table([Entry(Id([1], [0]), true, 0, 40000, [1]), Entry(Id([2], [0]), false, 0xFFFF, 0, [])], 40000);
    var v := Table([u.mods[0], Entry(Id([2], [0]), true, 40000, 40000, [])], 14464);
    assert LoadObj(BIG, Table([], 0), [1]) == LoadRest(BIG, u, 1);
    assert !FrameIn(v.mods[1], 0, v.dataTop);
  }

  lemma {:induction false} FirstParsed()
    ensures Parsed(Table([], 0), BIG[[1]]) == Some(Table([Entry(Id([1], [0]), true, 0, 40000, [1]), Entry(Id([2], [0]), false, 0xFFFF, 0, [])], 40000))
    ensures Find([], [1]) == 0
  {
    FirstEntered();
    var mine := [Entry(Id([1], [0]), true, 0, 40000, [])];
    assert [Entry(Id([1], [0]), false, 0xFFFF, 0, [])][0 := mine[0]] == mine;
    EnterOne(mine, Id([2], [0]));
    hide EnterAll, Find, Enter;
    var all := mine + [Entry(Id([2], [0]), false, 0xFFFF, 0, [])];
    assert all[0 := all[0].(imports := [1])] == [Entry(Id([1], [0]), true, 0, 40000, [1]), Entry(Id([2], [0]), false, 0xFFFF, 0, [])];
  }

  lemma {:induction false} FirstEntered()
    ensures Enter([], Id([1], [0])) == Some(([Entry(Id([1], [0]), false, 0xFFFF, 0, [])], 0)) && Find([], [1]) == 0
  {
    var none: seq<Entry> := [];
    assert none + [Entry(Id([1], [0]), false, 0xFFFF, 0, [])] == [Entry(Id([1], [0]), false, 0xFFFF, 0, [])];
  }

  lemma {:induction false} SecondParsed()
    ensures var u := Table([Entry(Id([1], [0]), true, 0, 40000, [1]), Entry(Id([2], [0]), false, 0xFFFF, 0, [])], 40000);
            Parsed(u, BIG[[2]]) == Some(Table([u.mods[0], Entry(Id([2], [0]), true, 40000, 40000, [])], 14464))
  {
    var u := Table([Entry(Id([1], [0]), true, 0, 40000, [1]), Entry(Id([2], [0]), false, 0xFFFF, 0, [])], 40000);
    FindSecond(u.mods, [2]);
    hide Find;
    var mine := u.mods[1 := Entry(Id([2], [0]), true, 40000, 40000, [])];
    assert mine == [u.mods[0], Entry(Id([2], [0]), true, 40000, 40000, [])];
    assert EnterAll(mine, []) == Some((mine, []));
    assert mine[1 := mine[1].(imports := [])] == mine;
  }

  lemma {:induction false} SecondLoaded()
    ensures var u := Table([Entry(Id([1], [0]), true, 0, 40000, [1]), Entry(Id([2], [0]), false, 0xFFFF, 0, [])], 40000);
            && Ready(BIG, u)
            && LoadRest(BIG, u, 1) == Whole(Table([u.mods[0], Entry(Id([2], [0]), true, 40000, 40000, [])], 14464))
  {
    SecondParsed();
    var u := Table([Entry(Id([1], [0]), true, 0, 40000, [1]), Entry(Id([2], [0]), false, 0xFFFF, 0, [])], 40000);
    var v := Table([u.mods[0], Entry(Id([2], [0]), true, 40000, 40000, [])], 14464);
    hide Parsed, Left, Find;
    assert LoadObj(BIG, u, [2]) == LoadRest(BIG, v, 3) == Whole(v);
    assert LoadRest(BIG, v, 2) == Whole(v);
  }

  lemma {:induction false} FindSecond(mods: seq<Entry>, n: Name)
    requires |mods| == 2 && mods[0].id.name != n && mods[1].id.name == n
    ensures Find(mods, n) == 1
  {
    assert Find(mods[1..], n) == 0;
  }

  lemma {:induction false} EnterOne(mods: seq<Entry>, id: Id)
    requires |mods| == 1 && mods[0].id.name != id.name
    ensures EnterAll(mods, [id]) == Some((mods + [Entry(id, false, 0xFFFF, 0, [])], [1]))
  {
    assert Find(mods[1..], id.name) == 0 && Find(mods, id.name) == 1;
    assert [id][..0] == [];
    assert EnterAll(mods, []) == Some((mods, []));
    var none: seq<nat> := [];
    assert none + [1] == [1];
  }

  /** A load is left unfinished only where a file is missing: the program's own, and nothing has
      changed; or that of a module that has been entered into the table. */
  lemma {:induction false} LoadMisses(files: Files, t: Table, n: Name)
    requires Ready(files, t) && NotLoaded(t.mods, n) && LoadObj(files, t, n).Missing?
    ensures var u := LoadObj(files, t, n).t;
            if n in files then exists i :: 0 <= i < |u.mods| && !u.mods[i].loaded && u.mods[i].id.name !in files else u == t
    decreases Left(files, t.mods), 0, 0
  {
    hide Parsed, Left;
    if n in files {
      ParsedKeeps(t, files[n]);
      ParsedLoads(files, t, n);
      RestMisses(files, Parsed(t, files[n]).value, |t.mods| + 1);
    }
  }

  lemma {:induction false} RestMisses(files: Files, t: Table, top: nat)
    requires Ready(files, t) && LoadRest(files, t, top).Missing?
    ensures var u := LoadRest(files, t, top).t; exists i :: 0 <= i < |u.mods| && !u.mods[i].loaded && u.mods[i].id.name !in files
    decreases Left(files, t.mods), 1, MOD_TAB_MAX + 1 - top
  {
    hide Parsed, Left, Wrap, LoadObj, Grown, LoadedNames, EnterAll, Enter, Consistent;
    if t.mods[top].loaded {
      RestMisses(files, t, top + 1);
    } else {
      var o := LoadObj(files, t, t.mods[top].id.name);
      if o.Missing? {
        LoadMisses(files, t, t.mods[top].id.name);
        assert t.mods[top].id.name !in files ==> !o.t.mods[top].loaded;
      } else {
        FewerLeft(files, t.mods, o.t.mods, t.mods[top].id.name);
        RestMisses(files, o.t, top + 1);
      }
    }
  }

  /** Unloading after a load, in 16 bits: the table and dataTop are as they were before it, also where
      dataTop has wrapped. */
  lemma {:induction false} UnloadUndoesLoad(files: Files, t: Table, n: Name)
    requires Loadable(files, t, n) && LoadObj(files, t, n).Whole?
    ensures Unloaded(LoadObj(files, t, n).t, |t.mods|) == t
  {
    hide Sizes, Framed, Faithful, Unloaded, Ready, LoadObj, LoadRest, Unique, AllLoaded, Find, Parsed;
    LoadCloses(files, t, n);
    var u := LoadObj(files, t, n).t;
    UnloadedIs(u, |t.mods|);
    var size: int := Sizes(u.mods, |t.mods|);
    WrapSum(t.dataTop + size, -size);
  }

  // ------------------------------------------------- programs that call programs

  /** The registers that SVC 1 finds: G, S, L, CS and PC, and the height of the expression stack. */
  datatype Registers = Registers(g: word, s: word, l: word, cs: word, pc: word, sp: nat)

  /** A program as it runs: where procedure 0 of its module begins, the registers at each of its calls of
      other programs, with those programs, and the registers when it ends. */
  datatype Program = Program(name: Name, entry: word, calls: seq<Call>, last: Registers)

  datatype Call = Call(at: Registers, program: Program)

  /** The registers a program begins with: its module's data, a first frame above all data, and its
      procedure 0; the expression stack stays as it is. */
  function AtStart(e: Entry, entry: word, dataTop: word, sp: nat): Registers {
    Registers(e.dataOfs, Wrap(dataTop + 4), dataTop, dataTop, entry, sp)
  }

  /** SVC 1: the table, the registers and the result. The program's modules are loaded above S; when all
      are there it runs, and they are taken out again. S becomes what dataTop is then. None stands for the
      end of the emulator, and for a program whose module has an entry already. */
  function Called(files: Files, t: Table, p: Program, r: Registers): Option<(Table, Registers, bool)>
    decreases p, |p.calls| + 1
  {
    var low := Table(t.mods, r.s);
    if !Ready(files, t) || Find(t.mods, p.name) < |t.mods| then None
    else
      match LoadObj(files, low, p.name)
      case Ended => None
      case Missing(u) => Some((Table(u.mods, t.dataTop), r.(s := u.dataTop), false))
      case Whole(u) =>
        var v :- Ran(files, u, p, |p.calls|);
        var w := Unloaded(v, |t.mods|);
        Some((Table(w.mods, t.dataTop), r.(s := w.dataTop, g := p.last.g), true))
  }

  /** The table after the first n calls of a program. */
  function Ran(files: Files, t: Table, p: Program, n: nat): Option<Table>
    requires n <= |p.calls|
    decreases p, n
  {
    if n == 0 then Some(t)
    else
      var u :- Ran(files, t, p, n - 1);
      var r :- Called(files, u, p.calls[n - 1].program, p.calls[n - 1].at);
      Some(r.0)
  }

  /** No program is called, at any depth, that has an entry in the table by then. */
  predicate Fresh(files: Files, t: Table, p: Program, s: word)
    decreases p, 1
  {
    && Ready(files, t) && Find(t.mods, p.name) == |t.mods|
    && match LoadObj(files, Table(t.mods, s), p.name)
       case Whole(u) => AllFresh(files, u, p)
       case _ => true
  }

  predicate AllFresh(files: Files, t: Table, p: Program)
    decreases p, 0
  {
    forall k :: 0 <= k < |p.calls| && Ran(files, t, p, k).Some? ==> Fresh(files, Ran(files, t, p, k).value, p.calls[k].program, p.calls[k].at.s)
  }

  /** Whatever is called, at any depth, is not in the table by then, and either all its modules are there
      or its own file is missing. */
  predicate Sound(files: Files, t: Table, p: Program, s: word)
    decreases p
  {
    && Loadable(files, t, p.name)
    && match LoadObj(files, Table(t.mods, s), p.name)
       case Ended => false
       case Missing(u) => p.name !in files
       case Whole(u) => forall k :: 0 <= k < |p.calls| ==> Sound(files, u, p.calls[k].program, p.calls[k].at.s)
  }

  /** A program that calls programs, to any depth: afterwards the module table, dataTop, S, L, CS, PC and
      the height of the expression stack are as before the call, whatever the called programs did to the
      registers; only G is not brought back. */
  lemma {:induction false} CallRestores(files: Files, t: Table, p: Program, r: Registers)
    requires Sound(files, t, p, r.s)
    ensures Called(files, t, p, r) == Some((t, if p.name in files then r.(g := p.last.g) else r, p.name in files))
    decreases p, |p.calls| + 1
  {
    hide Ready, Find, Unloaded, LoadObj, AllLoaded, Ran;
    var low := Table(t.mods, r.s);
    LowLoadable(files, t, p.name, r.s);
    OwnFirst(files, low, p.name);
    if p.name in files {
      var u := LoadObj(files, low, p.name).t;
      RanRestores(files, u, p, |p.calls|);
      UnloadUndoesLoad(files, low, p.name);
    }
  }

  lemma {:induction false} LowLoadable(files: Files, t: Table, n: Name, s: word)
    requires Loadable(files, t, n)
    ensures Loadable(files, Table(t.mods, s), n)
  {
  }

  lemma {:induction false} RanRestores(files: Files, t: Table, p: Program, n: nat)
    requires n <= |p.calls| && forall k :: 0 <= k < |p.calls| ==> Sound(files, t, p.calls[k].program, p.calls[k].at.s)
    ensures Ran(files, t, p, n) == Some(t)
    decreases p, n
  {
    hide Sound, Called;
    if n > 0 {
      RanRestores(files, t, p, n - 1);
      CallRestores(files, t, p.calls[n - 1].program, p.calls[n - 1].at);
    }
  }

  /** Where the file of an imported module is missing, the call yields 0 too, but the modules loaded by
      then stay in the table and S is left above them: by the words of their frames, in 16 bits. */
  lemma {:induction false} LeftBehind(files: Files, t: Table, p: Program, r: Registers)
    requires Loadable(files, t, p.name) && p.name in files && LoadObj(files, Table(t.mods, r.s), p.name).Missing?
    ensures Called(files, t, p, r).Some?
    ensures var (u, q, ok) := Called(files, t, p, r).value;
            && !ok && u.dataTop == t.dataTop && |t.mods| < |u.mods| && u.mods[|t.mods|].loaded && u.mods[|t.mods|].id.name == p.name
            && q == r.(s := Wrap(r.s + Sizes(u.mods, |t.mods|))) && Sizes(u.mods, |t.mods|) >= files[p.name].size
  {
    hide Sizes, Parsed, Unique, Grown, Find, LoadRest, Framed, Faithful;
    var low := Table(t.mods, r.s);
    LowLoadable(files, t, p.name, r.s);
    OwnFirst(files, low, p.name);
    KeptAtStart(files, low);
    LoadKept(files, low, p.name, |t.mods|, r.s);
    var u := LoadObj(files, low, p.name).t;
    SizesAtLeast(u.mods, |t.mods|, |t.mods|);
  }

  lemma {:induction false} SizesAtLeast(mods: seq<Entry>, from: nat, k: nat)
    requires from <= k < |mods|
    ensures Sizes(mods, from) >= mods[k].dataSize
    decreases |mods|
  {
    if k < |mods| - 1 {
      SizesAtLeast(mods[..|mods| - 1], from, k);
    }
  }

  // ------------------------------------------------------------ the table at work

  class ModuleTable {
    var mods: seq<Entry>
    var dataTop: word
    var regs: Registers
    var stopped: bool            // the emulator has ended with an error

    ghost function Now(): Table
      reads this
    {
      Table(mods, dataTop)
    }

    /** Parsing has led to the table o, or has ended the emulator. */
    ghost predicate Became(o: Option<Table>)
      reads this
    {
      match o case None => stopped case Some(t) => !stopped && Now() == t
    }

    /** Loading has come to this, and has found every file or not. */
    ghost predicate CameTo(o: Outcome, found: bool)
      reads this
    {
      match o
      case Ended => stopped
      case Missing(t) => !stopped && !found && Now() == t
      case Whole(t) => !stopped && found && Now() == t
    }

    /** The table as the emulator sets it up: the system module only. */
    constructor ()
      ensures Now() == Table([Entry(Id([], [0, 0, 0]), true, 0xFFFF, 0, [])], 0) && !stopped
    {
      mods, dataTop, stopped := [Entry(Id([], [0, 0, 0]), true, 0xFFFF, 0, [])], 0, false;
      regs := Registers(0, 0, 0, 0, 0, 0);
    }

    method FindModEntry(n: Name) returns (i: nat)
      ensures i == Find(mods, n)
    {
      i := 0;
      assert mods[0..] == mods;
      while i < |mods| && mods[i].id.name != n
        invariant 0 <= i <= |mods| && Find(mods, n) == i + Find(mods[i..], n)
      {
        assert mods[i..][0] == mods[i] && mods[i..][1..] == mods[i + 1..];
        i := i + 1;
      }
      assert i < |mods| ==> mods[i..][0] == mods[i];
    }

    method InitModEntry(id: Id) returns (i: nat)
      requires !stopped
      modifies this`mods, this`stopped
      ensures match Enter(old(mods), id)
              case None => stopped
              case Some(x) => !stopped && mods == x.0 && i == x.1
    {
      i := FindModEntry(id.name);
      if i < |mods| {
        if mods[i].id != id {
          stopped := true;
        }
      } else if |mods| == MOD_TAB_MAX {
        stopped := true;
      } else {
        mods := mods + [Entry(id, false, 0xFFFF, 0, [])];
      }
    }

    method InitImports(ids: seq<Id>) returns (places: seq<nat>)
      requires !stopped
      modifies this`mods, this`stopped
      ensures match EnterAll(old(mods), ids)
              case None => stopped
              case Some(x) => !stopped && mods == x.0 && places == x.1
    {
      places := [];
      var k := 0;
      while k < |ids| && !stopped
        invariant 0 <= k <= |ids|
        invariant stopped ==> EnterAll(old(mods), ids) == None
        invariant !stopped ==> EnterAll(old(mods), ids[..k]) == Some((mods, places))
      {
        assert ids[..k + 1][..k] == ids[..k];
        ghost var was := mods;
        var i := InitModEntry(ids[k]);
        if stopped {
          NoneLater(old(mods), ids, k + 1);
        } else {
          places := places + [i];
        }
        k := k + 1;
      }
      if !stopped {
        assert ids[..k] == ids;
      }
    }

    method ParseObjFile(f: ObjectFile)
      requires !stopped
      modifies this`mods, this`dataTop, this`stopped
      ensures Became(Parsed(old(Now()), f))
    {
      hide Enter, EnterAll, Wrap;
      var i := InitModEntry(f.id);
      if stopped {
        return;
      }
      mods := mods[i := mods[i].(loaded := true, dataOfs := dataTop, dataSize := f.size)];
      dataTop := Wrap(dataTop + f.size);
      var all := InitImports(f.imports);
      if !stopped {
        mods := mods[i := mods[i].(imports := all)];
      }
    }

    /** `le_load_objfile`. */
    method LoadObjFile(files: Files, n: Name) returns (found: bool)
      requires !stopped && Ready(files, Now()) && NotLoaded(mods, n)
      modifies this`mods, this`dataTop, this`stopped
      ensures CameTo(LoadObj(files, old(Now()), n), found)
      decreases Left(files, mods), 0
    {
      hide Parsed, Left;
      found := false;
      if n !in files {
        return;
      }
      ghost var t := Now();
      var top := |mods| + 1;
      ParseObjFile(files[n]);
      if !stopped {
        ParsedKeeps(t, files[n]);
        ParsedLoads(files, t, n);
        found := LoadOthers(files, top);
      }
    }

    /** The modules that have entries from place top on and are not loaded. */
    method LoadOthers(files: Files, top: nat) returns (found: bool)
      requires !stopped && Ready(files, Now())
      modifies this`mods, this`dataTop, this`stopped
      ensures CameTo(LoadRest(files, old(Now()), top), found)
      decreases Left(files, mods), 1
    {
      hide Ready, Left, LoadObj, Find, NotLoaded, Wrap, Grown, LoadedNames, Parsed, EnterAll, Unique, Enter, Consistent;
      ghost var t := Now();
      var i := top;
      found := true;
      while i < |mods| && !stopped && found
        invariant stopped || !found ==> CameTo(LoadRest(files, t, top), found)
        invariant !stopped && found ==> Ready(files, Now()) && Left(files, mods) <= Left(files, t.mods)
        invariant !stopped && found ==> LoadRest(files, Now(), i) == LoadRest(files, t, top)
        decreases if stopped || !found then 0 else 1, if i <= MOD_TAB_MAX then MOD_TAB_MAX - i else 0
      {
        ghost var u := Now();
        FewEntries(files, u, i);
        if !mods[i].loaded {
          found := LoadObjFile(files, mods[i].id.name);
          if !stopped && found {
            FewerLeft(files, u.mods, mods, u.mods[i].id.name);
          }
        }
        i := i + 1;
      }
    }

    /** `mach_unload_top` for all modules from place n on. */
    method Unload(n: nat)
      modifies this`mods, this`dataTop
      ensures Now() == Unloaded(old(Now()), n)
    {
      while |mods| > n
        invariant Unloaded(Now(), n) == Unloaded(old(Now()), n)
        decreases |mods|
      {
        dataTop := Wrap(dataTop - mods[|mods| - 1].dataSize);
        mods := mods[..|mods| - 1];
      }
    }

    /** SVC 1: a program called by another one, with the word it pushes. */
    method CallProgram(files: Files, p: Program) returns (result: word)
      requires !stopped && Fresh(files, Now(), p, regs.s)
      modifies this
      ensures match Called(files, old(Now()), p, old(regs))
              case None => stopped
              case Some(x) => !stopped && Now() == x.0 && regs == x.1 && result == if x.2 then 1 else 0
      decreases p, 1, 0
    {
      hide LoadObj, Find, Ready, Unloaded, Ran, AllFresh;
      ghost var t := Now();
      var saved, savedTop, top := regs, dataTop, |mods|;
      FreshLow(files, t, p, regs.s);
      dataTop := regs.s;
      ghost var dataLow := dataTop;
      var found := LoadObjFile(files, p.name);
      if !stopped && found {
        OwnPlace(files, Table(t.mods, dataLow), p.name);
        var _ := Execute(files, p, top);
      }
      regs := regs.(s := dataTop, sp := saved.sp, pc := saved.pc, cs := saved.cs, l := saved.l);
      dataTop := savedTop;
      result := if found then 1 else 0;
    }

    /** `le_execute`: the run of a program with its calls, after which its modules are taken out; and the
        registers it has begun with. */
    method Execute(files: Files, p: Program, top: nat) returns (start: Registers)
      requires !stopped && AllFresh(files, Now(), p) && top < |mods|
      modifies this
      ensures start == AtStart(old(mods)[top], p.entry, old(dataTop), old(regs).sp)
      ensures match Ran(files, old(Now()), p, |p.calls|)
              case None => stopped
              case Some(u) => !stopped && Now() == Unloaded(u, top) && regs == p.last
      decreases p, 0, |p.calls| + 1
    {
      hide Fresh, AllFresh, Ran, Called, Unloaded, LoadObj, LoadRest, Ready, Find, Wrap;
      regs := regs.(s := Wrap(dataTop + 4), l := dataTop, cs := dataTop);
      regs := regs.(g := mods[top].dataOfs, pc := p.entry);
      start := regs;
      RunCalls(files, p);
      if !stopped {
        regs := p.last;
        Unload(top);
      }
    }

    /** The calls of a program, in order. */
    method RunCalls(files: Files, p: Program)
      requires !stopped && AllFresh(files, Now(), p)
      modifies this
      ensures match Ran(files, old(Now()), p, |p.calls|)
              case None => stopped
              case Some(u) => !stopped && Now() == u
      decreases p, 0, |p.calls|
    {
      hide Fresh, Called, LoadObj, LoadRest, Ready, Find, Wrap;
      ghost var t := Now();
      var k := 0;
      while k < |p.calls| && !stopped
        invariant 0 <= k <= |p.calls|
        invariant stopped ==> Ran(files, t, p, |p.calls|) == None
        invariant !stopped ==> Ran(files, t, p, k) == Some(Now())
      {
        regs := p.calls[k].at;
        var _ := CallProgram(files, p.calls[k].program);
        k := k + 1;
        if stopped {
          RanNone(files, t, p, k, |p.calls|);
        }
      }
    }
  }

  lemma {:induction false} FreshLow(files: Files, t: Table, p: Program, s: word)
    requires Fresh(files, t, p, s)
    ensures Ready(files, Table(t.mods, s)) && NotLoaded(t.mods, p.name)
  {
  }

  /** A program that has been loaded has the first free place. */
  lemma {:induction false} OwnPlace(files: Files, t: Table, n: Name)
    requires Ready(files, t) && Find(t.mods, n) == |t.mods| && NotLoaded(t.mods, n) && LoadObj(files, t, n).Whole?
    ensures |t.mods| < |LoadObj(files, t, n).t.mods|
  {
    hide Parsed, Left, Find, LoadRest;
    ParsedKeeps(t, files[n]);
    ParsedLoads(files, t, n);
  }

  lemma {:induction false} RanNone(files: Files, t: Table, p: Program, k: nat, n: nat)
    requires k <= n <= |p.calls| && Ran(files, t, p, k) == None
    ensures Ran(files, t, p, n) == None
  {
    hide Called;
    if k < n {
      RanNone(files, t, p, k, n - 1);
    }
  }

  lemma {:induction false} FewEntries(files: Files, t: Table, i: nat)
    requires Ready(files, t) && i < |t.mods|
    ensures i < MOD_TAB_MAX && (!t.mods[i].loaded ==> NotLoaded(t.mods, t.mods[i].id.name))
  {
  }

  lemma {:induction false} NoneLater(mods: seq<Entry>, ids: seq<Id>, k: nat)
    requires k <= |ids| && EnterAll(mods, ids[..k]) == None
    ensures EnterAll(mods, ids) == None
    decreases |ids| - k
  {
    if k == |ids| {
      assert ids[..k] == ids;
    } else {
      assert ids[..k + 1][..k] == ids[..k];
      NoneLater(mods, ids, k + 1);
    }
  }
}
