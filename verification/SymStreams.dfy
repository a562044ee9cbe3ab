/** The symbol file's writer and reader at work: words appended to the file and numbers stored in
    the structures; words taken from the file and structures entered into a table. */
module SymStreams {
  import opened Words
  import opened Options
  import opened SymFile
  import opened SymRead
  import F = SymFile

  class RefWriter {
    const g: Graph
    const ref: array<nat>        // the number of each structure, 0 as long as it has none
    var out: seq<word>
    var curStr: nat
    var temps: seq<Temp>
    ghost var order: seq<nat>

    ghost predicate Valid()
      reads this, ref
    {
      && ref.Length == |g| && curStr == MIN_S + |order| && Sound(g, Now())
      && forall i :: 0 <= i < |g| ==> ref[i] == RefOf(order, Own(i))
    }

    ghost function Now(): Writer
      reads this
    {
      Writer(out, order, temps)
    }

    constructor (graph: Graph)
      ensures Valid() && g == graph && Now() == Writer([], [], []) && fresh(ref)
    {
      g := graph;
      ref := new nat[|graph|](_ => 0);
      out, temps, order := [], [], [];
      curStr := MIN_S;
    }

    method WriteWord(w: word)
      modifies this`out
      ensures out == old(out) + [w]
    {
      out := out + [w];
    }

    /** `WriteId`: two bytes to a word. */
    method WriteId(n: seq<byte>)
      requires Named(n)
      modifies this`out
      ensures out == old(out) + NameWords(n)
    {
      var l, all := 0, n[0];
      while l != all
        invariant 0 <= l <= all == |n| && out + NameWords(n[l..]) == old(out) + NameWords(n)
      {
        ghost var was, rest := out, n[l..];
        var u := n[l] * 0x100 as int;
        l := l + 1;
        if l != all {
          u := u + n[l];
          l := l + 1;
        }
        WriteWord(u);
        assert n[l..] == rest[if |rest| == 1 then 1 else 2..];
        assert NameWords(rest) == [u] + NameWords(n[l..]);
        assert was + NameWords(rest) == out + NameWords(n[l..]);
      }
      assert n[l..] == [] && out + [] == out;
    }

    /** The number of a type. */
    function RefNo(t: Type): nat
      requires t.Own? ==> t.i < ref.Length
      reads ref
    {
      match t case Std(k) => k case Own(i) => ref[i]
    }

    method OutPar(ps: seq<Param>)
      requires Valid() && forall k :: 0 <= k < |ps| ==> Known(g, ps[k].typ)
      modifies this`out
      ensures Valid() && out == old(out) + ParamWords(order, ps)
    {
      var k := 0;
      assert ps[0..] == ps;
      while k < |ps|
        invariant 0 <= k <= |ps| && Valid() && out + ParamWords(order, ps[k..]) == old(out) + ParamWords(order, ps)
      {
        assert ps[k..][0] == ps[k] && ps[k..][1..] == ps[k + 1..];
        ghost var was := out;
        WriteWord(if ps[k].varpar then CMP else CMP + 1);
        WriteWord(Wrap(RefNo(ps[k].typ)));
        k := k + 1;
        assert out == was + [if ps[k - 1].varpar then CMP else CMP + 1, Wrap(RefOf(order, ps[k - 1].typ))];
        assert out + ParamWords(order, ps[k..]) == was + ParamWords(order, ps[k - 1..]);
      }
      assert ps[k..] == [] && out + [] == out;
    }

    method OutFlds(fs: seq<Field>)
      requires Valid() && forall k :: 0 <= k < |fs| ==> Known(g, fs[k].typ) && Named(fs[k].name)
      modifies this`out
      ensures Valid() && out == old(out) + FieldWords(order, fs)
    {
      hide NameWords, Named;
      var k := 0;
      assert fs[0..] == fs;
      while k < |fs|
        invariant 0 <= k <= |fs| && Valid() && out + FieldWords(order, fs[k..]) == old(out) + FieldWords(order, fs)
      {
        var f := fs[k];
        assert fs[k..][0] == f && fs[k..][1..] == fs[k + 1..];
        ghost var was := out;
        WriteWord(CMP + 2);
        WriteWord(Wrap(RefNo(f.typ)));
        WriteWord(f.offset);
        WriteId(f.name);
        k := k + 1;
        assert out == was + ([CMP + 2, Wrap(RefOf(order, f.typ)), f.offset] + NameWords(f.name));
        assert out + FieldWords(order, fs[k..]) == was + FieldWords(order, fs[k - 1..]);
      }
      assert fs[k..] == [] && out + [] == out;
    }

    /** `OutStr`. */
    method OutStr(i: nat, ghost rank: seq<nat>)
      requires Valid() && WellFormed(g, rank) && i < |g| && ref[i] == 0
      modifies this, ref
      ensures Valid() && Now() == F.OutStr(g, rank, old(Now()), i)
      decreases rank[i], |Components(g[i].form)| + 1
    {
      assert WellStructured(g, rank, i, g[i].form);
      OutEach(Components(g[i].form), rank, rank[i]);
      PutWords(i);
    }

    /** The types among ts that have no number yet, in order. */
    method OutEach(ts: seq<Type>, ghost rank: seq<nat>, ghost bound: nat)
      requires Valid() && WellFormed(g, rank) && forall k :: 0 <= k < |ts| ==> Known(g, ts[k]) && Rank(rank, ts[k]) <= bound
      modifies this, ref
      ensures Valid() && Now() == F.OutEach(g, rank, old(Now()), ts, bound)
      decreases bound, |ts|
    {
      var k := 0;
      assert ts[0..] == ts;
      while k < |ts|
        invariant 0 <= k <= |ts| && Valid() && F.OutEach(g, rank, Now(), ts[k..], bound) == F.OutEach(g, rank, old(Now()), ts, bound)
      {
        assert ts[k..][0] == ts[k] && ts[k..][1..] == ts[k + 1..];
        if RefNo(ts[k]) == 0 {
          OutStr(ts[k].i, rank);
        }
        k := k + 1;
      }
    }

    /** The words of a structure whose components have numbers. */
    method WriteStruct(s: Struct)
      requires Valid() && PartsKnown(g, s.form)
      modifies this`out
      ensures Valid() && out == old(out) + StructWords(order, s)
    {
      PartsByForm(g, s.form);
      hide Valid, PartsKnown, Components, ParamWords, FieldWords, Wrap, RefOf;
      match s.form {
        case Enum(_) => WriteSimple(s);
        case Range(_, _, _) => WriteSimple(s);
        case Pointer(_) => WriteSimple(s);
        case Set(_) => WriteSimple(s);
        case ProcTyp(ps, r) =>
          OutPar(ps);
          if r.Some? {
            PutHead(5, s.size);
            PutRef(r.value);
          } else {
            PutHead(4, s.size);
          }
        case Array(e, x) => PutHead(6, s.size); PutRef(e); PutRef(x);
        case DynArray(e) => PutHead(7, s.size); PutRef(e);
        case Record(fs) => OutFlds(fs); PutHead(8, s.size);
        case Opaque => WriteSimple(s);
      }
    }

    method WriteSimple(s: Struct)
      requires Valid() && (s.form.Enum? || s.form.Range? || s.form.Pointer? || s.form.Set? || s.form.Opaque?)
      requires (s.form.Range? || s.form.Set?) ==> Known(g, s.form.base)
      modifies this`out
      ensures Valid() && out == old(out) + StructWords(order, s)
    {
      hide Valid, ParamWords, FieldWords, Wrap, RefOf;
      if s.form.Enum? {
        PutHead(0, s.size);
        Put(s.form.consts);
      } else if s.form.Range? {
        PutHead(1, s.size);
        PutRef(s.form.base);
        Put(s.form.min);
        Put(s.form.max);
      } else if s.form.Pointer? {
        PutHead(2, s.size);
      } else if s.form.Set? {
        PutHead(3, s.size);
        PutRef(s.form.base);
      } else {
        PutHead(9, s.size);
      }
    }

    method Put(w: word)
      requires Valid()
      modifies this`out
      ensures Valid() && out == old(out) + [w]
    {
      WriteWord(w);
    }

    method PutName(n: seq<byte>)
      requires Valid() && Named(n)
      modifies this`out
      ensures Valid() && out == old(out) + NameWords(n)
    {
      WriteId(n);
    }

    method PutRef(t: Type)
      requires Valid() && Known(g, t)
      modifies this`out
      ensures Valid() && out == old(out) + [Wrap(RefOf(order, t))]
    {
      WriteWord(Wrap(RefNo(t)));
    }

    method PutHead(k: nat, size: word)
      requires Valid() && k < 10
      modifies this`out
      ensures Valid() && out == old(out) + [STR + k, size]
    {
      WriteWord(STR + k);
      WriteWord(size);
    }

    /** `OutObj`. */
    method OutObj(o: Obj, ghost rank: seq<nat>)
      requires Valid() && WellFormed(g, rank) && Known(g, o.typ) && Named(o.name)
      modifies this, ref
      ensures Valid() && Now() == F.OutObj(g, rank, old(Now()), o)
    {
      hide ObjWords;
      NumberIt(o.typ, rank);
      WriteObj(o);
    }

    method WriteObj(o: Obj)
      requires Valid() && Known(g, o.typ) && Named(o.name)
      modifies this`out
      ensures Valid() && out == old(out) + ObjWords(order, o)
    {
      hide NameWords, Named, Valid, RefOf, Known;
      Put(if o.TypeObj? then OBJ + 4 else OBJ + 1);
      PutRef(o.typ);
      if o.VarObj? {
        Put(o.lev);
        Put(o.adr);
      } else {
        Put(0);
      }
      PutName(o.name);
    }

    method NumberIt(t: Type, ghost rank: seq<nat>)
      requires Valid() && WellFormed(g, rank) && Known(g, t)
      modifies this, ref
      ensures Valid() && Now() == OutType(g, rank, old(Now()), t)
    {
      if RefNo(t) == 0 {
        OutStr(t.i, rank);
      }
    }

    /** `OutLink`: the list of pointers grows while it is worked off. */
    method OutLink(ghost rank: seq<nat>)
      requires Valid() && WellFormed(g, rank)
      modifies this, ref
      ensures Valid() && Now() == OutLinks(g, rank, old(Now()), 0)
    {
      hide LinkOut;
      var k := 0;
      while k < |temps|
        invariant Valid() && k <= |temps| && OutLinks(g, rank, Now(), k) == OutLinks(g, rank, old(Now()), 0)
        decreases Left(g, Now()), |temps| - k
      {
        LinkOne(k, rank);
        k := k + 1;
      }
    }

    method LinkOne(k: nat, ghost rank: seq<nat>)
      requires Valid() && WellFormed(g, rank) && k < |temps|
      modifies this, ref
      ensures Valid() && Now() == LinkOut(g, rank, old(Now()), k)
    {
      hide OutType, RefOf;
      var t := temps[k];
      NumberIt(t.typ, rank);
      PutLink(t);
    }

    method PutLink(t: Temp)
      requires Valid() && Known(g, t.typ)
      modifies this`out
      ensures Valid() && out == old(out) + [CTL + LINKAGE, Wrap(RefOf(order, t.typ)), Wrap(t.baseref)]
    {
      hide Valid, RefOf, Known;
      Put(CTL + LINKAGE);
      PutRef(t.typ);
      Put(Wrap(t.baseref));
    }

    /** `OutUnit` for a module. */
    method OutUnit(objs: seq<Obj>, ghost rank: seq<nat>)
      requires Valid() && WellFormed(g, rank) && ObjsKnown(g, objs)
      modifies this, ref
      ensures Valid() && Now() == OutLinks(g, rank, OutObjs(g, rank, old(Now()), objs), 0)
    {
      hide Known, Named, F.OutObj;
      ghost var start := Now();
      var k := 0;
      while k < |objs|
        invariant 0 <= k <= |objs| && Valid() && ObjsKnown(g, objs[..k]) && Now() == OutObjs(g, rank, start, objs[..k])
      {
        assert objs[..k + 1][..k] == objs[..k];
        OutObj(objs[k], rank);
        k := k + 1;
      }
      assert objs[..k] == objs;
      OutLink(rank);
    }

    /** The whole file. */
    method OutFile(objs: seq<Obj>, modno: word, adr: word, pno: word, ghost rank: seq<nat>)
      requires Valid() && Now() == Writer([], [], []) && WellFormed(g, rank) && ObjsKnown(g, objs)
      modifies this, ref
      ensures Valid() && order == F.OutUnit(g, rank, objs).order && out == FileOf(g, rank, objs, modno, adr, pno)
    {
      hide OutLinks, OutObjs, Valid, WellFormed, ObjsKnown;
      OutUnit(objs, rank);
      PutMarks(modno, adr, pno);
    }

    /** The module's mark, and `CloseRef`. */
    method PutMarks(modno: word, adr: word, pno: word)
      requires Valid()
      modifies this`out
      ensures Valid() && out == old(out) + [CTL + MOD_TAG, modno, CTL + REF_TAG, adr, pno]
    {
      hide RefOf, Known;
      WriteWord(CTL + MOD_TAG);
      WriteWord(modno);
      WriteWord(CTL + REF_TAG);
      WriteWord(adr);
      WriteWord(pno);
    }

    /** A pointer leaves its base for later; then the words of the structure, and its number. */
    method PutWords(i: nat)
      requires Valid() && i < |g| && ref[i] == 0 && PartsKnown(g, g[i].form)
      modifies this`out, this`temps, this`curStr, this`order, ref
      ensures Valid() && Now() == PutStruct(g, old(Now()), i)
    {
      hide StructWords, Components, Known, Wrap, F.StructWords, F.Components, F.FieldWords, F.IndexOf, F.ParamWords, F.Known, F.Named,
           F.FieldTypes, F.ParamTypes;
      var f := g[i].form;
      if f.Pointer? && f.to.Some? {
        temps := temps + [Temp(f.to.value, curStr)];
      }
      WriteStruct(g[i]);
      ref[i] := curStr;
      curStr := curStr + 1;
      ghost var was := order;
      order := order + [i];
      forall j | 0 <= j < |g|
        ensures ref[j] == RefOf(order, Own(j))
      {
        NextNumber(was, i, j);
      }
    }
  }

  // --------------------------------------------------------------- the reader

  class RefReader {
    const file: seq<word>
    var pos: nat
    var structs: Graph
    var params: seq<Param>
    var fields: seq<Field>
    var objs: seq<Obj>
    var marks: seq<word>
    var err: bool

    ghost predicate Valid()
      reads this
    {
      pos <= |file|
    }

    ghost function Now(): Reader
      reads this
    {
      Reader(structs, params, fields, objs, marks)
    }

    ghost function Rest(): seq<word>
      requires Valid()
      reads this
    {
      file[pos..]
    }

    /** The block that starts with the word just read has been taken as b says. */
    twostate predicate Took(b: Option<Block>)
      requires old(Valid())
      reads this
    {
      && Valid()
      && match b
         case None => err
         case Some(x) => !err && Now() == x.r && Rest() == x.rest
    }

    constructor (words: seq<word>)
      ensures Valid() && file == words && pos == 0 && Now() == START && !err
    {
      file := words;
      pos, err := 0, false;
      structs, params, fields, objs, marks := [], [], [], [], [];
    }

    method ReadWord() returns (w: word)
      requires Valid()
      modifies this`pos, this`err
      ensures Valid() && pos == (if old(pos) < |file| then old(pos) + 1 else old(pos)) && err == (old(err) || old(pos) >= |file|)
      ensures old(pos) < |file| ==> w == file[old(pos)]
    {
      w := 0;
      if pos < |file| {
        w := file[pos];
        pos := pos + 1;
      } else {
        err := true;
      }
    }

    /** `ReadId`. */
    method ReadId() returns (n: seq<byte>)
      requires Valid() && !err
      modifies this`pos, this`err
      ensures Valid()
      ensures match ReadName(old(Rest()))
              case None => err
              case Some(x) => !err && n == x.0 && Rest() == x.1
    {
      n := [];
      var u := ReadWord();
      var all := u / 0x100;
      if err || all == 0 {
        err := true;
        return;
      }
      var l := 0;
      ghost var ws := old(Rest());
      BeforeNothing(TakeBytes(ws, all));
      assert ws == file[pos - 1..];
      while true
        invariant Valid() && !err && 0 <= l < all && 0 < pos && u == file[pos - 1]
        invariant TakeBytes(ws, all) == Before(n, TakeBytes(file[pos - 1..], all - l))
        decreases all - l
      {
        ghost var here, was := file[pos - 1..], n;
        assert here[0] == u && here[1..] == file[pos..];
        n := n + [u / 0x100];
        l := l + 1;
        if l == all {
          return;
        }
        n := n + [u % 0x100];
        l := l + 1;
        assert n == was + [u / 0x100, u % 0x100];
        BeforeTwice(was, [u / 0x100, u % 0x100], TakeBytes(file[pos..], all - l));
        if l == all {
          return;
        }
        u := ReadWord();
        if err {
          return;
        }
      }
    }

    method TakeObj(b: word)
      requires Valid() && !err && 0 < pos && b == file[pos - 1] && b >= OBJ
      modifies this
      ensures Took(ReadObj(file[old(pos) - 1..], old(Now())))
    {
      ghost var ws := file[pos - 1..];
      if pos + 3 > |file| {
        err := true;
        return;
      }
      var s := ReadWord();
      var t := StructAt(Reader(structs, params, fields, objs, marks), s);
      if t == None || (b != OBJ + 4 && b != OBJ + 1) {
        err := true;
        return;
      }
      var x := ReadWord();
      if b == OBJ + 4 {
        if x != 0 {
          err := true;
          return;
        }
        assert Rest() == ws[3..];
        var n := ReadId();
        EnterObj(TypeObj(n, t.value));
      } else {
        var y := ReadWord();
        assert Rest() == ws[4..];
        var n := ReadId();
        EnterObj(VarObj(n, t.value, x, y));
      }
    }

    /** A new object, unless there is one of that name. */
    method EnterObj(o: Obj)
      requires Valid()
      modifies this`objs, this`err
      ensures Valid()
      ensures err == (old(err) || ObjNamed(old(objs), o.name)) && (!err ==> objs == old(objs) + [o])
    {
      var k := 0;
      while k < |objs|
        invariant 0 <= k <= |objs| && forall j :: 0 <= j < k ==> objs[j].name != o.name
      {
        if objs[k].name == o.name {
          err := true;
          return;
        }
        k := k + 1;
      }
      objs := objs + [o];
    }

    method TakePart(b: word)
      requires Valid() && !err && 0 < pos && b == file[pos - 1] && CMP <= b < OBJ
      modifies this
      ensures Took(ReadPart(file[old(pos) - 1..], old(Now())))
    {
      ghost var ws := file[pos - 1..];
      var s := ReadWord();
      var t := StructAt(Reader(structs, params, fields, objs, marks), s);
      if err || t == None || b > CMP + 2 {
        err := true;
      } else if b == CMP + 2 {
        var offset := ReadWord();
        if !err {
          assert Rest() == ws[3..];
          var n := ReadId();
          EnterField(Field(n, t.value, offset));
        }
      } else {
        assert Rest() == ws[2..];
        params := params + [Param(b == CMP, t.value)];
      }
    }

    method EnterField(f: Field)
      requires Valid()
      modifies this`fields, this`err
      ensures Valid()
      ensures err == (old(err) || FieldNamed(old(fields), f.name)) && (!err ==> fields == old(fields) + [f])
    {
      var k := 0;
      while k < |fields|
        invariant 0 <= k <= |fields| && forall j :: 0 <= j < k ==> fields[j].name != f.name
      {
        if fields[k].name == f.name {
          err := true;
          return;
        }
        k := k + 1;
      }
      fields := fields + [f];
    }

    /** A word that numbers a type. */
    method ReadRef() returns (t: Type)
      requires Valid()
      modifies this`pos, this`err
      ensures Valid() && pos == (if old(pos) < |file| then old(pos) + 1 else old(pos))
      ensures err == (old(err) || old(pos) >= |file| || StructAt(Now(), file[old(pos)]) == None)
      ensures !err ==> StructAt(Now(), file[old(pos)]) == Some(t)
    {
      t := Std(0);
      var s := ReadWord();
      var o := StructAt(Reader(structs, params, fields, objs, marks), s);
      if o.Some? {
        t := o.value;
      } else {
        err := true;
      }
    }

    /** A new structure gets the next number. */
    method EnterStruct(s: Struct)
      requires Valid()
      modifies this`structs, this`err
      ensures Valid() && err == (old(err) || MIN_S + |old(structs)| > MAX_S)
      ensures !err ==> structs == old(structs) + [s]
    {
      if MIN_S + |structs| > MAX_S {
        err := true;
      } else {
        structs := structs + [s];
      }
    }

    method TakeStruct(b: word)
      requires Valid() && !err && 0 < pos && b == file[pos - 1] && STR <= b < CMP
      modifies this
      ensures Took(ReadStruct(file[old(pos) - 1..], old(Now())))
    {
      var k := b - STR;
      var size := ReadWord();
      if err || k > 9 {
        err := true;
      } else if k == 1 || k == 3 || (5 <= k && k <= 7) {
        TakeRefs(k, size);
      } else {
        TakePlain(k, size);
      }
    }

    /** Structures that refer to no other, or to those read just before. */
    method TakePlain(k: nat, size: word)
      requires Valid() && !err && 1 < pos && file[pos - 2] == STR + k && file[pos - 1] == size
      requires k == 0 || k == 2 || k == 4 || k == 8 || k == 9
      modifies this
      ensures Took(ReadStruct(file[old(pos) - 2..], old(Now())))
    {
      ghost var ws := file[pos - 2..];
      assert Rest() == ws[2..];
      var form := Opaque;
      if k == 0 {
        var n := ReadWord();
        form := Enum(n);
        assert !err ==> Rest() == ws[3..];
      } else if k == 2 {
        form := Pointer(None);
      } else if k == 4 {
        form := ProcTyp(params, None);
        params := [];
      } else if k == 8 {
        form := Record(fields);
        fields := [];
      }
      EnterStruct(Struct(size, form));
    }

    /** Structures whose components are named by numbers. */
    method TakeRefs(k: nat, size: word)
      requires Valid() && !err && 1 < pos && file[pos - 2] == STR + k && file[pos - 1] == size
      requires k == 1 || k == 3 || 5 <= k <= 7
      modifies this
      ensures Took(ReadStruct(file[old(pos) - 2..], old(Now())))
    {
      ghost var ws := file[pos - 2..];
      hide StructAt;
      var t := ReadRef();
      var form := Opaque;
      if k == 1 {
        var lo := ReadWord();
        var hi := ReadWord();
        form := Range(t, lo, hi);
        assert !err ==> Rest() == ws[5..];
      } else if k == 3 {
        form := Form.Set(t);
        assert !err ==> Rest() == ws[3..];
      } else if k == 5 {
        form := ProcTyp(params, Some(t));
        params := [];
        assert !err ==> Rest() == ws[3..];
      } else if k == 6 {
        var x := ReadRef();
        form := Array(t, x);
        assert !err ==> Rest() == ws[4..];
      } else {
        form := DynArray(t);
        assert !err ==> Rest() == ws[3..];
      }
      EnterStruct(Struct(size, form));
    }

    method TakeControl(b: word)
      requires Valid() && !err && 0 < pos && b == file[pos - 1] && b < STR && b != CTL + REF_TAG
      modifies this
      ensures Took(ReadControl(file[old(pos) - 1..], old(Now())))
    {
      ghost var ws := file[pos - 1..];
      if b == CTL + LINKAGE {
        var t := ReadRef();
        var p := ReadWord();
        if !err && MIN_S <= p < MIN_S + |structs| && structs[p - MIN_S].form.Pointer? {
          assert Rest() == ws[3..];
          var s := structs[p - MIN_S];
          if s.form.to == None {
            structs := structs[p - MIN_S := Struct(s.size, Pointer(Some(t)))];
          }
        } else {
          err := true;
        }
      } else if b == CTL + MOD_TAG {
        var m := ReadWord();
        marks := marks + [m];
        assert !err ==> Rest() == ws[2..];
      } else {
        err := true;
      }
    }

    /** One block. */
    method TakeBlock(b: word)
      requires Valid() && !err && 0 < pos && b == file[pos - 1] && b != CTL + REF_TAG
      modifies this
      ensures Took(ReadBlock(file[old(pos) - 1..], old(Now())))
    {
      hide ReadObj, ReadPart, ReadStruct, ReadControl;
      if b >= OBJ {
        TakeObj(b);
      } else if b >= CMP {
        TakePart(b);
      } else if b >= STR {
        TakeStruct(b);
      } else {
        TakeControl(b);
      }
    }

    /** `InRef`. */
    method InRef() returns (adr: word, pno: word)
      requires Valid() && !err
      modifies this
      ensures Valid()
      ensures match Parse(old(Rest()), old(Now()))
              case None => err
              case Some(u) => !err && u == Unit(Now(), adr, pno)
    {
      hide ReadBlock;
      adr, pno := 0, 0;
      ghost var goal := Parse(Rest(), Now());
      var b := ReadWord();
      while !err && b != CTL + REF_TAG
        invariant Valid() && (err ==> goal == None)
        invariant !err ==> 0 < pos && b == file[pos - 1] && Parse(file[pos - 1..], Now()) == goal
        decreases if err then 0 else |file| - pos + 1
      {
        ghost var ws := file[pos - 1..];
        TakeBlock(b);
        if !err {
          b := ReadWord();
        }
      }
      if !err {
        adr := ReadWord();
        pno := ReadWord();
      }
    }
  }

  function Before(n: seq<byte>, o: Option<(seq<byte>, seq<word>)>): Option<(seq<byte>, seq<word>)> {
    match o case None => None case Some(x) => Some((n + x.0, x.1))
  }

  lemma {:induction false} BeforeNothing(o: Option<(seq<byte>, seq<word>)>)
    ensures Before([], o) == o
  {
    if o.Some? {
      assert [] + o.value.0 == o.value.0;
    }
  }

  lemma {:induction false} BeforeTwice(a: seq<byte>, b: seq<byte>, o: Option<(seq<byte>, seq<word>)>)
    ensures Before(a, Before(b, o)) == Before(a + b, o)
  {
    if o.Some? {
      assert a + (b + o.value.0) == a + b + o.value.0;
    }
  }

  /** The last type numbered has the last number, and all others keep theirs. */
  lemma {:induction false} NextNumber(order: seq<nat>, i: nat, j: nat)
    requires i !in order
    ensures RefOf(order + [i], Own(j)) == if j == i then MIN_S + |order| else RefOf(order, Own(j))
  {
    if order != [] {
      NextNumber(order[1..], i, j);
      assert (order + [i])[1..] == order[1..] + [i];
    }
  }

  predicate PartsKnown(g: Graph, f: Form) {
    && (forall k :: 0 <= k < |Components(f)| ==> Known(g, Components(f)[k]))
    && (f.Record? ==> forall k :: 0 <= k < |f.fields| ==> Named(f.fields[k].name))
    && (f.Pointer? && f.to.Some? ==> Known(g, f.to.value))
  }

  lemma {:induction false} PartsByForm(g: Graph, f: Form)
    requires PartsKnown(g, f)
    ensures match f
            case Enum(_) => true
            case Range(b, _, _) => Known(g, b)
            case Pointer(_) => true
            case Set(b) => Known(g, b)
            case ProcTyp(ps, r) => (forall k :: 0 <= k < |ps| ==> Known(g, ps[k].typ)) && (r.Some? ==> Known(g, r.value))
            case Array(e, x) => Known(g, e) && Known(g, x)
            case DynArray(e) => Known(g, e)
            case Record(fs) => forall k :: 0 <= k < |fs| ==> Known(g, fs[k].typ) && Named(fs[k].name)
            case Opaque => true
  {
    var cs := Components(f);
    match f
    case Enum(_) =>
    case Range(b, _, _) => assert cs[0] == b;
    case Pointer(_) =>
    case Set(b) => assert cs[0] == b;
    case ProcTyp(ps, r) =>
      assert forall k :: 0 <= k < |ps| ==> ps[k].typ == cs[k];
      assert r.Some? ==> cs[|ps|] == r.value;
    case Array(e, x) => assert cs[0] == e && cs[1] == x;
    case DynArray(e) => assert cs[0] == e;
    case Record(fs) => assert forall k :: 0 <= k < |fs| ==> fs[k].typ == cs[k];
    case Opaque =>
  }
}
