/** Reading a symbol file back, and what comes out of it. */
module SymRead {
  import opened Words
  import opened Options
  import opened SymFile

  /** The structures read so far, in the order of their numbers, the parameters and fields that
      wait for their structure, the objects, and the numbers in the module marks. */
  datatype Reader = Reader(structs: Graph, params: seq<Param>, fields: seq<Field>, objs: seq<Obj>, marks: seq<word>)

  /** What a whole file gives: its module, and where the data and the procedures that follow begin. */
  datatype Unit = Unit(r: Reader, adr: word, pno: word)

  datatype Block = Block(r: Reader, rest: seq<word>)

  const START := Reader([], [], [], [], [])

  /** `Struct[s]`, where it has been set. */
  function StructAt(r: Reader, s: word): Option<Type> {
    if StdNumber(s) then Some(Std(s))
    else if MIN_S <= s < MIN_S + |r.structs| then Some(Own(s - MIN_S))
    else None
  }

  // -------------------------------------------------------------------- names

  /** n bytes, two in each word, the last one alone when n is odd. */
  function TakeBytes(ws: seq<word>, n: nat): Option<(seq<byte>, seq<word>)> {
    if n == 0 then Some(([], ws))
    else if ws == [] then None
    else if n == 1 then Some(([ws[0] / 0x100], ws[1..]))
    else
      var more :- TakeBytes(ws[1..], n - 2);
      Some(([ws[0] / 0x100, ws[0] % 0x100] + more.0, more.1))
  }

  /** `ReadId`. */
  function ReadName(ws: seq<word>): Option<(seq<byte>, seq<word>)> {
    if ws == [] || ws[0] < 0x100 then None else TakeBytes(ws, ws[0] / 0x100)
  }

  lemma {:induction false} TakesPair(n: seq<byte>, rest: seq<word>)
    requires |n| >= 2
    ensures TakeBytes(NameWords(n) + rest, |n|)
         == match TakeBytes(NameWords(n[2..]) + rest, |n| - 2) case None => None case Some(x) => Some(([n[0], n[1]] + x.0, x.1))
  {
    assert (NameWords(n) + rest)[1..] == NameWords(n[2..]) + rest;
  }

  lemma {:induction false} TakenBytes(n: seq<byte>, rest: seq<word>)
    ensures TakeBytes(NameWords(n) + rest, |n|) == Some((n, rest))
    decreases |n|
  {
    if n == [] {
      assert NameWords(n) + rest == rest;
    } else if |n| == 1 {
      assert (NameWords(n) + rest)[1..] == rest && n == [n[0]];
    } else {
      TakenBytes(n[2..], rest);
      TakesPair(n, rest);
      hide TakeBytes, NameWords;
      assert [n[0], n[1]] + n[2..] == n;
    }
  }

  /** `ReadId` undoes `WriteId`. */
  lemma {:induction false} NameRoundTrip(n: seq<byte>, rest: seq<word>)
    requires Named(n)
    ensures ReadName(NameWords(n) + rest) == Some((n, rest))
  {
    TakenBytes(n, rest);
  }

  // ------------------------------------------------------------------- blocks

  predicate FieldNamed(fs: seq<Field>, n: seq<byte>) {
    exists k :: 0 <= k < |fs| && fs[k].name == n
  }

  predicate ObjNamed(os: seq<Obj>, n: seq<byte>) {
    exists k :: 0 <= k < |os| && os[k].name == n
  }

  /** A new structure takes the next number, if there is one. */
  function AddStruct(r: Reader, s: Struct, rest: seq<word>): Option<Block> {
    if MIN_S + |r.structs| > MAX_S then None else Some(Block(r.(structs := r.structs + [s]), rest))
  }

  function ReadObj(ws: seq<word>, r: Reader): Option<Block>
    requires |ws| > 0 && ws[0] >= OBJ
  {
    if |ws| < 4 then None
    else
      var t :- StructAt(r, ws[1]);
      if ws[0] == OBJ + 4 && ws[2] == 0 then
        var n :- ReadName(ws[3..]);
        if ObjNamed(r.objs, n.0) then None else Some(Block(r.(objs := r.objs + [TypeObj(n.0, t)]), n.1))
      else if ws[0] == OBJ + 1 then
        var n :- ReadName(ws[4..]);
        if ObjNamed(r.objs, n.0) then None else Some(Block(r.(objs := r.objs + [VarObj(n.0, t, ws[2], ws[3])]), n.1))
      else None
  }

  function ReadPart(ws: seq<word>, r: Reader): Option<Block>
    requires |ws| > 0 && CMP <= ws[0] < OBJ
  {
    if |ws| < 2 then None
    else
      var t :- StructAt(r, ws[1]);
      if ws[0] == CMP + 2 then
        if |ws| < 3 then None
        else
          var n :- ReadName(ws[3..]);
          if FieldNamed(r.fields, n.0) then None else Some(Block(r.(fields := r.fields + [Field(n.0, t, ws[2])]), n.1))
      else if ws[0] <= CMP + 1 then
        Some(Block(r.(params := r.params + [Param(ws[0] == CMP, t)]), ws[2..]))
      else None
  }

  function ReadStruct(ws: seq<word>, r: Reader): Option<Block>
    requires |ws| > 0 && STR <= ws[0] < CMP
  {
    if |ws| < 2 then None
    else
      var k, size := ws[0] - STR, ws[1];
      if k == 0 && |ws| >= 3 then AddStruct(r, Struct(size, Enum(ws[2])), ws[3..])
      else if k == 1 && |ws| >= 5 then
        var b :- StructAt(r, ws[2]);
        AddStruct(r, Struct(size, Range(b, ws[3], ws[4])), ws[5..])
      else if k == 2 then AddStruct(r, Struct(size, Pointer(None)), ws[2..])
      else if k == 3 && |ws| >= 3 then
        var b :- StructAt(r, ws[2]);
        AddStruct(r, Struct(size, Form.Set(b)), ws[3..])
      else if k == 4 then AddStruct(r.(params := []), Struct(size, ProcTyp(r.params, None)), ws[2..])
      else if k == 5 && |ws| >= 3 then
        var b :- StructAt(r, ws[2]);
        AddStruct(r.(params := []), Struct(size, ProcTyp(r.params, Some(b))), ws[3..])
      else if k == 6 && |ws| >= 4 then
        var e :- StructAt(r, ws[2]);
        var i :- StructAt(r, ws[3]);
        AddStruct(r, Struct(size, Array(e, i)), ws[4..])
      else if k == 7 && |ws| >= 3 then
        var e :- StructAt(r, ws[2]);
        AddStruct(r, Struct(size, DynArray(e)), ws[3..])
      else if k == 8 then AddStruct(r.(fields := []), Struct(size, Record(r.fields)), ws[2..])
      else if k == 9 then AddStruct(r, Struct(size, Opaque), ws[2..])
      else None
  }

  /** A pointer gets its base, unless it has one. */
  function Link(r: Reader, p: nat, t: Type): Option<Reader> {
    if p < |r.structs| && r.structs[p].form.Pointer? then
      if r.structs[p].form.to.Some? then Some(r)
      else Some(r.(structs := r.structs[p := Struct(r.structs[p].size, Pointer(Some(t)))]))
    else None
  }

  function ReadControl(ws: seq<word>, r: Reader): Option<Block>
    requires |ws| > 0
  {
    if ws[0] == CTL + LINKAGE && |ws| >= 3 then
      var t :- StructAt(r, ws[1]);
      if ws[2] < MIN_S then None
      else
        var x :- Link(r, ws[2] - MIN_S, t);
        Some(Block(x, ws[3..]))
    else if ws[0] == CTL + MOD_TAG && |ws| >= 2 then Some(Block(r.(marks := r.marks + [ws[1]]), ws[2..]))
    else None
  }

  lemma {:induction false} TakesSome(ws: seq<word>, n: nat)
    requires TakeBytes(ws, n).Some?
    ensures |TakeBytes(ws, n).value.1| <= |ws|
    decreases n
  {
    if n > 1 && ws != [] {
      TakesSome(ws[1..], n - 2);
    }
  }

  lemma {:induction false} NameShorter(ws: seq<word>)
    requires ReadName(ws).Some?
    ensures |ReadName(ws).value.1| <= |ws|
  {
    TakesSome(ws, ws[0] / 0x100);
  }

  function ReadBlock(ws: seq<word>, r: Reader): (o: Option<Block>)
    requires |ws| > 0
    ensures o.Some? ==> |o.value.rest| < |ws|
  {
    if ws[0] >= OBJ then
      assert forall k {:trigger ws[k..]} :: 0 <= k <= |ws| && ReadName(ws[k..]).Some? ==> |ReadName(ws[k..]).value.1| <= |ws| - k by {
        Shorter(ws);
      }
      ReadObj(ws, r)
    else if ws[0] >= CMP then
      assert forall k {:trigger ws[k..]} :: 0 <= k <= |ws| && ReadName(ws[k..]).Some? ==> |ReadName(ws[k..]).value.1| <= |ws| - k by {
        Shorter(ws);
      }
      ReadPart(ws, r)
    else if ws[0] >= STR then ReadStruct(ws, r)
    else ReadControl(ws, r)
  }

  lemma {:induction false} Shorter(ws: seq<word>)
    ensures forall k {:trigger ws[k..]} :: 0 <= k <= |ws| && ReadName(ws[k..]).Some? ==> |ReadName(ws[k..]).value.1| <= |ws| - k
  {
    forall k {:trigger ws[k..]} | 0 <= k <= |ws| && ReadName(ws[k..]).Some?
      ensures |ReadName(ws[k..]).value.1| <= |ws| - k
    {
      NameShorter(ws[k..]);
    }
  }

  /** `InRef`: block after block up to the mark that ends the file. */
  function Parse(ws: seq<word>, r: Reader): Option<Unit>
    decreases |ws|
  {
    if ws == [] then None
    else if ws[0] == CTL + REF_TAG then if |ws| >= 3 then Some(Unit(r, ws[1], ws[2])) else None
    else
      var b :- ReadBlock(ws, r);
      Parse(b.rest, b.r)
  }
}
