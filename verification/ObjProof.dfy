/** Object writer and loader undo each other, and relocation changes exactly what it should. */
module ObjProof {
  import opened Words
  import opened Options
  import opened ObjFile

  // --------------------------------------------------------------- small pieces

  lemma {:induction false} WordBack(n: int, rest: seq<byte>)
    ensures WordOf(W(n) + rest, 0) == Wrap(n) && (W(n) + rest)[2..] == rest
  {
    JoinBytes(Wrap(n));
  }

  lemma {:induction false} WordsBack(ws: seq<word>, rest: seq<byte>)
    ensures WordsOf(WordBytes(ws) + rest, |ws|) == ws
    decreases |ws|
  {
    if ws != [] {
      assert WordBytes(ws) + rest == W(ws[0]) + (WordBytes(ws[1..]) + rest);
      WordBack(ws[0], WordBytes(ws[1..]) + rest);
      WordsBack(ws[1..], rest);
    }
  }

  lemma {:induction false} PaddingLen(n: nat)
    ensures |Padding(n)| == if n < 15 then 16 - n - n % 2 else 0
    decreases 15 - n
  {
    if n < 15 {
      PaddingLen(n + 2);
    }
  }

  /** A name takes 16 bytes if and only if it has no more than 16 characters. */
  lemma {:induction false} NameLen(name: seq<byte>)
    ensures |NameBytes(name)| == 16 <==> |name| <= NAME_MAX
  {
    PaddingLen(|name|);
  }

  predicate IdFits(i: Id) {
    |i.name| <= NAME_MAX && |i.key| == 3
  }

  function Stored(i: Id): ModId {
    ModId(NameBytes(i.name), WordBytes(i.key))
  }

  lemma {:induction false} IdBack(i: Id, rest: seq<byte>)
    requires IdFits(i)
    ensures |IdBytes(i)| == 22 && IdOf(IdBytes(i) + rest) == Stored(i)
  {
    NameLen(i.name);
    var b := IdBytes(i) + rest;
    assert b[..16] == NameBytes(i.name) && b[16..22] == WordBytes(i.key);
  }

  function StoredAll(ids: seq<Id>): (r: seq<ModId>)
    ensures |r| == |ids| && forall k :: 0 <= k < |ids| ==> r[k] == Stored(ids[k])
  {
    seq(|ids|, k requires 0 <= k < |ids| => Stored(ids[k]))
  }

  lemma {:induction false} IdsBack(ids: seq<Id>, rest: seq<byte>)
    requires forall k :: 0 <= k < |ids| ==> IdFits(ids[k])
    ensures |IdsBytes(ids)| == 22 * |ids| && IdsOf(IdsBytes(ids) + rest, |ids|) == StoredAll(ids)
    decreases |ids|
  {
    if ids != [] {
      var more := IdsBytes(ids[1..]) + rest;
      assert IdsBytes(ids) + rest == IdBytes(ids[0]) + more;
      IdBack(ids[0], more);
      IdsBack(ids[1..], rest);
      assert (IdBytes(ids[0]) + more)[22..] == more;
      assert StoredAll(ids) == [Stored(ids[0])] + StoredAll(ids[1..]);
    }
  }

  // ------------------------------------------------------------------ sections

  /** The bytes lead the loader from state a to state c, whatever follows them. */
  ghost predicate Loads(b: seq<byte>, a: Loading, memory: seq<word>, c: Loading) {
    forall rest: seq<byte> {:trigger b + rest} :: Parse(b + rest, a, memory) == Parse(rest, c, memory)
  }

  lemma {:induction false} LoadsTwice(b: seq<byte>, d: seq<byte>, a: Loading, m: Loading, memory: seq<word>, c: Loading)
    requires Loads(b, a, memory, m) && Loads(d, m, memory, c)
    ensures Loads(b + d, a, memory, c)
  {
    forall rest: seq<byte>
      ensures Parse(b + d + rest, a, memory) == Parse(rest, c, memory)
    {
      assert b + d + rest == b + (d + rest);
    }
  }

  lemma {:induction false} LoadsNothing(a: Loading, memory: seq<word>)
    ensures Loads([], a, memory, a)
  {
    forall rest: seq<byte>
      ensures Parse([] + rest, a, memory) == Parse(rest, a, memory)
    {
      assert [] + rest == rest;
    }
  }

  lemma {:induction false} LoadsSection(b: seq<byte>, a: Loading, memory: seq<word>, c: Loading)
    requires SectionStarts(b)
    requires forall rest: seq<byte> {:trigger b + rest} :: ReadSection(b + rest, a, memory) == Some(Section(c, rest))
    ensures Loads(b, a, memory, c)
  {
    forall rest: seq<byte>
      ensures Parse(b + rest, a, memory) == Parse(rest, c, memory)
    {
      assert WordOf(b + rest, 0) == WordOf(b, 0);
      assert ReadSection(b + rest, a, memory) == Some(Section(c, rest));
    }
  }

  /** An even number of string bytes, and sizes that fit in 16 bits. */
  predicate SizesFit(u: Unit) {
    && |u.id.key| == 3 && (forall k :: 0 <= k < |u.imports| ==> |u.imports[k].key| == 3) && 11 * |u.imports| < 0x1_0000
    && |u.strs| % 2 == 0 && DataWords(u) < 0x1_0000 && 3 <= u.adr && u.procs != []
    && 2 * |u.procs| + |FinalCode(u)| < 0x1_0000 && |u.rels| < 0x1_0000
  }

  predicate NamesFit(u: Unit) {
    |u.id.name| <= NAME_MAX && forall k :: 0 <= k < |u.imports| ==> |u.imports[k].name| <= NAME_MAX
  }

  /** The round trip holds for names of at most 16 characters, an even number of string bytes, and
      sizes that fit in 16 bits. */
  predicate Fits(u: Unit) {
    SizesFit(u) && NamesFit(u)
  }

  /** The loader's state after each section. */
  function AfterModule(u: Unit, memory: seq<word>): Loading
    requires Fits(u) && DataWords(u) <= |memory|
  {
    Blank().(id := Some(Stored(u.id)), data := memory[..DataWords(u)], code := Zeros(2 * |u.procs| + |FinalCode(u)|, 0))
  }

  lemma {:induction false} WordAt(pre: seq<byte>, n: int, rest: seq<byte>)
    ensures WordOf(pre + W(n) + rest, |pre|) == Wrap(n)
  {
    JoinBytes(Wrap(n));
  }

  /** A section that starts with words n0 and n1. */
  lemma {:induction false} TwoWords(n0: int, n1: int, more: seq<byte>, rest: seq<byte>)
    ensures var b := W(n0) + W(n1) + more + rest;
            && WordOf(b, 0) == Wrap(n0) && WordOf(b, 2) == Wrap(n1) && b[4..] == more + rest
            && WordOf(W(n0) + W(n1) + more, 0) == Wrap(n0)
  {
    hide WordOf, W;
    var b := W(n0) + W(n1) + more + rest;
    assert b == [] + W(n0) + (W(n1) + more + rest);
    WordAt([], n0, W(n1) + more + rest);
    assert b == W(n0) + W(n1) + (more + rest);
    WordAt(W(n0), n1, more + rest);
    assert W(n0) + W(n1) + more == [] + W(n0) + (W(n1) + more);
    WordAt([], n0, W(n1) + more);
  }

  lemma {:induction false} ThirdWord(n0: int, n1: int, n2: int, more: seq<byte>, rest: seq<byte>)
    ensures var b := W(n0) + W(n1) + (W(n2) + more) + rest;
            WordOf(b, 4) == Wrap(n2) && b[6..] == more + rest
  {
    hide WordOf, W;
    var b := W(n0) + W(n1) + (W(n2) + more) + rest;
    assert b == W(n0) + W(n1) + W(n2) + (more + rest);
    WordAt(W(n0) + W(n1), n2, more + rest);
  }

  lemma {:induction false} HeadLoads(memory: seq<word>)
    ensures Loads(HeadSection(), Blank(), memory, Blank())
  {
    hide W, WordOf, Loads, ReadModule;
    var b := HeadSection();
    forall rest: seq<byte> {:trigger b + rest}
      ensures ReadSection(b + rest, Blank(), memory) == Some(Section(Blank(), rest))
    {
      TwoWords(0x80, 1, W(4), rest);
      assert (b + rest)[6..] == rest;
    }
    TwoWords(0x80, 1, W(4), []);
    LoadsSection(b, Blank(), memory, Blank());
  }

  lemma {:induction false} ModuleLoads(u: Unit, memory: seq<word>)
    requires Fits(u) && DataWords(u) <= |memory|
    ensures Loads(ModuleSection(u), Blank(), memory, AfterModule(u, memory))
  {
    hide W, WordOf, Loads, IdBytes, IdOf, FinalCode, DataWords, ReadImports, ReadData, ReadProcs, ReadCode, ReadRelocs;
    var b, c := ModuleSection(u), AfterModule(u, memory);
    var n := |u.procs| + |FinalCode(u)| / 2;
    IdBack(u.id, []);
    var more := IdBytes(u.id) + W(DataWords(u)) + W(n) + W(0);
    assert b == W(0x81) + W(14) + more;
    forall rest: seq<byte> {:trigger b + rest}
      ensures ReadSection(b + rest, Blank(), memory) == Some(Section(c, rest))
    {
      TwoWords(0x81, 14, more, rest);
      var tail := W(DataWords(u)) + W(n) + W(0) + rest;
      assert more + rest == IdBytes(u.id) + tail;
      IdBack(u.id, tail);
      SizesBack(u, W(0x81) + W(14) + IdBytes(u.id), n, rest, b + rest);
      assert (b + rest)[32..] == rest;
    }
    TwoWords(0x81, 14, more, []);
    LoadsSection(b, Blank(), memory, c);
  }

  lemma {:induction false} SizesBack(u: Unit, pre: seq<byte>, n: nat, rest: seq<byte>, b: seq<byte>)
    requires Fits(u) && |pre| == 26 && b == pre + W(DataWords(u)) + W(n) + W(0) + rest && n == |u.procs| + |FinalCode(u)| / 2
    ensures |b| >= 32 && WordOf(b, 26) == DataWords(u) && Wrap(2 * WordOf(b, 28)) == 2 * |u.procs| + |FinalCode(u)|
  {
    hide W, WordOf, FinalCode, DataWords;
    assert b == pre + W(DataWords(u)) + (W(n) + W(0) + rest);
    WordAt(pre, DataWords(u), W(n) + W(0) + rest);
    assert b == (pre + W(DataWords(u))) + W(n) + (W(0) + rest);
    WordAt(pre + W(DataWords(u)), n, W(0) + rest);
  }

  lemma {:induction false} ImportLoads(u: Unit, memory: seq<word>, a: Loading)
    requires Fits(u) && a.id.Some? && a.imports == []
    ensures Loads(ImportSection(u), a, memory, a.(imports := StoredAll(u.imports)))
  {
    hide W, WordOf, Loads, IdBytes, IdsBytes, IdsOf, ReadData, ReadProcs, ReadCode, ReadRelocs;
    var c := a.(imports := StoredAll(u.imports));
    if u.imports == [] {
      LoadsNothing(a, memory);
    } else {
      var b, more := ImportSection(u), IdsBytes(u.imports);
      forall rest: seq<byte> {:trigger b + rest}
        ensures ReadSection(b + rest, a, memory) == Some(Section(c, rest))
      {
        TwoWords(0x82, 11 * |u.imports|, more, rest);
        IdsBack(u.imports, rest);
        assert (b + rest)[4 + 22 * |u.imports|..] == rest;
      }
      TwoWords(0x82, 11 * |u.imports|, more, []);
      LoadsSection(b, a, memory, c);
    }
  }

  lemma {:induction false} DataLoads(n: nat, at: nat, ws: seq<word>, bytes: seq<byte>, memory: seq<word>, a: Loading)
    requires a.id.Some? && n == |ws| && n + 1 < 0x1_0000 && at + n <= |a.data| < 0x1_0000 && |bytes| == 2 * n
    requires forall rest: seq<byte> {:trigger bytes + rest} :: WordsOf(bytes + rest, n) == ws
    ensures Loads(W(0x84) + W(n + 1) + (W(at) + bytes), a, memory, a.(data := Over(a.data, at, ws)))
  {
    hide W, WordOf, WordsOf, Loads, ReadModule, ReadImports, ReadProcs, ReadCode, ReadRelocs, Bytes, Join, Over, SectionStarts;
    var b, c := W(0x84) + W(n + 1) + (W(at) + bytes), a.(data := Over(a.data, at, ws));
    forall rest: seq<byte> {:trigger b + rest}
      ensures ReadSection(b + rest, a, memory) == Some(Section(c, rest))
    {
      TwoWords(0x84, n + 1, W(at) + bytes, rest);
      ThirdWord(0x84, n + 1, at, bytes, rest);
      assert WordsOf(bytes + rest, n) == ws;
      assert (b + rest)[6 + 2 * n..] == rest;
    }
    TwoWords(0x84, n + 1, W(at) + bytes, []);
    LoadsSection(b, a, memory, c);
  }

  lemma {:induction false} ProcsRead(b: seq<byte>, a: Loading, memory: seq<word>, n: nat, es: seq<word>, rest: seq<byte>)
    requires |b| >= 6 + 2 * n && n + 1 < 0x1_0000 && WordOf(b, 0) == 0x83 && WordOf(b, 2) == n + 1 && WordOf(b, 4) == 0
    requires WordsOf(b[6..], n) == es && b[6 + 2 * n..] == rest && a.procs == [] && a.procSection && a.id.Some?
    ensures ReadSection(b, a, memory) == Some(Section(a.(procs := Numbered(0, es), procSection := false), rest))
  {
    hide WordOf, WordsOf, Numbered, ReadModule, ReadImports, ReadData, ReadCode, ReadRelocs;
    assert [] + Numbered(0, es) == Numbered(0, es);
  }

  lemma {:induction false} ProcLoads(u: Unit, memory: seq<word>, a: Loading)
    requires Fits(u) && a.id.Some? && a.procs == [] && a.procSection
    ensures Loads(ProcSection(u), a, memory, a.(procs := Numbered(0, Shifted(u.procs, 2 * |u.procs|)), procSection := false))
  {
    hide W, WordOf, WordsOf, WordBytes, Loads, ReadModule, ReadImports, ReadData, ReadCode, ReadRelocs, Numbered, Shifted;
    var es := Shifted(u.procs, 2 * |u.procs|);
    var n, bytes := |u.procs|, WordBytes(es);
    var b, c := ProcSection(u), a.(procs := Numbered(0, es), procSection := false);
    assert b == W(0x83) + W(n + 1) + (W(0) + bytes);
    forall rest: seq<byte> {:trigger b + rest}
      ensures ReadSection(b + rest, a, memory) == Some(Section(c, rest))
    {
      TwoWords(0x83, n + 1, W(0) + bytes, rest);
      ThirdWord(0x83, n + 1, 0, bytes, rest);
      WordsBack(es, rest);
      assert (b + rest)[6 + 2 * n..] == rest;
      ProcsRead(b + rest, a, memory, n, es, rest);
    }
    TwoWords(0x83, n + 1, W(0) + bytes, []);
    LoadsSection(b, a, memory, c);
  }

  lemma {:induction false} CodeLoads(u: Unit, memory: seq<word>, a: Loading)
    requires Fits(u) && a.id.Some? && !a.procSection && |a.code| == 2 * |u.procs| + |FinalCode(u)|
    ensures Loads(CodeSection(u), a, memory, a.(code := Over(a.code, 2 * |u.procs|, FinalCode(u)), procSection := true))
  {
    var code := FinalCode(u);
    hide W, WordOf, WordsOf, FinalCode, Loads, ReadModule, ReadImports, ReadData, ReadProcs, ReadRelocs;
    var n := |code| / 2;
    var b, c := CodeSection(u), a.(code := Over(a.code, 2 * |u.procs|, code), procSection := true);
    assert b == W(0x83) + W(n + 1) + (W(|u.procs|) + code);
    forall rest: seq<byte> {:trigger b + rest}
      ensures ReadSection(b + rest, a, memory) == Some(Section(c, rest))
    {
      TwoWords(0x83, n + 1, W(|u.procs|) + code, rest);
      ThirdWord(0x83, n + 1, |u.procs|, code, rest);
      CodeSizes(n, |u.procs|);
      assert (b + rest)[6..6 + |code|] == (code + rest)[..|code|] == code;
      assert (b + rest)[6 + |code|..] == rest;
    }
    TwoWords(0x83, n + 1, W(|u.procs|) + code, []);
    LoadsSection(b, a, memory, c);
  }

  lemma {:induction false} CodeSizes(n: nat, pno: nat)
    requires 0 < n && 2 * pno + 2 * n < 0x1_0000
    ensures Wrap(Wrap(2 * Wrap(n + 1)) - 2) == 2 * n && Wrap(2 * Wrap(pno)) == 2 * pno
  {
    assert Wrap(n + 1) == n + 1;
    if 2 * (n + 1) >= 0x1_0000 {
      assert Wrap(2 * (n + 1)) == 0;
      assert 2 * n == 0xFFFE;
    }
  }

  lemma {:induction false} RelocLoads(u: Unit, memory: seq<word>, a: Loading)
    requires Fits(u) && a.id.Some? && a.procs != [] && a.fixups == []
    ensures Loads(RelocSection(u), a, memory, a.(fixups := Shifted(u.rels, 2 * |u.procs|)))
  {
    hide W, WordOf, WordsOf, WordBytes, Loads, ReadModule, ReadImports, ReadData, ReadCode, ReadProcs;
    var ls := Shifted(u.rels, 2 * |u.procs|);
    var c := a.(fixups := ls);
    if u.rels == [] {
      LoadsNothing(a, memory);
    } else {
      var b, bytes := RelocSection(u), WordBytes(ls);
      forall rest: seq<byte> {:trigger b + rest}
        ensures ReadSection(b + rest, a, memory) == Some(Section(c, rest))
      {
        TwoWords(0x85, |u.rels|, bytes, rest);
        WordsBack(ls, rest);
        assert (b + rest)[4 + 2 * |u.rels|..] == rest;
      }
      TwoWords(0x85, |u.rels|, bytes, []);
      LoadsSection(b, a, memory, c);
    }
  }

  // ------------------------------------------------------------- the round trip

  lemma {:induction false} WordsBefore(b: seq<byte>, rest: seq<byte>, n: nat)
    requires 2 * n <= |b|
    ensures WordsOf(b + rest, n) == WordsOf(b, n)
    decreases n
  {
    if n > 0 {
      WordsBefore(b[2..], rest, n - 1);
      assert (b + rest)[2..] == b[2..] + rest;
    }
  }

  /** The data of the loaded module: its flag and the word behind it are 0, the string constants lie
      behind the variables and the structured data, and the rest is what the memory held before. */
  function LoadedData(u: Unit, memory: seq<word>): (d: seq<word>)
    requires SizesFit(u) && DataWords(u) <= |memory|
    ensures |d| == DataWords(u)
  {
    Over(Over(memory[..DataWords(u)], 1, [0, 0]), u.adr + u.datasize, WordsOf(u.strs, |u.strs| / 2))
  }

  /** What the loader makes of the module: everything the generator knew about it, with entry points
      and relocations moved up by the length of the procedure table. */
  function Rebuilt(u: Unit, memory: seq<word>): Loading
    requires SizesFit(u) && DataWords(u) <= |memory|
  {
    Loading(Some(Stored(u.id)), LoadedData(u, memory), Zeros(2 * |u.procs|, 0) + FinalCode(u), StoredAll(u.imports),
            Numbered(0, Shifted(u.procs, 2 * |u.procs|)), Shifted(u.rels, 2 * |u.procs|), true)
  }

  lemma {:induction false} TwoZeros()
    ensures WordBytes([0, 0]) == W(0) + W(0) && FlagSection() == W(0x84) + W(2 + 1) + (W(1) + WordBytes([0, 0]))
  {
    assert WordBytes([0, 0]) == W(0) + (W(0) + []);
  }

  lemma {:induction false} FlagLoads(u: Unit, memory: seq<word>, a: Loading)
    requires Fits(u) && a.id.Some? && |a.data| == DataWords(u)
    ensures Loads(FlagSection(), a, memory, a.(data := Over(a.data, 1, [0, 0])))
  {
    hide Loads, W, WordsOf, FinalCode, Over;
    assert DataWords(u) >= 3;
    var bytes := WordBytes([0, 0]);
    TwoZeros();
    forall rest: seq<byte> {:trigger bytes + rest}
      ensures WordsOf(bytes + rest, 2) == [0, 0]
    {
      WordsBack([0, 0], rest);
    }
    DataLoads(2, 1, [0, 0], bytes, memory, a);
  }

  lemma {:induction false} StringLoads(u: Unit, memory: seq<word>, a: Loading)
    requires Fits(u) && a.id.Some? && |a.data| == DataWords(u)
    ensures Loads(StringSection(u), a, memory, a.(data := Over(a.data, u.adr + u.datasize, WordsOf(u.strs, |u.strs| / 2))))
  {
    var n, at := |u.strs| / 2, u.adr + u.datasize;
    var ws := WordsOf(u.strs, n);
    if u.strs == [] {
      LoadsNothing(a, memory);
      assert Over(a.data, at, ws) == a.data;
    } else {
      forall rest: seq<byte> {:trigger u.strs + rest}
        ensures WordsOf(u.strs + rest, n) == ws
      {
        WordsBefore(u.strs, rest, n);
      }
      DataLoads(n, at, ws, u.strs, memory, a);
      assert StringSection(u) == W(0x84) + W(n + 1) + (W(at) + u.strs);
    }
  }

  lemma {:induction false} CodeAbove(n: nat, code: seq<byte>)
    ensures Over(Zeros(n + |code|, 0), n, code) == Zeros(n, 0) + code
  {
  }

  /** Loading what was written rebuilds the module. */
  lemma {:induction false} RoundTrip(u: Unit, memory: seq<word>)
    requires Fits(u) && DataWords(u) <= |memory|
    ensures Parse(FileOf(u), Blank(), memory) == Some(Rebuilt(u, memory))
  {
    hide Loads, ModuleSection, ImportSection, FlagSection, StringSection, ProcSection, CodeSection, RelocSection, HeadSection,
         FinalCode, WordsOf, W, Numbered, Shifted, StoredAll;
    var s0, s1 := Blank(), AfterModule(u, memory);
    var s2 := s1.(imports := StoredAll(u.imports));
    var s3 := s2.(data := Over(s2.data, 1, [0, 0]));
    var s4 := s3.(data := LoadedData(u, memory));
    var s5 := s4.(procs := Numbered(0, Shifted(u.procs, 2 * |u.procs|)), procSection := false);
    var s6 := s5.(code := Over(s5.code, 2 * |u.procs|, FinalCode(u)), procSection := true);
    var s7 := s6.(fixups := Shifted(u.rels, 2 * |u.procs|));
    HeadLoads(memory);
    ModuleLoads(u, memory);
    ImportLoads(u, memory, s1);
    FlagLoads(u, memory, s2);
    StringLoads(u, memory, s3);
    ProcLoads(u, memory, s4);
    CodeLoads(u, memory, s5);
    RelocLoads(u, memory, s6);
    CodeAbove(2 * |u.procs|, FinalCode(u));
    AllLoad(u, memory, s1, s2, s3, s4, s5, s6, s7);
    LoadedFile(FileOf(u), s0, memory, s7);
    assert s7.code == Rebuilt(u, memory).code;
    assert s7.data == Rebuilt(u, memory).data;
    assert s7.procs == Rebuilt(u, memory).procs;
    assert s7 == Rebuilt(u, memory);
  }

  /** The code as it is written, byte by byte. */
  lemma {:induction false} FinalIs(u: Unit)
    ensures var c, n := FinalCode(u), |u.code|;
            && |c| == n + (if n % 2 == 0 then 2 else 1)
            && (forall k :: 0 <= k < n && k != 7 ==> c[k] == u.code[k])
            && (n != 7 ==> c[n] == 0xEC) && (n % 2 == 0 && n != 6 ==> c[n + 1] == 0xDE) && (n >= 6 ==> c[7] == u.adr % 0x100)
  {
  }

  lemma {:induction false} PaddingZero(n: nat)
    ensures forall k :: 0 <= k < |Padding(n)| ==> Padding(n)[k] == 0
    decreases 15 - n
  {
    if n < 15 {
      PaddingZero(n + 2);
    }
  }

  lemma {:induction false} WordBytesAt(ws: seq<word>, k: nat)
    requires k < |ws|
    ensures WordBytes(ws)[2 * k] == ws[k] / 0x100 && WordBytes(ws)[2 * k + 1] == ws[k] % 0x100
    decreases |ws|
  {
    if k > 0 {
      WordBytesAt(ws[1..], k - 1);
    }
  }

  lemma {:induction false} WordsOfAt(b: seq<byte>, n: nat, k: nat)
    requires k < n && 2 * n <= |b|
    ensures WordsOf(b, n)[k] == Join(b[2 * k], b[2 * k + 1])
    decreases n
  {
    if k > 0 {
      WordsOfAt(b[2..], n - 1, k - 1);
    }
  }

  /** The identification of a module as the loader has it: the name filled up with zeros to 16 bytes, and
      the three words of the key, high byte first. */
  predicate Identifies(x: ModId, i: Id) {
    && |x.name| == 16 && |x.key| == 2 * |i.key| && |i.name| <= 16
    && (forall k :: 0 <= k < 16 ==> x.name[k] == if k < |i.name| then i.name[k] else 0)
    && (forall k :: 0 <= k < |i.key| ==> x.key[2 * k] == i.key[k] / 0x100 && x.key[2 * k + 1] == i.key[k] % 0x100)
  }

  lemma {:induction false} StoredIs(i: Id)
    requires IdFits(i)
    ensures Identifies(Stored(i), i)
  {
    NameLen(i.name);
    PaddingZero(|i.name|);
    forall k | 0 <= k < |i.key|
      ensures WordBytes(i.key)[2 * k] == i.key[k] / 0x100 && WordBytes(i.key)[2 * k + 1] == i.key[k] % 0x100
    {
      WordBytesAt(i.key, k);
    }
    hide WordBytes, Padding;
  }

  /** The data: words 1 and 2 are 0, the strings stand behind all variables, and all other words are what
      memory held. */
  predicate IsData(u: Unit, memory: seq<word>, d: seq<word>) {
    var at := u.adr + u.datasize;
    && 3 <= u.adr && |d| == at + |u.strs| / 2 <= |memory| && d[1] == 0 && d[2] == 0
    && (forall k :: 0 <= k < |u.strs| / 2 ==> d[at + k] == Join(u.strs[2 * k], u.strs[2 * k + 1]))
    && (forall k :: 0 <= k < at && k != 1 && k != 2 ==> d[k] == memory[k])
  }

  lemma {:induction false} DataDelivered(u: Unit, memory: seq<word>)
    requires Fits(u) && DataWords(u) <= |memory|
    ensures Parse(FileOf(u), Blank(), memory).Some? && IsData(u, memory, Parse(FileOf(u), Blank(), memory).value.data)
  {
    hide Parse, FinalCode, FileOf, WordsOf;
    RoundTrip(u, memory);
    var n := |u.strs| / 2;
    forall k | 0 <= k < n
      ensures WordsOf(u.strs, n)[k] == Join(u.strs[2 * k], u.strs[2 * k + 1])
    {
      WordsOfAt(u.strs, n, k);
    }
  }

  /** Identification, imports, entry points and relocations: the same modules by name and key, the entry
      points numbered in their order, and both kinds of places moved behind the table of entry points. */
  predicate HasTables(u: Unit, x: Loading) {
    var e := 2 * |u.procs|;
    && x.id.Some? && Identifies(x.id.value, u.id)
    && |x.imports| == |u.imports| && (forall k :: 0 <= k < |u.imports| ==> Identifies(x.imports[k], u.imports[k]))
    && |x.procs| == |u.procs| < 0x1_0000 && (forall k :: 0 <= k < |u.procs| ==> x.procs[k] == Proc(k, Wrap(u.procs[k] + e)))
    && |x.fixups| == |u.rels| && (forall k :: 0 <= k < |u.rels| ==> x.fixups[k] == Wrap(u.rels[k] + e))
  }

  lemma {:induction false} TablesDelivered(u: Unit, memory: seq<word>)
    requires Fits(u) && DataWords(u) <= |memory|
    ensures Parse(FileOf(u), Blank(), memory).Some? && HasTables(u, Parse(FileOf(u), Blank(), memory).value)
  {
    hide Parse, FinalCode, FileOf, Wrap, Stored, Identifies, LoadedData;
    RoundTrip(u, memory);
    StoredIs(u.id);
    forall k | 0 <= k < |u.imports|
      ensures Identifies(Stored(u.imports[k]), u.imports[k])
    {
      StoredIs(u.imports[k]);
    }
    Numbers(|u.procs|);
  }

  lemma {:induction false} Numbers(n: nat)
    requires n < 0x1_0000
    ensures forall k :: 0 <= k < n ==> Wrap(k) == k
  {
  }

  /** The code that the loader delivers: behind the table of entry points, the module's code with the
      number of its last variable in the prologue, RTN, and a NOP where RTN leaves an odd length. */
  predicate IsCode(u: Unit, c: seq<byte>) {
    var e, n := 2 * |u.procs|, |u.code|;
    && |c| == e + n + (if n % 2 == 0 then 2 else 1)
    && (forall k :: 0 <= k < n && k != 7 ==> c[e + k] == u.code[k])
    && (n != 7 ==> c[e + n] == 0xEC) && (n % 2 == 0 && n != 6 ==> c[e + n + 1] == 0xDE) && (n >= 6 ==> c[e + 7] == u.adr % 0x100)
  }

  lemma {:induction false} CodeDelivered(u: Unit, memory: seq<word>)
    requires Fits(u) && DataWords(u) <= |memory|
    ensures Parse(FileOf(u), Blank(), memory).Some? && IsCode(u, Parse(FileOf(u), Blank(), memory).value.code)
  {
    hide Parse, FinalCode, FileOf;
    RoundTrip(u, memory);
    FinalIs(u);
    var c := Rebuilt(u, memory).code;
    assert forall k :: 0 <= k < |FinalCode(u)| ==> c[2 * |u.procs| + k] == FinalCode(u)[k];
  }

  lemma {:induction false} AllLoad(u: Unit, memory: seq<word>, s1: Loading, s2: Loading, s3: Loading, s4: Loading, s5: Loading, s6: Loading,
                                   s7: Loading)
    requires Loads(HeadSection(), Blank(), memory, Blank()) && Loads(ModuleSection(u), Blank(), memory, s1)
    requires Loads(ImportSection(u), s1, memory, s2) && Loads(FlagSection(), s2, memory, s3)
    requires Loads(StringSection(u), s3, memory, s4) && Loads(ProcSection(u), s4, memory, s5)
    requires Loads(CodeSection(u), s5, memory, s6) && Loads(RelocSection(u), s6, memory, s7)
    ensures Loads(FileOf(u), Blank(), memory, s7)
  {
    hide Loads, ModuleSection, ImportSection, FlagSection, StringSection, ProcSection, CodeSection, RelocSection, HeadSection;
    var f7, f6, f5 := RelocSection(u), CodeSection(u) + RelocSection(u), ProcSection(u) + (CodeSection(u) + RelocSection(u));
    var f4 := StringSection(u) + f5;
    var f3 := FlagSection() + f4;
    var f2 := ImportSection(u) + f3;
    LoadsTwice(CodeSection(u), f7, s5, s6, memory, s7);
    LoadsTwice(ProcSection(u), f6, s4, s5, memory, s7);
    LoadsTwice(StringSection(u), f5, s3, s4, memory, s7);
    LoadsTwice(FlagSection(), f4, s2, s3, memory, s7);
    LoadsTwice(ImportSection(u), f3, s1, s2, memory, s7);
    LoadsTwice(ModuleSection(u), f2, Blank(), s1, memory, s7);
    LoadsTwice(HeadSection(), ModuleSection(u) + f2, Blank(), Blank(), memory, s7);
  }

  lemma {:induction false} LoadedFile(b: seq<byte>, a: Loading, memory: seq<word>, c: Loading)
    requires Loads(b, a, memory, c)
    ensures Parse(b, a, memory) == Some(c)
  {
    assert b + [] == b;
    assert Parse(b + [], a, memory) == Parse([], c, memory);
  }

  /** All names that have been read are 16 bytes long. */
  predicate Named(s: Loading) {
    (s.id.Some? ==> |s.id.value.name| == NAME_MAX) && forall k :: 0 <= k < |s.imports| ==> |s.imports[k].name| == NAME_MAX
  }

  lemma {:induction false} IdsNamed(b: seq<byte>, n: nat)
    requires 22 * n <= |b|
    ensures forall k :: 0 <= k < n ==> |IdsOf(b, n)[k].name| == NAME_MAX
  {
    if n > 0 {
      IdsNamed(b[22..], n - 1);
    }
  }

  lemma {:induction false} SectionNamed(b: seq<byte>, s: Loading, memory: seq<word>)
    requires |b| >= 2 && Named(s) && ReadSection(b, s, memory).Some?
    ensures Named(ReadSection(b, s, memory).value.s)
  {
    if |b| >= 4 && 22 * (WordOf(b, 2) / 11) <= |b[4..]| {
      IdsNamed(b[4..], WordOf(b, 2) / 11);
    }
  }

  lemma {:induction false} ParsedNamed(b: seq<byte>, s: Loading, memory: seq<word>)
    requires Named(s) && Parse(b, s, memory).Some?
    ensures Named(Parse(b, s, memory).value)
    decreases |b|
  {
    hide Named, ReadSection;
    if SectionStarts(b) {
      SectionNamed(b, s, memory);
      var x := ReadSection(b, s, memory).value;
      ParsedNamed(x.rest, x.s, memory);
    }
  }

  /** Loading what was written rebuilds the module if and only if no name is longer than 16
      characters. */
  lemma {:induction false} RoundTripWhen(u: Unit, memory: seq<word>)
    requires SizesFit(u) && DataWords(u) <= |memory|
    ensures Parse(FileOf(u), Blank(), memory) == Some(Rebuilt(u, memory)) <==> NamesFit(u)
  {
    hide Parse, FinalCode;
    if NamesFit(u) {
      RoundTrip(u, memory);
    }
    if Parse(FileOf(u), Blank(), memory) == Some(Rebuilt(u, memory)) {
      ParsedNamed(FileOf(u), Blank(), memory);
      NameLen(u.id.name);
      forall k | 0 <= k < |u.imports|
        ensures |u.imports[k].name| <= NAME_MAX
      {
        assert StoredAll(u.imports)[k] == Stored(u.imports[k]);
        NameLen(u.imports[k].name);
      }
    }
  }

  /** The identification in the file names one module: different names or keys give different bytes,
      as long as names are at most 16 characters other than 0. */
  lemma {:induction false} NamesDiffer(a: Id, b: Id)
    requires IdFits(a) && IdFits(b) && 0 !in a.name && 0 !in b.name && Stored(a) == Stored(b)
    ensures a == b
  {
    WordsBack(a.key, []);
    WordsBack(b.key, []);
    assert WordBytes(a.key) + [] == WordBytes(a.key) && WordBytes(b.key) + [] == WordBytes(b.key);
    NameLen(a.name);
    NameLen(b.name);
    var m, n := |a.name|, |b.name|;
    if m < n {
      assert NameBytes(b.name)[m] == b.name[m];
      ZeroBehind(a.name);
    } else if n < m {
      assert NameBytes(a.name)[n] == a.name[n];
      ZeroBehind(b.name);
    } else {
      assert a.name == NameBytes(a.name)[..m] && b.name == NameBytes(b.name)[..m];
    }
  }

  lemma {:induction false} ZeroBehind(name: seq<byte>)
    requires |name| < NAME_MAX
    ensures |NameBytes(name)| == 16 && NameBytes(name)[|name|] == 0
  {
    NameLen(name);
    if |name| % 2 == 0 {
      assert NameBytes(name)[|name|..] == Padding(|name|);
    }
  }
}
