/** Writing an object file, loading it section by section, and relocating the loaded code in
    place. */
module ObjStreams {
  import opened Words
  import opened Options
  import opened ObjFile
  import F = ObjFile

  // ---------------------------------------------------------------- the writer

  class CodeFile {
    var out: seq<byte>

    constructor ()
      ensures out == []
    {
      out := [];
    }

    method W(n: int)
      modifies this`out
      ensures out == old(out) + F.W(n)
    {
      out := out + Bytes(Wrap(n));
    }

    method WriteNameAndKey(i: Id)
      requires |i.key| == 3
      modifies this`out
      ensures out == old(out) + IdBytes(i)
    {
      hide F.W, NameBytes, WordBytes;
      WriteName(i.name);
      W(i.key[0]);
      W(i.key[1]);
      W(i.key[2]);
      KeyWords(i.key);
      assert out == old(out) + NameBytes(i.name) + WordBytes(i.key);
    }

    method WriteName(name: seq<byte>)
      modifies this`out
      ensures out == old(out) + NameBytes(name)
    {
      hide F.W, Padding;
      var l := |name|;
      out := out + name;
      if l % 2 == 1 {
        out := out + [0];
      }
      while l < 15
        invariant out + Padding(l) == old(out) + NameBytes(name)
        decreases 15 - l
      {
        PadOn(out, l);
        W(0);
        ZeroWord();
        l := l + 2;
      }
      PadOn(out, l);
    }

    /** A run of words, each moved up by d. */
    method Ws(ws: seq<word>, d: int)
      modifies this`out
      ensures out == old(out) + WordBytes(Shifted(ws, d))
    {
      hide F.W;
      var k := 0;
      ghost var all := Shifted(ws, d);
      assert all[0..] == all;
      while k < |ws|
        invariant 0 <= k <= |ws| && out + WordBytes(all[k..]) == old(out) + WordBytes(all)
      {
        ghost var was := out;
        assert all[k..][0] == all[k] && all[k..][1..] == all[k + 1..];
        W(ws[k] + d);
        WrapTwice(ws[k] + d);
        assert was + WordBytes(all[k..]) == was + F.W(all[k]) + WordBytes(all[k + 1..]);
        k := k + 1;
      }
      assert all[k..] == [] && out + [] == out;
    }

    method WriteImports(ids: seq<Id>)
      requires forall k :: 0 <= k < |ids| ==> |ids[k].key| == 3
      modifies this`out
      ensures out == old(out) + IdsBytes(ids)
    {
      hide IdBytes;
      var k := 0;
      assert ids[0..] == ids;
      while k < |ids|
        invariant 0 <= k <= |ids| && out + IdsBytes(ids[k..]) == old(out) + IdsBytes(ids)
      {
        ghost var was := out;
        assert ids[k..][0] == ids[k] && ids[k..][1..] == ids[k + 1..];
        WriteNameAndKey(ids[k]);
        assert was + IdsBytes(ids[k..]) == was + IdBytes(ids[k]) + IdsBytes(ids[k + 1..]);
        k := k + 1;
      }
      assert ids[k..] == [] && out + [] == out;
    }

    /** `OutCodeFile`. */
    method OutCodeFile(u: Unit)
      requires out == [] && |u.id.key| == 3 && forall k :: 0 <= k < |u.imports| ==> |u.imports[k].key| == 3
      modifies this`out
      ensures out == FileOf(u)
    {
      hide F.W, IdBytes, IdsBytes, WordBytes, Shifted, FinalCode, DataWords;
      var code := FinalCode(u);
      WriteHeads(u, |code| / 2);
      assert out == HeadSection() + ModuleSection(u) + ImportSection(u);
      WriteData(u);
      assert out == HeadSection() + ModuleSection(u) + ImportSection(u) + FlagSection() + StringSection(u);
      WriteCode(u, code);
      assert out == HeadSection() + ModuleSection(u) + ImportSection(u) + FlagSection() + StringSection(u)
                    + ProcSection(u) + CodeSection(u) + RelocSection(u);
      Grouped(u);
    }

    method WriteHeads(u: Unit, pcw: nat)
      requires out == [] && |u.id.key| == 3 && (forall k :: 0 <= k < |u.imports| ==> |u.imports[k].key| == 3) && pcw == |FinalCode(u)| / 2
      modifies this`out
      ensures out == HeadSection() + ModuleSection(u) + ImportSection(u)
    {
      hide F.W, IdBytes, IdsBytes, FinalCode;
      W(0x80); W(1); W(4);
      assert out == HeadSection();
      W(0x81); W(14);
      WriteNameAndKey(u.id);
      W(u.adr + u.datasize + |u.strs| / 2);
      W(|u.procs| + pcw);
      W(0);
      assert out == HeadSection() + ModuleSection(u);
      if u.imports != [] {
        W(0x82); W(11 * |u.imports|);
        WriteImports(u.imports);
      }
      assert out == HeadSection() + ModuleSection(u) + ImportSection(u);
    }

    method WriteData(u: Unit)
      modifies this`out
      ensures out == old(out) + FlagSection() + StringSection(u)
    {
      hide F.W;
      W(0x84); W(3); W(1); W(0); W(0);
      assert out == old(out) + FlagSection();
      if u.strs != [] {
        W(0x84); W(|u.strs| / 2 + 1); W(u.adr + u.datasize);
        out := out + u.strs;
      }
      assert out == old(out) + FlagSection() + StringSection(u);
    }

    method WriteCode(u: Unit, code: seq<byte>)
      requires code == FinalCode(u)
      modifies this`out
      ensures out == old(out) + ProcSection(u) + CodeSection(u) + RelocSection(u)
    {
      hide ProcSection, CodeSection, RelocSection, FinalCode;
      WriteProcs(u);
      WriteBytes(u, code);
      WriteRels(u);
    }

    method WriteProcs(u: Unit)
      modifies this`out
      ensures out == old(out) + ProcSection(u)
    {
      hide F.W, WordBytes, Shifted;
      W(0x83); W(|u.procs| + 1); W(0);
      Ws(u.procs, 2 * |u.procs|);
    }

    method WriteBytes(u: Unit, code: seq<byte>)
      requires code == FinalCode(u)
      modifies this`out
      ensures out == old(out) + CodeSection(u)
    {
      hide F.W, FinalCode;
      W(0x83); W(|code| / 2 + 1); W(|u.procs|);
      out := out + code;
    }

    method WriteRels(u: Unit)
      modifies this`out
      ensures out == old(out) + RelocSection(u)
    {
      hide F.W, WordBytes, Shifted;
      if u.rels != [] {
        W(0x85); W(|u.rels|);
        Ws(u.rels, 2 * |u.procs|);
      }
    }
  }

  // ---------------------------------------------------------------- the loader

  class ObjLoader {
    const file: seq<byte>
    const memory: seq<word>      // from the first word above the data of the modules loaded before
    var pos: nat
    var id: Option<ModId>
    var data: seq<word>
    var code: seq<byte>
    var imports: seq<ModId>
    var procs: seq<Proc>
    var fixups: seq<word>
    var procSection: bool
    var bad: bool

    ghost predicate Valid()
      reads this
    {
      pos <= |file|
    }

    ghost function Now(): Loading
      reads this
    {
      Loading(id, data, code, imports, procs, fixups, procSection)
    }

    ghost function Rest(): seq<byte>
      requires Valid()
      reads this
    {
      file[pos..]
    }

    constructor (bytes: seq<byte>, mem: seq<word>)
      ensures Valid() && file == bytes && memory == mem && pos == 0 && Now() == Blank() && !bad
    {
      file, memory := bytes, mem;
      pos, bad, procSection := 0, false, true;
      id, data, code, imports, procs, fixups := None, [], [], [], [], [];
    }

    /** A section has been read as x says. */
    twostate predicate Read(x: Option<Section>)
      requires old(Valid())
      reads this
    {
      && Valid()
      && match x
         case None => bad
         case Some(y) => !bad && Now() == y.s && Rest() == y.rest
    }

    /** `le_rword`. */
    method ReadW() returns (w: word)
      requires Valid()
      modifies this`pos, this`bad
      ensures Valid() && pos == (if old(pos) + 2 <= |file| then old(pos) + 2 else old(pos)) && bad == (old(bad) || old(pos) + 2 > |file|)
      ensures old(pos) + 2 <= |file| ==> w == WordOf(file, old(pos))
    {
      w := 0xFFFF;
      if pos + 2 <= |file| {
        w := Join(file[pos], file[pos + 1]);
        pos := pos + 2;
      } else {
        bad := true;
      }
    }

    /** n words, one after the other. */
    method ReadWs(n: nat) returns (ws: seq<word>)
      requires Valid() && !bad
      modifies this`pos, this`bad
      ensures Valid() && bad == (old(pos) + 2 * n > |file|)
      ensures !bad ==> pos == old(pos) + 2 * n && ws == WordsOf(file[old(pos)..], n)
    {
      ws := [];
      var k := 0;
      ghost var b := file[pos..];
      while k < n && !bad
        invariant 0 <= k <= n && Valid()
        invariant bad ==> old(pos) + 2 * n > |file|
        invariant !bad ==> pos == old(pos) + 2 * k && (old(pos) + 2 * n <= |file| ==> ws + WordsOf(file[pos..], n - k) == WordsOf(b, n))
      {
        ghost var was, here := ws, file[pos..];
        var w := ReadW();
        if !bad {
          ws := ws + [w];
          assert here[2..] == file[pos..];
          assert old(pos) + 2 * n <= |file| ==> WordsOf(here, n - k) == [w] + WordsOf(file[pos..], n - k - 1);
        }
        k := k + 1;
      }
    }

    /** `le_read_modid`. */
    method ReadId() returns (i: ModId)
      requires Valid() && !bad
      modifies this`pos, this`bad
      ensures Valid() && bad == (old(pos) + 22 > |file|)
      ensures !bad ==> pos == old(pos) + 22 && i == IdOf(file[old(pos)..])
    {
      i := ModId([], []);
      if pos + 22 > |file| {
        bad := true;
      } else {
        i := ModId(file[pos..pos + 16], file[pos + 16..pos + 22]);
        pos := pos + 22;
      }
    }

    method ReadIds(n: nat) returns (ids: seq<ModId>)
      requires Valid() && !bad
      modifies this`pos, this`bad
      ensures Valid() && bad == (old(pos) + 22 * n > |file|)
      ensures !bad ==> pos == old(pos) + 22 * n && ids == IdsOf(file[old(pos)..], n)
    {
      hide IdOf;
      ids := [];
      var k := 0;
      ghost var b := file[pos..];
      while k < n && !bad
        invariant 0 <= k <= n && Valid()
        invariant bad ==> old(pos) + 22 * n > |file|
        invariant !bad ==> pos == old(pos) + 22 * k && (old(pos) + 22 * n <= |file| ==> ids + IdsOf(file[pos..], n - k) == IdsOf(b, n))
      {
        ghost var here := file[pos..];
        var i := ReadId();
        if !bad {
          ids := ids + [i];
          assert here[22..] == file[pos..];
          assert old(pos) + 22 * n <= |file| ==> IdsOf(here, n - k) == [i] + IdsOf(file[pos..], n - k - 1);
        }
        k := k + 1;
      }
    }

    method ModuleEntry()
      requires Valid() && !bad && 2 <= pos
      modifies this
      ensures Read(ReadModule(file[old(pos) - 2..], old(Now()), memory))
    {
      hide Zeros, IdOf;
      ghost var b, start := file[pos - 2..], pos - 2;
      if pos + 30 > |file| {
        bad := true;
        return;
      }
      var n := ReadW();
      var i := ReadId();
      if n == 0x11 {
        pos := pos + 6;
      }
      WordThere(b, start, 2);
      assert n == WordOf(b, 2) && i == IdOf(b[4..]);
      ModuleSizes(b, if n == 0x11 then 32 else 26, start, i);
    }

    /** The sizes of a module, at position `at` of the section b. */
    method ModuleSizes(ghost b: seq<byte>, ghost at: nat, ghost start: nat, i: ModId)
      requires Valid() && !bad && start <= |file| && b == file[start..] && pos == start + at
      modifies this
      ensures Valid() && bad == (at + 6 > |b| || WordOf(b, at) as int > |memory|)
      ensures !bad ==>
                && Now() == old(Now()).(id := Some(i), data := memory[..WordOf(b, at)], code := Zeros(Wrap(2 * WordOf(b, at + 2)), 0))
                && Rest() == b[at + 6..]
    {
      hide Zeros, IdOf;
      if pos + 6 > |file| {
        bad := true;
        return;
      }
      WordThere(b, start, at);
      WordThere(b, start, at + 2);
      var size := ReadW();
      var words := ReadW();
      var skipped := ReadW();
      if size > |memory| {
        bad := true;
        return;
      }
      id, data, code := Some(i), memory[..size], Zeros(Wrap(2 * words as int), 0);
    }

    lemma {:induction false} WordThere(b: seq<byte>, start: nat, at: nat)
      requires start <= |file| && b == file[start..] && at + 2 <= |b|
      ensures WordOf(b, at) == WordOf(file, start + at)
    {
    }

    method ImportEntries()
      requires Valid() && !bad && 2 <= pos
      modifies this
      ensures Read(ReadImports(file[old(pos) - 2..], old(Now())))
    {
      hide IdsOf;
      ghost var b := file[pos - 2..];
      var n := ReadW();
      if !bad {
        assert Rest() == b[4..];
        var ids := ReadIds(n / 11);
        if !bad {
          assert Rest() == b[4 + 22 * (n as int / 11)..];
          imports := ids;
        }
      }
    }

    method DataEntry()
      requires Valid() && !bad && 2 <= pos
      modifies this
      ensures Read(ReadData(file[old(pos) - 2..], old(Now())))
    {
      hide WordsOf;
      ghost var b := file[pos - 2..];
      var c := ReadW();
      var a := ReadW();
      var n := Wrap(c as int - 1);
      if bad || a as int + n > |data| {
        bad := true;
        return;
      }
      assert Rest() == b[6..];
      var ws := ReadWs(n);
      if !bad {
        assert Rest() == b[6 + 2 * n as int..];
        data := Over(data, a, ws);
      }
    }

    /** Entry points: one in each section of an old file, all in one section of a new one. */
    method ProcEntries()
      requires Valid() && !bad && 2 <= pos
      modifies this
      ensures Read(ReadProcs(file[old(pos) - 2..], old(Now())))
    {
      hide WordsOf, Wrap, Join, F.Numbered, F.WordsOf;
      ghost var b := file[pos - 2..];
      var c := ReadW();
      var pidx := ReadW();
      if bad {
        return;
      }
      var n := Wrap(c as int - 1);
      assert Rest() == b[6..];
      var es := ReadWs(n);
      if bad {
        return;
      }
      assert Rest() == b[6 + 2 * n as int..];
      EnterProcs(pidx, es);
      procSection := false;
    }

    method EnterProcs(pidx: word, es: seq<word>)
      requires Valid()
      modifies this`procs
      ensures Valid() && procs == old(procs) + Numbered(pidx, es)
    {
      ghost var was, all := procs, Numbered(pidx, es);
      var i := 0;
      while i < |es|
        invariant 0 <= i <= |es| && procs == was + all[..i]
      {
        procs := procs + [Proc(if pidx != 0 then pidx else Wrap(i), es[i])];
        assert all[..i + 1] == all[..i] + [all[i]];
        i := i + 1;
      }
      assert all[..i] == all;
    }

    method CodeEntry()
      requires Valid() && !bad && 2 <= pos
      modifies this
      ensures Read(ReadCode(file[old(pos) - 2..], old(Now())))
    {
      ghost var b := file[pos - 2..];
      var c := ReadW();
      var d := ReadW();
      var n, a := Wrap(Wrap(2 * c as int) as int - 2), Wrap(2 * d as int);
      if bad || n == 0 || a as int + n > |code| || pos + n > |file| {
        bad := true;
        return;
      }
      assert Rest()[..n] == b[6..6 + n as int] && Rest()[n..] == b[6 + n as int..];
      code := Over(code, a, file[pos..pos + n]);
      procSection := true;
      pos := pos + n;
    }

    method RelocEntry()
      requires Valid() && !bad && 2 <= pos
      modifies this
      ensures Read(ReadRelocs(file[old(pos) - 2..], old(Now())))
    {
      hide WordsOf;
      ghost var b := file[pos - 2..];
      var n := ReadW();
      if bad || procs == [] {
        bad := true;
        return;
      }
      assert Rest() == b[4..];
      var ws := ReadWs(n);
      if !bad {
        assert Rest() == b[4 + 2 * n as int..];
        fixups := ws;
      }
    }

    /** The section whose number w has just been read. */
    method Entry(w: word)
      requires Valid() && !bad && 2 <= pos && w == WordOf(file, pos - 2) && w in {0xC1, 0x80, 0x81, 0x82, 0x83, 0x84, 0x85}
      modifies this
      ensures Read(ReadSection(file[old(pos) - 2..], old(Now()), memory))
    {
      hide ReadModule, ReadImports, ReadData, ReadProcs, ReadCode, ReadRelocs;
      ghost var b := file[pos - 2..];
      assert WordOf(b, 0) == w;
      if w == 0xC1 {
        var skipped := ReadW();
        assert !bad ==> Rest() == b[4..];
      } else if w == 0x80 {
        StartEntry();
      } else if w == 0x81 {
        ModuleEntry();
      } else if id == None {
        bad := true;
      } else if w == 0x82 {
        ImportEntries();
      } else if w == 0x84 {
        DataEntry();
      } else if w == 0x83 {
        if procSection {
          ProcEntries();
        } else {
          CodeEntry();
        }
      } else {
        RelocEntry();
      }
    }

    method StartEntry()
      requires Valid() && !bad && 2 <= pos
      modifies this`pos, this`bad
      ensures Valid() && bad == (var b := file[old(pos) - 2..]; |b| < 6 || WordOf(b, 2) != 1)
      ensures !bad ==> Rest() == file[old(pos) - 2..][6..]
    {
      var one := ReadW();
      var skipped := ReadW();
      if one != 1 {
        bad := true;
      }
    }

    /** `le_parse_objfile`. */
    method ParseObjFile()
      requires Valid() && !bad
      modifies this
      ensures Valid()
      ensures match Parse(old(Rest()), old(Now()), memory)
              case None => bad
              case Some(s) => !bad && Now() == s
    {
      hide ReadSection;
      ghost var goal := Parse(Rest(), Now(), memory);
      var eof := false;
      while !eof && !bad
        invariant Valid() && (bad ==> goal == None)
        invariant !bad ==> (if eof then goal == Some(Now()) else Parse(Rest(), Now(), memory) == goal)
        decreases if eof || bad then 0 else |file| - pos + 1
      {
        if pos + 2 > |file| {
          eof := true;
        } else {
          ghost var b := Rest();
          var w := ReadW();
          assert WordOf(b, 0) == w && b == file[pos - 2..];
          if w in {0xC1, 0x80, 0x81, 0x82, 0x83, 0x84, 0x85} {
            Entry(w);
          } else {
            eof := true;
          }
        }
      }
    }
  }

  lemma {:induction false} ZeroWord()
    ensures F.W(0) == [0, 0]
  {
  }

  lemma {:induction false} PadOn(b: seq<byte>, n: nat)
    ensures n < 15 ==> b + Padding(n) == b + [0, 0] + Padding(n + 2)
    ensures n >= 15 ==> b + Padding(n) == b
  {
  }

  lemma {:induction false} WrapTwice(n: int)
    ensures F.W(Wrap(n)) == F.W(n)
  {
  }

  lemma {:induction false} KeyWords(key: seq<word>)
    requires |key| == 3
    ensures WordBytes(key) == F.W(key[0]) + F.W(key[1]) + F.W(key[2])
  {
    assert key[1..][1..] == key[2..] && key[2..][1..] == [];
    assert WordBytes(key[2..]) == F.W(key[2]) + WordBytes([]);
    assert WordBytes(key[1..]) == F.W(key[1]) + WordBytes(key[2..]);
  }

  lemma {:induction false} Grouped(u: Unit)
    ensures HeadSection() + ModuleSection(u) + ImportSection(u) + FlagSection() + StringSection(u)
          + ProcSection(u) + CodeSection(u) + RelocSection(u) == FileOf(u)
  {
    hide HeadSection, ModuleSection, ImportSection, FlagSection, StringSection, ProcSection, CodeSection, RelocSection;
  }
}
