/** The object file: what the generator writes for a module, what the loader makes of it, and the
    relocation of module numbers. */
module ObjFile {
  import opened Words
  import opened Options

  // ------------------------------------------------------------------ the module

  datatype Id = Id(name: seq<byte>, key: seq<word>)

  /** A compiled module: its identification, the words of its variables and of its structured data,
      its string constants, its imports, the entry points of its procedures, its code, and where in
      the code module numbers stand. */
  datatype Unit = Unit(id: Id, adr: word, datasize: word, strs: seq<byte>, imports: seq<Id>, procs: seq<word>,
                       code: seq<byte>, rels: seq<word>)

  const NAME_MAX: nat := 16

  // ---------------------------------------------------------------- the writer

  function W(n: int): (s: seq<byte>)
    ensures |s| == 2
  {
    Bytes(Wrap(n))
  }

  function WordBytes(ws: seq<word>): (s: seq<byte>)
    ensures |s| == 2 * |ws|
  {
    if ws == [] then [] else W(ws[0]) + WordBytes(ws[1..])
  }

  /** Zero words as long as n is below 15, counted in steps of 2. */
  function Padding(n: nat): seq<byte>
    decreases 15 - n
  {
    if n < 15 then [0, 0] + Padding(n + 2) else []
  }

  /** `WriteNameAndKey`. */
  function NameBytes(name: seq<byte>): seq<byte> {
    name + (if |name| % 2 == 1 then [0] else []) + Padding(|name|)
  }

  function IdBytes(i: Id): seq<byte> {
    NameBytes(i.name) + WordBytes(i.key)
  }

  function IdsBytes(ids: seq<Id>): seq<byte> {
    if ids == [] then [] else IdBytes(ids[0]) + IdsBytes(ids[1..])
  }

  /** The code as it is written: RTN behind the body, an even length, and the number of the last
      variable in the prologue. */
  function FinalCode(u: Unit): (c: seq<byte>)
    ensures |c| % 2 == 0 && |u.code| < |c| <= |u.code| + 2
  {
    var c := u.code + [0xEC];
    var even := if |c| % 2 == 1 then c + [0xDE] else c;
    if 7 < |even| then even[7 := u.adr % 0x100] else even
  }

  function Shifted(ws: seq<word>, d: int): (r: seq<word>)
    ensures |r| == |ws| && forall k :: 0 <= k < |ws| ==> r[k] == Wrap(ws[k] + d)
  {
    seq(|ws|, k requires 0 <= k < |ws| => Wrap(ws[k] + d))
  }

  function HeadSection(): seq<byte> {
    W(0x80) + W(1) + W(4)
  }

  function ModuleSection(u: Unit): seq<byte> {
    W(0x81) + W(14) + IdBytes(u.id) + W(DataWords(u)) + W(|u.procs| + |FinalCode(u)| / 2) + W(0)
  }

  function DataWords(u: Unit): nat {
    u.adr + u.datasize + |u.strs| / 2
  }

  function ImportSection(u: Unit): seq<byte> {
    if u.imports == [] then [] else W(0x82) + W(11 * |u.imports|) + IdsBytes(u.imports)
  }

  /** The words that hold the module's flag and the pointer to its structured data. */
  function FlagSection(): seq<byte> {
    W(0x84) + W(3) + W(1) + W(0) + W(0)
  }

  function StringSection(u: Unit): seq<byte> {
    if u.strs == [] then [] else W(0x84) + W(|u.strs| / 2 + 1) + W(u.adr + u.datasize) + u.strs
  }

  function ProcSection(u: Unit): seq<byte> {
    W(0x83) + W(|u.procs| + 1) + W(0) + WordBytes(Shifted(u.procs, 2 * |u.procs|))
  }

  function CodeSection(u: Unit): seq<byte> {
    W(0x83) + W(|FinalCode(u)| / 2 + 1) + W(|u.procs|) + FinalCode(u)
  }

  function RelocSection(u: Unit): seq<byte> {
    if u.rels == [] then [] else W(0x85) + W(|u.rels|) + WordBytes(Shifted(u.rels, 2 * |u.procs|))
  }

  /** `OutCodeFile`. */
  function FileOf(u: Unit): seq<byte> {
    HeadSection() + (ModuleSection(u) + (ImportSection(u) + (FlagSection() + (StringSection(u)
      + (ProcSection(u) + (CodeSection(u) + RelocSection(u)))))))
  }

  // ---------------------------------------------------------------- the loader

  datatype ModId = ModId(name: seq<byte>, key: seq<byte>)

  datatype Proc = Proc(idx: word, entry: word)

  /** A module being loaded. Entry points and relocations wait until all modules are there. */
  datatype Loading = Loading(id: Option<ModId>, data: seq<word>, code: seq<byte>, imports: seq<ModId>,
                             procs: seq<Proc>, fixups: seq<word>, procSection: bool)

  function Blank(): Loading {
    Loading(None, [], [], [], [], [], true)
  }

  function WordOf(b: seq<byte>, at: nat): word
    requires at + 1 < |b|
  {
    Join(b[at], b[at + 1])
  }

  function WordsOf(b: seq<byte>, n: nat): (r: seq<word>)
    requires 2 * n <= |b|
    ensures |r| == n
  {
    if n == 0 then [] else [WordOf(b, 0)] + WordsOf(b[2..], n - 1)
  }

  /** `le_read_modid`: 16 bytes of name and 6 of key. */
  function IdOf(b: seq<byte>): ModId
    requires |b| >= 22
  {
    ModId(b[..16], b[16..22])
  }

  function IdsOf(b: seq<byte>, n: nat): (r: seq<ModId>)
    requires 22 * n <= |b|
    ensures |r| == n
  {
    if n == 0 then [] else [IdOf(b)] + IdsOf(b[22..], n - 1)
  }

  function Zeros<T>(n: nat, x: T): (s: seq<T>)
    ensures |s| == n && forall k :: 0 <= k < n ==> s[k] == x
  {
    seq(n, _ => x)
  }

  /** Words ws stored from position a on. */
  function Over<T>(s: seq<T>, a: nat, ws: seq<T>): (r: seq<T>)
    requires a + |ws| <= |s|
    ensures |r| == |s|
  {
    s[..a] + ws + s[a + |ws|..]
  }

  /** The entry points of a new-format file are numbered from 0; an old-format file has one
      procedure in each section. */
  function Numbered(pidx: word, es: seq<word>): (ps: seq<Proc>)
    ensures |ps| == |es| && forall i :: 0 <= i < |es| ==> ps[i] == Proc(if pidx != 0 then pidx else Wrap(i), es[i])
  {
    seq(|es|, i requires 0 <= i < |es| => Proc(if pidx != 0 then pidx else Wrap(i), es[i]))
  }

  datatype Section = Section(s: Loading, rest: seq<byte>)

  function ReadModule(b: seq<byte>, s: Loading, memory: seq<word>): Option<Section> {
    if |b| < 32 then None
    else
      var at := if WordOf(b, 2) == 0x11 then 32 else 26;
      if at + 6 > |b| || WordOf(b, at) as int > |memory| then None
      else
        var code := Zeros(Wrap(2 * WordOf(b, at + 2)), 0);
        Some(Section(s.(id := Some(IdOf(b[4..])), data := memory[..WordOf(b, at)], code := code), b[at + 6..]))
  }

  function ReadImports(b: seq<byte>, s: Loading): Option<Section> {
    if |b| < 4 then None
    else
      var n := WordOf(b, 2) / 11;
      if |b| < 4 + 22 * n then None else Some(Section(s.(imports := IdsOf(b[4..], n)), b[4 + 22 * n..]))
  }

  function ReadData(b: seq<byte>, s: Loading): Option<Section> {
    if |b| < 6 then None
    else
      var n, a := Wrap(WordOf(b, 2) - 1), WordOf(b, 4);
      if a + n > |s.data| || |b| < 6 + 2 * n then None
      else Some(Section(s.(data := Over(s.data, a, WordsOf(b[6..], n))), b[6 + 2 * n..]))
  }

  function ReadProcs(b: seq<byte>, s: Loading): Option<Section> {
    if |b| < 6 then None
    else
      var n := Wrap(WordOf(b, 2) - 1);
      if |b| < 6 + 2 * n then None
      else Some(Section(s.(procs := s.procs + Numbered(WordOf(b, 4), WordsOf(b[6..], n)), procSection := false), b[6 + 2 * n..]))
  }

  function ReadCode(b: seq<byte>, s: Loading): Option<Section> {
    if |b| < 6 then None
    else
      var n, a := Wrap(Wrap(2 * WordOf(b, 2)) - 2), Wrap(2 * WordOf(b, 4));
      if n == 0 || a + n > |s.code| || |b| < 6 + n then None
      else Some(Section(s.(code := Over(s.code, a, b[6..6 + n]), procSection := true), b[6 + n..]))
  }

  function ReadRelocs(b: seq<byte>, s: Loading): Option<Section> {
    if |b| < 4 || s.procs == [] then None
    else
      var n := WordOf(b, 2);
      if |b| < 4 + 2 * n then None else Some(Section(s.(fixups := WordsOf(b[4..], n)), b[4 + 2 * n..]))
  }

  /** One section; it starts with its number. */
  function ReadSection(b: seq<byte>, s: Loading, memory: seq<word>): (o: Option<Section>)
    requires |b| >= 2
    ensures o.Some? ==> |o.value.rest| < |b|
  {
    var w := WordOf(b, 0);
    if w == 0xC1 then if |b| < 4 then None else Some(Section(s, b[4..]))
    else if w == 0x80 then if |b| < 6 || WordOf(b, 2) != 1 then None else Some(Section(s, b[6..]))
    else if w == 0x81 then ReadModule(b, s, memory)
    else if s.id == None then None
    else if w == 0x82 then ReadImports(b, s)
    else if w == 0x84 then ReadData(b, s)
    else if w == 0x83 then (if s.procSection then ReadProcs(b, s) else ReadCode(b, s))
    else if w == 0x85 then ReadRelocs(b, s)
    else None
  }

  predicate SectionStarts(b: seq<byte>) {
    |b| >= 2 && WordOf(b, 0) in {0xC1, 0x80, 0x81, 0x82, 0x83, 0x84, 0x85}
  }

  /** `le_parse_objfile`: sections up to the end of the file or an unknown number. */
  function Parse(b: seq<byte>, s: Loading, memory: seq<word>): Option<Loading>
    decreases |b|
  {
    if !SectionStarts(b) then Some(s)
    else
      var x :- ReadSection(b, s, memory);
      Parse(x.rest, x.s, memory)
  }
}
