/** The compiler's symbol table: a search tree for every scope, compared by identifier, and scopes
    nested up to the module. */
module Symbols {
  import opened Words
  import opened Options

  // --------------------------------------------------------------- identifiers

  /** An identifier as it stands in the buffer: its length, itself included, and its characters. */
  type Name = n: seq<byte> | n != [] && n[0] == |n| witness [1]

  /** The identifier at position i of the buffer. */
  predicate Holds(buf: seq<byte>, i: nat, n: Name) {
    i + |n| <= |buf| && buf[i..i + |n|] == n
  }

  /** How two identifiers compare: by their first byte that differs. */
  function Compare(a: seq<byte>, b: seq<byte>): int {
    if a == [] || b == [] then 0
    else if a[0] != b[0] then a[0] - b[0]
    else Compare(a[1..], b[1..])
  }

  /** `Diff`. The length in front makes it stop before the end of the shorter identifier. */
  method Diff(buf: array<byte>, i0: nat, j0: nat, ghost a: Name, ghost b: Name) returns (d: int)
    requires Holds(buf[..], i0, a) && Holds(buf[..], j0, b)
    ensures d == Compare(a, b)
  {
    hide Compare, Holds;
    HeldBytes(buf[..], i0, a);
    HeldBytes(buf[..], j0, b);
    var i, j, k := i0, j0, 0;
    k := buf[i];
    ghost var m := 0;
    assert a[0..] == a && b[0..] == b;
    while k != 0
      invariant 0 <= m <= |a| && k == |a| - m && i == i0 + m && j == j0 + m
      invariant m <= |b| && (m > 0 ==> |a| == |b|) && Compare(a[m..], b[m..]) == Compare(a, b)
    {
      assert buf[i] == a[m] && buf[j] == b[m];
      CompareNext(a, b, m);
      if buf[i] != buf[j] {
        return buf[i] as int - buf[j] as int;
      }
      i, j, k, m := i + 1, j + 1, k - 1, m + 1;
    }
    CompareNone(a[m..], b[m..]);
    return 0;
  }

  lemma {:induction false} HeldBytes(buf: seq<byte>, i: nat, n: Name)
    requires Holds(buf, i, n)
    ensures i + |n| <= |buf| && forall k :: 0 <= k < |n| ==> buf[i + k] == n[k]
  {
    forall k | 0 <= k < |n|
      ensures buf[i + k] == n[k]
    {
      assert buf[i..i + |n|][k] == n[k];
    }
  }

  lemma {:induction false} CompareNext(a: seq<byte>, b: seq<byte>, m: nat)
    requires m < |a| && m < |b|
    ensures Compare(a[m..], b[m..]) == if a[m] != b[m] then a[m] - b[m] else Compare(a[m + 1..], b[m + 1..])
  {
    assert a[m..][0] == a[m] && b[m..][0] == b[m] && a[m..][1..] == a[m + 1..] && b[m..][1..] == b[m + 1..];
  }

  lemma {:induction false} CompareNone(a: seq<byte>, b: seq<byte>)
    requires a == []
    ensures Compare(a, b) == 0
  {
  }

  lemma {:induction false} CompareZero(a: seq<byte>, b: seq<byte>)
    requires |a| == |b|
    ensures Compare(a, b) == 0 <==> a == b
  {
    if a != [] && a[0] == b[0] {
      CompareZero(a[1..], b[1..]);
      assert a == [a[0]] + a[1..] && b == [b[0]] + b[1..];
    }
  }

  /** Only equal identifiers compare as equal. */
  lemma {:induction false} EqualOnly(a: Name, b: Name)
    ensures Compare(a, b) == 0 <==> a == b
  {
    if |a| == |b| {
      CompareZero(a, b);
    }
  }

  lemma {:induction false} Opposite(a: seq<byte>, b: seq<byte>)
    ensures Compare(b, a) == 0 - Compare(a, b)
  {
    if a != [] && b != [] && a[0] == b[0] {
      Opposite(a[1..], b[1..]);
    }
  }

  lemma {:induction false} CompareBetween(a: seq<byte>, b: seq<byte>, c: seq<byte>)
    requires |a| == |b| == |c| && Compare(a, b) < 0 && Compare(b, c) < 0
    ensures Compare(a, c) < 0
  {
    if a[0] == b[0] && b[0] == c[0] {
      CompareBetween(a[1..], b[1..], c[1..]);
    }
  }

  /** Identifiers are totally ordered. */
  lemma {:induction false} Transitive(a: Name, b: Name, c: Name)
    requires Compare(a, b) < 0 && Compare(b, c) < 0
    ensures Compare(a, c) < 0
  {
    if |a| == |b| == |c| {
      CompareBetween(a, b, c);
    }
  }

  // --------------------------------------------------------------------- trees

  /** An object; a temporary one stands for a name that is exported before it is declared. */
  datatype Obj = Obj(temp: bool, exported: bool, what: nat)

  datatype Tree = Nil | Node(name: Name, obj: Obj, left: Tree, right: Tree)

  predicate Within(t: Tree, low: Option<Name>, high: Option<Name>) {
    match t
    case Nil => true
    case Node(n, _, l, r) =>
      && (low.Some? ==> Compare(low.value, n) < 0) && (high.Some? ==> Compare(n, high.value) < 0)
      && Within(l, low, Some(n)) && Within(r, Some(n), high)
  }

  /** The tree is ordered, so that every name is found on one path only. */
  predicate Search(t: Tree) {
    Within(t, None, None)
  }

  /** What a tree binds names to. */
  function Bindings(t: Tree): map<Name, Obj> {
    match t
    case Nil => map[]
    case Node(n, o, l, r) => Bindings(l) + Bindings(r) + map[n := o]
  }

  lemma {:induction false} Bounded(t: Tree, low: Option<Name>, high: Option<Name>, n: Name)
    requires Within(t, low, high) && n in Bindings(t)
    ensures (low.Some? ==> Compare(low.value, n) < 0) && (high.Some? ==> Compare(n, high.value) < 0)
  {
    if n != t.name {
      if n in Bindings(t.left) {
        Bounded(t.left, low, Some(t.name), n);
        if high.Some? {
          Transitive(n, t.name, high.value);
        }
      } else {
        Bounded(t.right, Some(t.name), high, n);
        if low.Some? {
          Transitive(low.value, t.name, n);
        }
      }
    }
  }

  /** On which side of a node a name can be. */
  lemma {:induction false} Sides(t: Tree, low: Option<Name>, high: Option<Name>, n: Name)
    requires t.Node? && Within(t, low, high)
    ensures n in Bindings(t.left) ==> Compare(n, t.name) < 0
    ensures n in Bindings(t.right) ==> Compare(n, t.name) > 0
    ensures Compare(n, t.name) == 0 <==> n == t.name
  {
    EqualOnly(n, t.name);
    Opposite(n, t.name);
    if n in Bindings(t.left) {
      Bounded(t.left, low, Some(t.name), n);
    }
    if n in Bindings(t.right) {
      Bounded(t.right, Some(t.name), high, n);
    }
  }

  function Lookup(t: Tree, n: Name): Option<Obj> {
    if t == Nil then None
    else if Compare(n, t.name) < 0 then Lookup(t.left, n)
    else if Compare(n, t.name) > 0 then Lookup(t.right, n)
    else Some(t.obj)
  }

  function Binding(b: map<Name, Obj>, n: Name): Option<Obj> {
    if n in b then Some(b[n]) else None
  }

  /** Searching an ordered tree finds the name's binding. */
  lemma {:induction false} LookupFinds(t: Tree, low: Option<Name>, high: Option<Name>, n: Name)
    requires Within(t, low, high)
    ensures Lookup(t, n) == Binding(Bindings(t), n)
  {
    if t.Node? {
      Sides(t, low, high, n);
      LookupFinds(t.left, low, Some(t.name), n);
      LookupFinds(t.right, Some(t.name), high, n);
    }
  }

  /** `FindInScope`. */
  method FindInScope(t: Tree, n: Name) returns (o: Option<Obj>)
    ensures o == Lookup(t, n)
  {
    var p := t;
    while p != Nil
      invariant Lookup(p, n) == Lookup(t, n)
      decreases p
    {
      var d := Compare(n, p.name);
      if d < 0 {
        p := p.left;
      } else if d > 0 {
        p := p.right;
      } else {
        return Some(p.obj);
      }
    }
    return None;
  }

  // ----------------------------------------------------------------- insertion

  /** `NewObj`: a new object at its place, or in the place of a temporary one. A name declared twice
      goes on to the right. */
  function Insert(t: Tree, n: Name, o: Obj): Tree {
    if t == Nil then Node(n, o.(exported := false), Nil, Nil)
    else if Compare(n, t.name) < 0 then t.(left := Insert(t.left, n, o))
    else if Compare(n, t.name) > 0 then t.(right := Insert(t.right, n, o))
    else if t.obj.temp then t.(name := n, obj := o.(exported := true))
    else t.(right := Insert(t.right, n, o))
  }

  /** Error 100. */
  predicate Double(b: map<Name, Obj>, n: Name) {
    n in b && !b[n].temp
  }

  function Entered(b: map<Name, Obj>, n: Name, o: Obj): map<Name, Obj> {
    b[n := o.(exported := n in b)]
  }

  /** Unless it is declared twice, the name gets its binding, all other bindings stay, and the tree
      stays ordered. */
  lemma {:induction false} InsertBinds(t: Tree, low: Option<Name>, high: Option<Name>, n: Name, o: Obj)
    requires Within(t, low, high) && !Double(Bindings(t), n)
    requires (low.Some? ==> Compare(low.value, n) < 0) && (high.Some? ==> Compare(n, high.value) < 0)
    ensures Within(Insert(t, n, o), low, high) && Bindings(Insert(t, n, o)) == Entered(Bindings(t), n, o)
  {
    hide Compare;
    if t.Node? {
      Sides(t, low, high, n);
      var d := Compare(n, t.name);
      var l, r := Bindings(t.left), Bindings(t.right);
      if d < 0 {
        EnteredLeft(l, r, t.name, t.obj, n, o);
        InsertBinds(t.left, low, Some(t.name), n, o);
      } else if d > 0 {
        Opposite(n, t.name);
        EnteredRight(l, r, t.name, t.obj, n, o);
        InsertBinds(t.right, Some(t.name), high, n, o);
      } else {
        assert Bindings(t)[n] == t.obj;
      }
    }
  }

  lemma {:induction false} EnteredLeft(l: map<Name, Obj>, r: map<Name, Obj>, m: Name, x: Obj, n: Name, o: Obj)
    requires n != m && n !in r
    ensures Entered(l, n, o) + r + map[m := x] == Entered(l + r + map[m := x], n, o)
    ensures Double(l + r + map[m := x], n) == Double(l, n)
  {
  }

  lemma {:induction false} EnteredRight(l: map<Name, Obj>, r: map<Name, Obj>, m: Name, x: Obj, n: Name, o: Obj)
    requires n != m && n !in l
    ensures l + Entered(r, n, o) + map[m := x] == Entered(l + r + map[m := x], n, o)
    ensures Double(l + r + map[m := x], n) == Double(r, n)
  {
  }

  /** A name declared twice, which is reported as an error: the second object is in the tree, but no
      search comes to it, and all names keep their bindings. */
  lemma {:induction false} InsertAgain(t: Tree, low: Option<Name>, high: Option<Name>, n: Name, o: Obj, m: Name)
    requires Within(t, low, high) && Double(Bindings(t), n)
    ensures Lookup(Insert(t, n, o), m) == Lookup(t, m)
  {
    hide Compare;
    Sides(t, low, high, n);
    Sides(t, low, high, m);
    var d := Compare(n, t.name);
    if d < 0 {
      InsertAgain(t.left, low, Some(t.name), n, o, m);
    } else if d > 0 {
      Opposite(n, t.name);
      InsertAgain(t.right, Some(t.name), high, n, o, m);
    } else if m != n {
      InsertOther(t.right, Some(t.name), high, n, o, m);
    }
  }

  /** Insertion of one name does not affect another one. */
  lemma {:induction false} InsertOther(t: Tree, low: Option<Name>, high: Option<Name>, n: Name, o: Obj, m: Name)
    requires Within(t, low, high) && n !in Bindings(t) && m != n
    ensures Lookup(Insert(t, n, o), m) == Lookup(t, m)
  {
    hide Compare;
    if t.Node? {
      Sides(t, low, high, n);
      if Compare(n, t.name) < 0 {
        InsertOther(t.left, low, Some(t.name), n, o, m);
      } else {
        InsertOther(t.right, Some(t.name), high, n, o, m);
      }
    } else {
      EqualOnly(m, n);
    }
  }

  // ------------------------------------------------------------------- imports

  /** A copy of an imported object at its place, or in the place of a temporary one; a name that has a
      binding of its own is left as it is. */
  function Copied(t: Tree, n: Name, o: Obj): Tree {
    if t == Nil then Node(n, o.(exported := false), Nil, Nil)
    else if Compare(n, t.name) < 0 then t.(left := Copied(t.left, n, o))
    else if Compare(n, t.name) > 0 then t.(right := Copied(t.right, n, o))
    else if t.obj.temp then t.(name := n, obj := o.(exported := true))
    else t
  }

  function Imported(b: map<Name, Obj>, n: Name, o: Obj): map<Name, Obj> {
    if Double(b, n) then b else Entered(b, n, o)
  }

  /** The copy binds the name unless it has a binding, and the tree stays ordered in any case. */
  lemma {:induction false} CopyBinds(t: Tree, low: Option<Name>, high: Option<Name>, n: Name, o: Obj)
    requires Within(t, low, high)
    requires (low.Some? ==> Compare(low.value, n) < 0) && (high.Some? ==> Compare(n, high.value) < 0)
    ensures Within(Copied(t, n, o), low, high) && Bindings(Copied(t, n, o)) == Imported(Bindings(t), n, o)
  {
    hide Compare, Double, Imported, Entered;
    if t.Node? {
      Sides(t, low, high, n);
      var d := Compare(n, t.name);
      var l, r := Bindings(t.left), Bindings(t.right);
      if d < 0 {
        ImportedLeft(l, r, t.name, t.obj, n, o);
        CopyBinds(t.left, low, Some(t.name), n, o);
      } else if d > 0 {
        Opposite(n, t.name);
        ImportedRight(l, r, t.name, t.obj, n, o);
        CopyBinds(t.right, Some(t.name), high, n, o);
      } else {
        ImportedHere(l, r, t.obj, n, o);
      }
    } else {
      ImportedFirst(n, o);
    }
  }

  lemma {:induction false} ImportedLeft(l: map<Name, Obj>, r: map<Name, Obj>, m: Name, x: Obj, n: Name, o: Obj)
    requires n != m && n !in r
    ensures Imported(l, n, o) + r + map[m := x] == Imported(l + r + map[m := x], n, o)
  {
    EnteredLeft(l, r, m, x, n, o);
    hide Double, Entered;
  }

  lemma {:induction false} ImportedRight(l: map<Name, Obj>, r: map<Name, Obj>, m: Name, x: Obj, n: Name, o: Obj)
    requires n != m && n !in l
    ensures l + Imported(r, n, o) + map[m := x] == Imported(l + r + map[m := x], n, o)
  {
    EnteredRight(l, r, m, x, n, o);
    hide Double, Entered;
  }

  lemma {:induction false} ImportedHere(l: map<Name, Obj>, r: map<Name, Obj>, x: Obj, n: Name, o: Obj)
    ensures Imported(l + r + map[n := x], n, o) == if x.temp then l + r + map[n := o.(exported := true)] else l + r + map[n := x]
  {
    assert x.temp ==> (l + r + map[n := x])[n := o.(exported := true)] == l + r + map[n := o.(exported := true)];
  }

  lemma {:induction false} ImportedFirst(n: Name, o: Obj)
    ensures Imported(map[], n, o) == map[n := o.(exported := false)]
  {
  }

  /** An imported object, with the constants of an enumeration type. */
  datatype Import = Import(name: Name, obj: Obj, consts: seq<(Name, Obj)>)

  function AllCopied(t: Tree, consts: seq<(Name, Obj)>): Tree
    decreases |consts|
  {
    if consts == [] then t else AllCopied(Copied(t, consts[0].0, consts[0].1), consts[1..])
  }

  function AllImported(b: map<Name, Obj>, consts: seq<(Name, Obj)>): map<Name, Obj>
    decreases |consts|
  {
    if consts == [] then b else AllImported(Imported(b, consts[0].0, consts[0].1), consts[1..])
  }

  predicate AnyDouble(b: map<Name, Obj>, consts: seq<(Name, Obj)>)
    decreases |consts|
  {
    consts != [] && (Double(b, consts[0].0) || AnyDouble(Imported(b, consts[0].0, consts[0].1), consts[1..]))
  }

  /** What a scope binds after an import: the constants follow a type that is new in the scope. */
  function ScopeWith(b: map<Name, Obj>, x: Import): map<Name, Obj> {
    var now := Imported(b, x.name, x.obj);
    if x.name in b then now else AllImported(now, x.consts)
  }

  /** An import gives its name the imported object, and no other name a binding but those of its
      constants; names that were bound keep what they had. */
  lemma {:induction false} ImportsBind(b: map<Name, Obj>, x: Import, n: Name)
    ensures !Double(b, x.name) && (forall k :: 0 <= k < |x.consts| ==> x.consts[k].0 != x.name) ==>
              x.name in ScopeWith(b, x) && ScopeWith(b, x)[x.name] == x.obj.(exported := x.name in b)
    ensures Double(b, n) ==> n in ScopeWith(b, x) && ScopeWith(b, x)[n] == b[n]
    ensures n in ScopeWith(b, x) ==> n in b || n == x.name || exists k :: 0 <= k < |x.consts| && n == x.consts[k].0
  {
    var now := Imported(b, x.name, x.obj);
    AllBind(now, x.consts, x.name);
    AllBind(now, x.consts, n);
  }

  lemma {:induction false} AllBind(b: map<Name, Obj>, consts: seq<(Name, Obj)>, n: Name)
    ensures var c := AllImported(b, consts);
            && ((forall k :: 0 <= k < |consts| ==> consts[k].0 != n) ==> Binding(c, n) == Binding(b, n))
            && (Double(b, n) ==> n in c && c[n] == b[n])
            && (n in c ==> n in b || exists k :: 0 <= k < |consts| && n == consts[k].0)
    decreases |consts|
  {
    if consts != [] {
      AllBind(Imported(b, consts[0].0, consts[0].1), consts[1..], n);
      assert forall k :: 0 <= k < |consts| - 1 ==> consts[1..][k] == consts[k + 1];
    }
  }

  // -------------------------------------------------------------------- scopes

  datatype Scope = Scope(isModule: bool, tree: Tree)

  /** The scopes from the innermost one outwards are ordered, and the last one is a module's. */
  predicate Nested(scopes: seq<Scope>) {
    && scopes != [] && scopes[|scopes| - 1].isModule
    && forall k :: 0 <= k < |scopes| ==> Search(scopes[k].tree)
  }

  /** The binding of the innermost scope that has one, up to the first module; behind that, only the
      universe. */
  function Visible(scopes: seq<Scope>, universe: Tree, n: Name): Option<Obj> {
    if scopes == [] then Binding(Bindings(universe), n)
    else if n in Bindings(scopes[0].tree) then Some(Bindings(scopes[0].tree)[n])
    else if scopes[0].isModule then Binding(Bindings(universe), n)
    else Visible(scopes[1..], universe, n)
  }

  /** What is visible is the binding in the innermost scope that has one and is not behind a module,
      else the universe's. */
  lemma {:induction false} VisibleInnermost(scopes: seq<Scope>, universe: Tree, n: Name, k: nat)
    requires k < |scopes| && forall j :: 0 <= j < k ==> n !in Bindings(scopes[j].tree) && !scopes[j].isModule
    ensures n in Bindings(scopes[k].tree) ==> Visible(scopes, universe, n) == Some(Bindings(scopes[k].tree)[n])
    ensures n !in Bindings(scopes[k].tree) && scopes[k].isModule ==> Visible(scopes, universe, n) == Binding(Bindings(universe), n)
    decreases k
  {
    if k > 0 {
      assert n !in Bindings(scopes[0].tree) && !scopes[0].isModule;
      forall j | 0 <= j < k - 1
        ensures n !in Bindings(scopes[1..][j].tree) && !scopes[1..][j].isModule
      {
        assert scopes[1..][j] == scopes[j + 1];
      }
      VisibleInnermost(scopes[1..], universe, n, k - 1);
    }
  }

  lemma {:induction false} NestedTop(scopes: seq<Scope>)
    requires Nested(scopes)
    ensures scopes != [] && Search(scopes[0].tree)
  {
  }

  lemma {:induction false} NestedAgain(scopes: seq<Scope>, s: Scope)
    requires Nested(scopes) && Search(s.tree) && s.isModule == scopes[0].isModule
    ensures Nested([s] + scopes[1..])
  {
    var now := [s] + scopes[1..];
    forall k | 0 <= k < |now|
      ensures Search(now[k].tree)
    {
      assert k > 0 ==> now[k] == scopes[k];
    }
  }

  lemma {:induction false} SearchAt(scopes: seq<Scope>, k: nat)
    requires Nested(scopes) && k < |scopes|
    ensures Search(scopes[k].tree) && Within(scopes[k].tree, None, None)
  {
  }

  lemma {:induction false} NestedWith(scopes: seq<Scope>, k: nat, s: Scope)
    requires Nested(scopes) && k < |scopes| && Search(s.tree) && s.isModule == scopes[k].isModule
    ensures Nested(scopes[k := s])
  {
  }

  lemma {:induction false} DoubleWhen(b: map<Name, Obj>, n: Name)
    ensures Double(b, n) == (Binding(b, n).Some? && !Binding(b, n).value.temp)
  {
  }

  class SymTable {
    var scopes: seq<Scope>       // the innermost one first
    var universe: Tree
    var marked: bool             // error 100 has been reported

    ghost predicate Valid()
      reads this
    {
      Nested(scopes) && Search(universe)
    }

    constructor (standard: Tree)
      requires Search(standard)
      ensures Valid() && scopes == [Scope(true, Nil)] && universe == standard && !marked
    {
      scopes, universe, marked := [Scope(true, Nil)], standard, false;
    }

    /** `Find`. */
    method Find(n: Name) returns (o: Option<Obj>)
      requires Valid()
      ensures o == Visible(scopes, universe, n)
    {
      assert scopes[0..] == scopes;
      o := FindFrom(0, n);
    }

    method FindFrom(from: nat, n: Name) returns (o: Option<Obj>)
      requires Valid() && from < |scopes|
      ensures o == Visible(scopes[from..], universe, n)
    {
      hide Bindings, Lookup;
      var k := from;
      LookupFinds(universe, None, None, n);
      while true
        invariant from <= k < |scopes| && Visible(scopes[k..], universe, n) == Visible(scopes[from..], universe, n)
        decreases |scopes| - k
      {
        var s := scopes[k];
        assert scopes[k..][0] == s && scopes[k..][1..] == scopes[k + 1..];
        LookupFinds(s.tree, None, None, n);
        o := FindInScope(s.tree, n);
        if o.Some? {
          return;
        }
        if s.isModule {
          o := FindInScope(universe, n);
          return;
        }
        k := k + 1;
      }
    }

    /** `NewObj` in the innermost scope. */
    method NewObj(n: Name, what: nat, temp: bool)
      requires Valid()
      modifies this`scopes, this`marked
      ensures |scopes| == |old(scopes)| && scopes[1..] == old(scopes[1..]) && scopes[0].isModule == old(scopes[0].isModule)
      ensures marked == (old(marked) || Double(Bindings(old(scopes[0].tree)), n))
      ensures !marked ==> Valid() && Bindings(scopes[0].tree) == Entered(Bindings(old(scopes[0].tree)), n, Obj(temp, false, what))
    {
      hide Nested, Within, Bindings, Insert, Entered, Double;
      NestedTop(scopes);
      var top, o := scopes[0], Obj(temp, false, what);
      LookupFinds(top.tree, None, None, n);
      var found := FindInScope(top.tree, n);
      DoubleWhen(Bindings(top.tree), n);
      ghost var was := scopes;
      if found.Some? && !found.value.temp {
        marked := true;
      } else {
        InsertBinds(top.tree, None, None, n, o);
        NestedAgain(was, top.(tree := Insert(top.tree, n, o)));
      }
      scopes := [top.(tree := Insert(top.tree, n, o))] + scopes[1..];
    }

    /** `FindImport`: what is visible around the innermost scope. */
    method FindImport(n: Name) returns (o: Option<Obj>)
      requires Valid() && |scopes| > 1
      ensures o == Visible(scopes[1..], universe, n)
    {
      o := FindFrom(1, n);
    }

    /** `NewImp`: an import into the innermost scope or, where an inner module exports, into one
        around it. Whatever is declared twice is reported and leaves the scope as it is. */
    method NewImp(at: nat, x: Import)
      requires Valid() && at < |scopes|
      modifies this`scopes, this`marked
      ensures Valid() && |scopes| == |old(scopes)| && scopes[at].isModule == old(scopes[at].isModule)
      ensures forall k :: 0 <= k < |scopes| && k != at ==> scopes[k] == old(scopes[k])
      ensures Bindings(scopes[at].tree) == ScopeWith(Bindings(old(scopes[at].tree)), x)
      ensures var b := Bindings(old(scopes[at].tree));
              marked == (old(marked) || Double(b, x.name) || (x.name !in b && AnyDouble(Imported(b, x.name, x.obj), x.consts)))
    {
      hide Nested, Within, Bindings, Copied, Imported, Double, Search;
      ghost var b := Bindings(scopes[at].tree);
      SearchAt(scopes, at);
      LookupFinds(scopes[at].tree, None, None, x.name);
      var found := FindInScope(scopes[at].tree, x.name);
      CopyAt(at, x.name, x.obj);
      if found.None? {
        CopyConsts(at, x.consts);
      }
    }

    method CopyConsts(at: nat, consts: seq<(Name, Obj)>)
      requires Valid() && at < |scopes|
      modifies this`scopes, this`marked
      ensures Valid() && |scopes| == |old(scopes)| && scopes[at].isModule == old(scopes[at].isModule)
      ensures forall k :: 0 <= k < |scopes| && k != at ==> scopes[k] == old(scopes[k])
      ensures Bindings(scopes[at].tree) == AllImported(Bindings(old(scopes[at].tree)), consts)
      ensures marked == (old(marked) || AnyDouble(Bindings(old(scopes[at].tree)), consts))
    {
      hide Nested, Within, Bindings, Copied, Imported, Double, Search;
      var i := 0;
      ghost var b := Bindings(scopes[at].tree);
      assert consts[0..] == consts;
      while i < |consts|
        invariant 0 <= i <= |consts| && Valid() && |scopes| == |old(scopes)| && scopes[at].isModule == old(scopes[at].isModule)
        invariant forall k :: 0 <= k < |scopes| && k != at ==> scopes[k] == old(scopes[k])
        invariant AllImported(Bindings(scopes[at].tree), consts[i..]) == AllImported(b, consts)
        invariant (marked || AnyDouble(Bindings(scopes[at].tree), consts[i..])) == (old(marked) || AnyDouble(b, consts))
      {
        assert consts[i..][0] == consts[i] && consts[i..][1..] == consts[i + 1..];
        CopyAt(at, consts[i].0, consts[i].1);
        i := i + 1;
      }
    }

    /** The insertion of a copy into one scope. */
    method CopyAt(at: nat, n: Name, o: Obj)
      requires Valid() && at < |scopes|
      modifies this`scopes, this`marked
      ensures Valid() && |scopes| == |old(scopes)| && scopes[at].isModule == old(scopes[at].isModule)
      ensures forall k :: 0 <= k < |scopes| && k != at ==> scopes[k] == old(scopes[k])
      ensures Bindings(scopes[at].tree) == Imported(Bindings(old(scopes[at].tree)), n, o)
      ensures marked == (old(marked) || Double(Bindings(old(scopes[at].tree)), n))
    {
      hide Nested, Bindings, Copied, Imported, Double;
      SearchAt(scopes, at);
      var s := scopes[at];
      LookupFinds(s.tree, None, None, n);
      var found := FindInScope(s.tree, n);
      DoubleWhen(Bindings(s.tree), n);
      if found.Some? && !found.value.temp {
        marked := true;
      }
      CopyBinds(s.tree, None, None, n, o);
      NestedWith(scopes, at, s.(tree := Copied(s.tree, n, o)));
      scopes := scopes[at := s.(tree := Copied(s.tree, n, o))];
    }

    /** `NewScope`. */
    method NewScope(isModule: bool)
      requires Valid()
      modifies this`scopes
      ensures Valid() && scopes == [Scope(isModule, Nil)] + old(scopes)
    {
      scopes := [Scope(isModule, Nil)] + scopes;
    }

    /** `CloseScope` brings back what was visible before the scope was opened. */
    method CloseScope()
      requires Valid() && |scopes| > 1
      modifies this`scopes
      ensures Valid() && scopes == old(scopes[1..])
    {
      scopes := scopes[1..];
    }
  }
}
