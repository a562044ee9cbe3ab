/** Compiling CASE: the label ranges entered into an ordered array, and the jump table written
    from it. */
module Cases {
  import opened Words
  import opened Options
  import opened StmtLang
  import opened StmtGen
  import opened CaseTable
  import opened Tails
  import opened Emitter

  // ------------------------------------------------------------- the labels

  method Enter(tab: array<Entry>, n: nat, x: Entry) returns (ok: bool)
    requires n < tab.Length
    modifies tab
    ensures ok <==> Insert(old(tab[..n]), x).Some?
    ensures ok ==> tab[..n + 1] == Insert(old(tab[..n]), x).value
  {
    var i := n;
    ok := true;
    ghost var was := tab[..n];
    while i > 0 && tab[i - 1].low > x.high
      invariant 0 <= i <= n
      invariant forall k :: 0 <= k < i ==> tab[k] == was[k]
      invariant forall k :: i < k <= n ==> tab[k] == was[k - 1]
      invariant forall k :: i <= k < n ==> was[k].low > x.high
    {
      tab[i] := tab[i - 1];
      i := i - 1;
    }
    if i > 0 && tab[i - 1].high >= x.low {
      ok := false;
    }
    tab[i] := x;
    hide Insert;
    InsertAt(was, x, i);
    Shifted(tab[..n + 1], was, x, i);
  }

  /** One entry put in, and all behind it moved up by one. */
  lemma {:induction false} Shifted(now: seq<Entry>, was: seq<Entry>, x: Entry, i: nat)
    requires i <= |was| && |now| == |was| + 1 && now[i] == x
    requires forall k :: 0 <= k < i ==> now[k] == was[k]
    requires forall k :: i < k <= |was| ==> now[k] == was[k - 1]
    ensures now == was[..i] + [x] + was[i..]
  {
  }

  /** Insertion behind the first i entries, when all later ones lie above. */
  lemma {:induction false} InsertAt(tab: seq<Entry>, x: Entry, i: nat)
    requires i <= |tab| && (forall k :: i <= k < |tab| ==> tab[k].low > x.high)
    requires i > 0 ==> tab[i - 1].low <= x.high
    ensures Insert(tab, x) == if i > 0 && tab[i - 1].high >= x.low then None else Some(tab[..i] + [x] + tab[i..])
    decreases |tab|
  {
    if i < |tab| {
      var init, last := tab[..|tab| - 1], tab[|tab| - 1];
      InsertAt(init, x, i);
      assert init[..i] == tab[..i];
      assert tab[i..] == init[i..] + [last];
      assert tab[..i] + [x] + init[i..] + [last] == tab[..i] + [x] + tab[i..];
    } else {
      assert tab[..i] == tab && tab[i..] == [];
      assert tab + [x] == tab[..i] + [x] + tab[i..];
      if i == 0 {
        assert [x] == tab + [x];
      }
    }
  }

  /** One label range of an arm after the other. */
  lemma {:induction false} NextLabel(tab: seq<Entry>, labels: seq<Range>, k: nat, start: int)
    requires k < |labels|
    ensures var x := labels[k];
            var o := Insert(tab, Entry(x.low, x.high, start));
            && InsertAll(tab, labels[k..], start)
            == (if x.high < x.low || |tab| >= MAX_CASES || o == None then None else InsertAll(o.value, labels[k + 1..], start))
            && (Ordered(tab) && x.low <= x.high && o.Some? ==> Ordered(o.value) && |o.value| == |tab| + 1)
  {
    var x := labels[k];
    var e := Entry(x.low, x.high, start);
    assert labels[k..][0] == x && labels[k..][1..] == labels[k + 1..];
    if Ordered(tab) && x.low <= x.high && Insert(tab, e).Some? {
      InsertOrdered(tab, e);
      InsertAdds(tab, e);
      assert |multiset(Insert(tab, e).value)| == |multiset(tab)| + 1;
    }
  }

  /** `CaseLabelList`: all ranges of one arm, whose code starts at `start`. */
  method CaseLabelList(g: Generator, labels: seq<Range>, tab: array<Entry>, n0: nat, start: nat) returns (n: nat)
    requires g.Valid() && tab.Length == MAX_CASES && n0 <= MAX_CASES
    requires !g.failed ==> Ordered(tab[..n0])
    modifies g`failed, tab
    ensures g.Valid() && n <= MAX_CASES
    ensures g.failed <==> old(g.failed) || InsertAll(old(tab[..n0]), labels, start) == None
    ensures !g.failed ==> tab[..n] == InsertAll(old(tab[..n0]), labels, start).value && Ordered(tab[..n])
  {
    hide Insert, InsertAll, Ordered;
    n := n0;
    var k := 0;
    ghost var was := tab[..n0];
    assert labels[0..] == labels;
    while k < |labels|
      invariant 0 <= k <= |labels| && n <= MAX_CASES && g.Valid() && (old(g.failed) ==> g.failed)
      invariant !g.failed ==> Ordered(tab[..n])
      invariant !g.failed ==> InsertAll(was, labels, start) == InsertAll(tab[..n], labels[k..], start)
      invariant g.failed ==> old(g.failed) || InsertAll(was, labels, start) == None
    {
      var x := labels[k];
      NextLabel(tab[..n], labels, k, start);
      var high := x.high;
      if high < x.low {
        g.Err();
        high := x.low;
      }
      if n < MAX_CASES {
        var ok := Enter(tab, n, Entry(x.low, high, start));
        if !ok {
          g.Err();
        }
        n := n + 1;
      } else {
        g.Err();
      }
      k := k + 1;
    }
    assert labels[k..] == [];
    NoLabels(tab[..n], start);
  }

  lemma {:induction false} NoLabels(tab: seq<Entry>, start: int)
    ensures InsertAll(tab, [], start) == Some(tab)
  {
  }

  // -------------------------------------------------------------- the table

  lemma {:induction false} JumpsMore(tab: seq<Entry>, otherwise: int, k: int, n: nat, pos: int)
    ensures Jumps(tab, otherwise, k, n + 1, pos)
         == Jumps(tab, otherwise, k, n, pos) + Bytes(Wrap(Lookup(tab, k + n, otherwise) - (pos + 2 * n)))
    decreases n
  {
    if n > 0 {
      JumpsMore(tab, otherwise, k + 1, n - 1, pos + 2);
      var a, b := Bytes(Wrap(Lookup(tab, k, otherwise) - pos)), Jumps(tab, otherwise, k + 1, n - 1, pos + 2);
      var c := Bytes(Wrap(Lookup(tab, k + n, otherwise) - (pos + 2 * n)));
      assert a + (b + c) == (a + b) + c;
    }
  }

  /** In an ordered table a value belongs to the range it lies in, and to ELSE between ranges. */
  lemma {:induction false} LookupAt(tab: seq<Entry>, i: nat, k: int, otherwise: int)
    requires Ordered(tab) && i < |tab| && (i > 0 ==> tab[i - 1].high < k) && k <= tab[i].high
    ensures Lookup(tab, k, otherwise) == if tab[i].low <= k then tab[i].target else otherwise
    decreases |tab|
  {
    if i > 0 {
      assert tab[0].high <= tab[i - 1].high;
      var rest := tab[1..];
      assert rest[i - 1] == tab[i];
      LookupAt(rest, i - 1, k, otherwise);
    } else if !(tab[0].low <= k) {
      LookupAbsent(tab, k, otherwise);
    }
  }

  /** Jump words for the values from j up to `to`, all leading to target. */
  method PutJumps(g: Generator, ghost t: seq<Entry>, ghost otherwise: int, ghost low: int, ghost pos: int, ghost head: seq<byte>,
                  j0: int, to: int, target: int) returns (j: int)
    requires g.Valid() && (!g.failed ==> low <= j0 && pos == |head| && g.Out() == head + Jumps(t, otherwise, low, j0 - low, pos))
    requires !g.failed ==> forall k :: j0 <= k < to ==> Lookup(t, k, otherwise) == target
    modifies g`pc, g`failed, g.code
    ensures g.Valid() && j == (if j0 < to then to else j0)
    ensures !g.failed ==> low <= j && g.Out() == head + Jumps(t, otherwise, low, j - low, pos)
    ensures g.failed <==> old(g.failed) || old(g.pc) + 2 * (j - j0) > CODE_LENGTH
  {
    hide Jumps, Lookup, Wrap, Bytes;
    j := j0;
    while j < to
      invariant j0 <= j && (j0 < to ==> j <= to) && (j0 >= to ==> j == j0) && g.Valid()
      invariant !g.failed ==> low <= j && g.Out() == head + Jumps(t, otherwise, low, j - low, pos)
      invariant !g.failed ==> g.pc == old(g.pc) + 2 * (j - j0)
      invariant g.failed <==> old(g.failed) || old(g.pc) + 2 * (j - j0) > CODE_LENGTH
    {
      PutJump(g, t, otherwise, low, pos, head, j, target);
      j := j + 1;
    }
  }

  /** The jump word for value j. */
  method PutJump(g: Generator, ghost t: seq<Entry>, ghost otherwise: int, ghost low: int, ghost pos: int, ghost head: seq<byte>, j: int, target: int)
    requires g.Valid() && (!g.failed ==> low <= j && pos == |head| && g.Out() == head + Jumps(t, otherwise, low, j - low, pos))
    requires !g.failed ==> Lookup(t, j, otherwise) == target
    modifies g`pc, g`failed, g.code
    ensures g.Valid() && (!g.failed ==> low <= j && g.Out() == head + Jumps(t, otherwise, low, j + 1 - low, pos) && g.pc == old(g.pc) + 2)
    ensures g.failed <==> old(g.failed) || old(g.pc) + 2 > CODE_LENGTH
  {
    hide Jumps, Lookup, Wrap, Bytes;
    if !g.failed {
      JumpsMore(t, otherwise, low, j - low, pos);
    }
    g.PutWord(Wrap(target - g.pc));
  }

  /** The values from j up to the end of range i: first those between ranges, then the range. */
  lemma {:induction false} RangeLooked(tab: seq<Entry>, i: nat, j: int, otherwise: int)
    requires Ordered(tab) && i < |tab| && j == (if i == 0 then tab[0].low else tab[i - 1].high + 1)
    ensures forall k :: j <= k < tab[i].low ==> Lookup(tab, k, otherwise) == otherwise
    ensures forall k :: tab[i].low <= k <= tab[i].high ==> Lookup(tab, k, otherwise) == tab[i].target
    ensures tab[0].low <= j <= tab[i].low <= tab[i].high <= TableHigh(tab)
  {
    forall k | j <= k <= tab[i].high
      ensures Lookup(tab, k, otherwise) == if tab[i].low <= k then tab[i].target else otherwise
    {
      LookupAt(tab, i, k, otherwise);
    }
    assert i > 0 ==> tab[0].low <= tab[i - 1].low;
    assert tab[i].high <= tab[|tab| - 1].high;
  }

  function TableHead(tab: seq<Entry>, otherwise: int, pos: int): (s: seq<byte>)
    ensures |s| == 6
  {
    Bytes(Wrap(TableLow(tab))) + Bytes(Wrap(TableHigh(tab))) + Bytes(Wrap(otherwise - (pos + 4)))
  }

  /** The bounds of the table and the jump to ELSE. */
  method PutTableHead(g: Generator, other: nat, n: nat, tab: array<Entry>)
    requires g.Valid() && n <= tab.Length
    modifies g`pc, g`failed, g.code
    ensures g.Appended(TableHead(tab[..n], other, old(g.pc)), 0, 0)
  {
    hide Wrap, Bytes, Grow, TableHead;
    ghost var t := tab[..n];
    HeadGrows(g.Now(), t, other, g.pc);
    if n > 0 {
      g.PutWord(Wrap(tab[0].low));
      g.PutWord(Wrap(tab[n - 1].high));
    } else {
      g.PutWord(1);
      g.PutWord(0);
    }
    g.PutWord(Wrap(other - g.pc));
  }

  lemma {:induction false} HeadGrows(a: Progress, t: seq<Entry>, other: int, pos: int)
    ensures var low, high := if t == [] then 1 else Wrap(t[0].low), if t == [] then 0 else Wrap(t[|t| - 1].high);
            Grow(Grow(Grow(a, Bytes(low), 0, 0), Bytes(high), 0, 0), Bytes(Wrap(other - (pos + 4))), 0, 0) == Grow(a, TableHead(t, other, pos), 0, 0)
  {
    assert Wrap(1) == 1 && Wrap(0) == 0;
    hide Wrap, Bytes;
    var low, high := Wrap(TableLow(t)), Wrap(TableHigh(t));
    GrowTwice(a, Bytes(low), 0, 0, Bytes(high), 0, 0);
    GrowTwice(a, Bytes(low) + Bytes(high), 0, 0, Bytes(Wrap(other - (pos + 4))), 0, 0);
  }

  lemma {:induction false} NoJumps(tab: seq<Entry>, otherwise: int, low: int, pos: int, head: seq<byte>)
    ensures head + Jumps(tab, otherwise, low, 0, pos) == head
  {
  }

  /** The jump words of all ranges, with jumps to ELSE between them. */
  method PutRanges(g: Generator, other: nat, n: nat, tab: array<Entry>, ghost head: seq<byte>)
    requires g.Valid() && n <= tab.Length && (!g.failed ==> Ordered(tab[..n]) && g.Out() == head)
    modifies g`pc, g`failed, g.code
    ensures g.Appended(Jumps(tab[..n], other, TableLow(tab[..n]), TableSpan(tab[..n]), |head|), 0, 0)
  {
    hide Jumps, Lookup, Ordered;
    ghost var t, low, pos := tab[..n], TableLow(tab[..n]), |head|;
    NoJumps(t, other, low, pos, head);
    var i, j := 0, if n > 0 then tab[0].low else 1;
    while i < n
      invariant 0 <= i <= n && g.Valid() && t == tab[..n] && g.sp == old(g.sp) && (old(g.failed) ==> g.failed)
      invariant g.failed ==> old(g.failed) || pos + 2 * TableSpan(t) > CODE_LENGTH
      invariant !g.failed ==> low <= j && j == (if i == 0 then low else t[i - 1].high + 1)
      invariant !g.failed ==> g.Out() == head + Jumps(t, other, low, j - low, pos)
    {
      var lim := tab[i].high;
      if !g.failed {
        RangeLooked(t, i, j, other);
      }
      if lim - j + g.pc < CODE_LENGTH {
        j := PutJumps(g, t, other, low, pos, head, j, tab[i].low, other);
        j := PutJumps(g, t, other, low, pos, head, j, lim + 1, tab[i].target);
      } else {
        g.Err();
      }
      i := i + 1;
    }
  }

  /** A table is its head and its jump words. */
  lemma {:induction false} TableOfTwo(a: Progress, t: seq<Entry>, other: int, pc: nat)
    ensures Grow(Grow(a, TableHead(t, other, pc), 0, 0), Jumps(t, other, TableLow(t), TableSpan(t), pc + 6), 0, 0)
         == Grow(a, TableCode(t, other, pc), 0, 0)
  {
    hide Jumps, TableLow, TableSpan;
    GrowTwice(a, TableHead(t, other, pc), 0, 0, Jumps(t, other, TableLow(t), TableSpan(t), pc + 6), 0, 0);
  }

  /** `GenCase3`: the bounds, the jump to ELSE, and a jump word for every value between. */
  method GenCase3(g: Generator, loc: nat, other: nat, n: nat, tab: array<Entry>)
    requires g.Valid() && n <= tab.Length && (!g.failed ==> loc + 1 < g.pc && Ordered(tab[..n]))
    modifies g`pc, g`failed, g.code
    ensures g.Valid() && g.Now() == Grow(Patched(old(g.Now()), loc), TableCode(tab[..n], other, old(g.pc)), 0, 0)
  {
    hide Jumps, TableHead, TableLow, TableSpan, Ordered, Patched, Patch, Wrap, Grow, Bytes, TableCode, Lookup, TableHigh, TableLen;
    ghost var t, a := tab[..n], Patched(g.Now(), loc);
    TableOfTwo(a, t, other, g.pc);
    g.Fixup(loc);
    PutTableHead(g, other, n, tab);
    PutRanges(g, other, n, tab, if g.failed then [] else g.Out());
  }

  // ------------------------------------- labels counted from the first arm

  /** The same table with all labels counted from d bytes further back. */
  function Shift(tab: seq<Entry>, d: int): (t: seq<Entry>)
    ensures |t| == |tab| && forall i :: 0 <= i < |tab| ==> t[i] == tab[i].(target := tab[i].target + d)
  {
    if tab == [] then [] else Shift(tab[..|tab| - 1], d) + [tab[|tab| - 1].(target := tab[|tab| - 1].target + d)]
  }

  lemma {:induction false} InsertShift(tab: seq<Entry>, x: Entry, d: int)
    ensures Insert(Shift(tab, d), x.(target := x.target + d))
         == match Insert(tab, x) case None => None case Some(t) => Some(Shift(t, d))
    decreases |tab|
  {
    hide Shift;
    var y := x.(target := x.target + d);
    if tab == [] {
      assert Shift([x], d) == [y];
    } else {
      var init, last := tab[..|tab| - 1], tab[|tab| - 1];
      assert Shift(tab, d)[..|tab| - 1] == Shift(init, d);
      InsertShift(init, x, d);
      assert Shift(tab + [x], d) == Shift(tab, d) + [y];
      if Insert(init, x).Some? {
        var t := Insert(init, x).value;
        assert Shift(t + [last], d) == Shift(t, d) + [last.(target := last.target + d)];
      }
    }
  }

  lemma {:induction false} InsertAllShift(tab: seq<Entry>, rs: seq<Range>, target: int, d: int)
    ensures InsertAll(Shift(tab, d), rs, target + d)
         == match InsertAll(tab, rs, target) case None => None case Some(t) => Some(Shift(t, d))
    decreases |rs|
  {
    if rs != [] && !(rs[0].high < rs[0].low || |tab| >= MAX_CASES) {
      var x := Entry(rs[0].low, rs[0].high, target);
      InsertShift(tab, x, d);
      if Insert(tab, x).Some? {
        InsertAllShift(Insert(tab, x).value, rs[1..], target, d);
      }
    }
  }

  lemma {:induction false} LookupShift(tab: seq<Entry>, k: int, otherwise: int, d: int)
    ensures Lookup(Shift(tab, d), k, otherwise + d) == Lookup(tab, k, otherwise) + d
    decreases |tab|
  {
    if tab != [] {
      LookupShift(tab[1..], k, otherwise, d);
      assert Shift(tab, d)[1..] == Shift(tab[1..], d);
    }
  }

  lemma {:induction false} JumpsShift(tab: seq<Entry>, otherwise: int, k: int, n: nat, pos: int, d: int)
    ensures Jumps(Shift(tab, d), otherwise + d, k, n, pos + d) == Jumps(tab, otherwise, k, n, pos)
    decreases n
  {
    if n > 0 {
      LookupShift(tab, k, otherwise, d);
      JumpsShift(tab, otherwise, k + 1, n - 1, pos + 2, d);
      assert Lookup(Shift(tab, d), k, otherwise + d) - (pos + d) == Lookup(tab, k, otherwise) - pos;
      assert pos + d + 2 == pos + 2 + d;
    }
  }

  /** Displacements do not depend on where a CASE lies. */
  lemma {:induction false} TableShift(tab: seq<Entry>, otherwise: int, pos: int, d: int)
    ensures TableCode(Shift(tab, d), otherwise + d, pos + d) == TableCode(tab, otherwise, pos)
  {
    JumpsShift(tab, otherwise, TableLow(tab), TableSpan(tab), pos + 6, d);
    assert otherwise + d - (pos + d + 4) == otherwise - (pos + 4);
    assert pos + d + 6 == pos + 6 + d;
  }

  lemma {:induction false} OrderedShift(tab: seq<Entry>, d: int)
    ensures Ordered(Shift(tab, d)) == Ordered(tab)
  {
  }
}
