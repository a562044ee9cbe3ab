/** The jump table of a CASE: ranges stay ordered and disjoint, an overlap is found exactly when
    there is one, and looking a selector up in the finished table finds the arm that the source
    program selects. */
module CaseTable {
  import opened Words
  import opened Options
  import opened StmtLang
  import opened StmtGen

  /** Ranges are nonempty, ascending and disjoint. */
  predicate Ordered(tab: seq<Entry>) {
    && (forall i :: 0 <= i < |tab| ==> tab[i].low <= tab[i].high)
    && (forall i, j :: 0 <= i < j < |tab| ==> tab[i].high < tab[j].low)
  }

  predicate Overlap(x: Entry, y: Entry) {
    x.low <= y.high && y.low <= x.high
  }

  predicate OverlapsSome(tab: seq<Entry>, x: Entry) {
    exists i :: 0 <= i < |tab| && Overlap(tab[i], x)
  }

  lemma {:induction false} OverlapsSplit(tab: seq<Entry>, x: Entry)
    requires tab != []
    ensures OverlapsSome(tab, x) <==> OverlapsSome(tab[..|tab| - 1], x) || Overlap(tab[|tab| - 1], x)
  {
    var init := tab[..|tab| - 1];
    forall i | 0 <= i < |init|
      ensures Overlap(init[i], x) <==> Overlap(tab[i], x)
    {
    }
    if OverlapsSome(init, x) {
      var i :| 0 <= i < |init| && Overlap(init[i], x);
      assert Overlap(tab[i], x);
    }
    if OverlapsSome(tab, x) && !Overlap(tab[|tab| - 1], x) {
      var i :| 0 <= i < |tab| && Overlap(tab[i], x);
      assert Overlap(init[i], x);
    }
  }

  /** Error 62 is reported exactly for a range that overlaps one already in the table. */
  lemma {:induction false} OverlapFound(tab: seq<Entry>, x: Entry)
    requires Ordered(tab) && x.low <= x.high
    ensures Insert(tab, x) == None <==> OverlapsSome(tab, x)
    decreases |tab|
  {
    if tab != [] {
      var init, last := tab[..|tab| - 1], tab[|tab| - 1];
      OverlapsSplit(tab, x);
      if last.low <= x.high {
        if OverlapsSome(init, x) {
          var i :| 0 <= i < |init| && Overlap(init[i], x);
          assert init[i].high < last.low;
        }
      } else {
        OverlapFound(init, x);
      }
    }
  }

  /** Insertion adds exactly the new entry. */
  lemma {:induction false} InsertAdds(tab: seq<Entry>, x: Entry)
    requires Insert(tab, x).Some?
    ensures multiset(Insert(tab, x).value) == multiset(tab) + multiset{x}
    decreases |tab|
  {
    if tab != [] {
      var init, last := tab[..|tab| - 1], tab[|tab| - 1];
      assert tab == init + [last];
      if !(last.low <= x.high) {
        InsertAdds(init, x);
      }
    }
  }

  /** Insertion keeps the order. */
  lemma {:induction false} InsertOrdered(tab: seq<Entry>, x: Entry)
    requires Ordered(tab) && x.low <= x.high && Insert(tab, x).Some?
    ensures Ordered(Insert(tab, x).value)
    decreases |tab|
  {
    if tab != [] {
      var init, last := tab[..|tab| - 1], tab[|tab| - 1];
      if !(last.low <= x.high) {
        InsertOrdered(init, x);
        InsertAdds(init, x);
        StaysBelow(init, x, Insert(init, x).value, last.low);
      }
    }
  }

  lemma {:induction false} StaysBelow(tab: seq<Entry>, x: Entry, t: seq<Entry>, bound: int)
    requires multiset(t) == multiset(tab) + multiset{x}
    requires x.high < bound && forall i :: 0 <= i < |tab| ==> tab[i].high < bound
    ensures forall i :: 0 <= i < |t| ==> t[i].high < bound
  {
    forall i | 0 <= i < |t|
      ensures t[i].high < bound
    {
      assert t[i] in multiset(t);
    }
  }

  predicate InTable(tab: seq<Entry>, k: int) {
    exists i :: 0 <= i < |tab| && tab[i].low <= k <= tab[i].high
  }

  /** A label is in the table before or new, never both. */
  lemma {:induction false} InsertCovers(tab: seq<Entry>, x: Entry, k: int)
    requires Ordered(tab) && x.low <= x.high && Insert(tab, x).Some?
    ensures InTable(Insert(tab, x).value, k) <==> InTable(tab, k) || x.low <= k <= x.high
    ensures !(InTable(tab, k) && x.low <= k <= x.high)
  {
    InsertAdds(tab, x);
    OverlapFound(tab, x);
    var t := Insert(tab, x).value;
    if InTable(t, k) {
      var i :| 0 <= i < |t| && t[i].low <= k <= t[i].high;
      assert t[i] in multiset(t);
      assert t[i] == x || t[i] in tab;
    }
    if InTable(tab, k) {
      var i :| 0 <= i < |tab| && tab[i].low <= k <= tab[i].high;
      assert tab[i] in multiset(t);
      assert tab[i] in t;
      assert !Overlap(tab[i], x);
    }
    if x.low <= k <= x.high {
      assert x in multiset(t);
      assert x in t;
    }
  }

  lemma {:induction false} LookupAppend(a: seq<Entry>, b: seq<Entry>, k: int, otherwise: int)
    ensures Lookup(a + b, k, otherwise) == Lookup(a, k, Lookup(b, k, otherwise))
    decreases |a|
  {
    if a == [] {
      assert a + b == b;
    } else {
      assert (a + b)[1..] == a[1..] + b;
      LookupAppend(a[1..], b, k, otherwise);
    }
  }

  lemma {:induction false} LookupAbsent(tab: seq<Entry>, k: int, otherwise: int)
    requires forall i :: 0 <= i < |tab| ==> !(tab[i].low <= k <= tab[i].high)
    ensures Lookup(tab, k, otherwise) == otherwise
    decreases |tab|
  {
    if tab != [] {
      LookupAbsent(tab[1..], k, otherwise);
    }
  }

  /** A new entry decides for its own range and changes nothing elsewhere. */
  lemma {:induction false} InsertLookup(tab: seq<Entry>, x: Entry, k: int, otherwise: int)
    requires Ordered(tab) && x.low <= x.high && Insert(tab, x).Some?
    ensures Lookup(Insert(tab, x).value, k, otherwise)
         == if x.low <= k <= x.high then x.target else Lookup(tab, k, otherwise)
    decreases |tab|
  {
    if tab != [] {
      var init, last := tab[..|tab| - 1], tab[|tab| - 1];
      assert tab == init + [last];
      if last.low <= x.high {
        LookupAppend(tab, [x], k, otherwise);
        if x.low <= k <= x.high {
          LookupAbsent(tab, k, x.target);
        }
      } else {
        InsertLookup(init, x, k, Lookup([last], k, otherwise));
        LookupAppend(Insert(init, x).value, [last], k, otherwise);
        LookupAppend(init, [last], k, otherwise);
      }
    }
  }

  lemma {:induction false} InsertAllMeaning(tab: seq<Entry>, rs: seq<Range>, target: int, k: int, otherwise: int)
    requires Ordered(tab) && InsertAll(tab, rs, target).Some?
    ensures var t := InsertAll(tab, rs, target).value;
            && Ordered(t)
            && Lookup(t, k, otherwise) == (if InRanges(k, rs) then target else Lookup(tab, k, otherwise))
            && (InTable(t, k) <==> InTable(tab, k) || InRanges(k, rs))
    ensures !(InTable(tab, k) && InRanges(k, rs))
    decreases |rs|
  {
    if rs != [] {
      var x := Entry(rs[0].low, rs[0].high, target);
      var t := Insert(tab, x).value;
      InsertOrdered(tab, x);
      InsertLookup(tab, x, k, otherwise);
      InsertCovers(tab, x, k);
      InsertAllMeaning(t, rs[1..], target, k, otherwise);
      InRangesSplit(k, rs);
    }
  }

  lemma {:induction false} InRangesSplit(k: int, rs: seq<Range>)
    requires rs != []
    ensures InRanges(k, rs) == (rs[0].low <= k <= rs[0].high || InRanges(k, rs[1..]))
  {
    if InRanges(k, rs[1..]) {
      var i :| 0 <= i < |rs[1..]| && rs[1..][i].low <= k <= rs[1..][i].high;
      assert rs[i + 1].low <= k <= rs[i + 1].high;
    }
    if InRanges(k, rs) && !(rs[0].low <= k <= rs[0].high) {
      var i :| 0 <= i < |rs| && rs[i].low <= k <= rs[i].high;
      assert rs[1..][i - 1].low <= k <= rs[1..][i - 1].high;
    }
  }

  /** Where the code of the arm selected by k starts, counted like `at`. */
  function ArmPlace(a: Arms, fa: FlowArms, at: nat, k: int): Option<nat>
    decreases a
  {
    if a.NoArms? || fa.NoFlowArms? then None
    else if InRanges(k, a.labels) then Some(at)
    else ArmPlace(a.rest, fa.rest, at + Size(fa.body) + 1, k)
  }

  /** The finished table sends each selector to its own arm, and all others to ELSE. */
  lemma {:induction false} TableSelects(a: Arms, fa: FlowArms, at: nat, tab: seq<Entry>, t: seq<Entry>, k: int, otherwise: int)
    requires Ordered(tab) && ArmTable(a, fa, at, tab) == Some(t)
    ensures Ordered(t)
    ensures Lookup(t, k, otherwise)
         == match ArmPlace(a, fa, at, k) case Some(n) => n case None => Lookup(tab, k, otherwise)
    ensures InTable(tab, k) ==> ArmPlace(a, fa, at, k) == None
    decreases a
  {
    if a.Arm? && fa.FlowArm? {
      var u := InsertAll(tab, a.labels, at).value;
      InsertAllMeaning(tab, a.labels, at, k, otherwise);
      TableSelects(a.rest, fa.rest, at + Size(fa.body) + 1, u, t, k, otherwise);
    }
  }

  // ------------------------------------------------------- the table as bytes

  /** Labels that are the same number signed and unsigned. */
  predicate Within(tab: seq<Entry>) {
    forall i :: 0 <= i < |tab| ==> 0 <= tab[i].low && tab[i].high < 0x8000
  }

  lemma {:induction false} OutsideTable(tab: seq<Entry>, k: int, otherwise: int)
    requires Ordered(tab) && !(TableLow(tab) <= k <= TableHigh(tab))
    ensures Lookup(tab, k, otherwise) == otherwise
  {
    forall i | 0 <= i < |tab|
      ensures !(tab[i].low <= k <= tab[i].high)
    {
      assert tab[0].low <= tab[i].low;
      assert tab[i].high <= tab[|tab| - 1].high;
    }
    LookupAbsent(tab, k, otherwise);
  }

  lemma {:induction false} SpanOf(tab: seq<Entry>)
    requires Ordered(tab) && Within(tab)
    ensures TableSpan(tab) == TableHigh(tab) - TableLow(tab) + 1
    ensures 0 <= TableLow(tab) < 0x8000 && 0 <= TableHigh(tab) < 0x8000
  {
    if tab != [] {
      assert tab[0].low <= tab[|tab| - 1].low;
    }
  }

  /** The j-th jump word of a table. */
  lemma {:induction false} JumpAt(tab: seq<Entry>, otherwise: int, k: int, n: nat, pos: int, j: nat)
    requires j < n
    ensures Jumps(tab, otherwise, k, n, pos)[2 * j..2 * j + 2] == Bytes(Wrap(Lookup(tab, k + j, otherwise) - (pos + 2 * j)))
    decreases n
  {
    hide Wrap;
    var head, rest := Bytes(Wrap(Lookup(tab, k, otherwise) - pos)), Jumps(tab, otherwise, k + 1, n - 1, pos + 2);
    if j == 0 {
      assert (head + rest)[0..2] == head;
    } else {
      JumpAt(tab, otherwise, k + 1, n - 1, pos + 2, j - 1);
      assert (head + rest)[2 * j..2 * j + 2] == rest[2 * (j - 1)..2 * (j - 1) + 2];
    }
  }

  /** The words of a table: its bounds, the jump for ELSE, and the jump for each label. */
  lemma {:induction false} TableWords(tab: seq<Entry>, otherwise: int, pos: int, k: int)
    ensures var t := TableCode(tab, otherwise, pos);
            && t[0..2] == Bytes(Wrap(TableLow(tab))) && t[2..4] == Bytes(Wrap(TableHigh(tab)))
            && t[4..6] == Bytes(Wrap(otherwise - (pos + 4)))
            && (TableLow(tab) <= k <= TableHigh(tab) ==>
                  var i := 6 + 2 * (k - TableLow(tab));
                  i + 2 <= |t| && t[i..i + 2] == Bytes(Wrap(Lookup(tab, k, otherwise) - (pos + i))))
  {
    var a, b, c := Bytes(Wrap(TableLow(tab))), Bytes(Wrap(TableHigh(tab))), Bytes(Wrap(otherwise - (pos + 4)));
    var js := Jumps(tab, otherwise, TableLow(tab), TableSpan(tab), pos + 6);
    var t := TableCode(tab, otherwise, pos);
    assert t == a + b + c + js;
    assert t[0..2] == a && t[2..4] == b && t[4..6] == c;
    if TableLow(tab) <= k <= TableHigh(tab) {
      var j := k - TableLow(tab);
      JumpAt(tab, otherwise, TableLow(tab), TableSpan(tab), pos + 6, j);
      assert t[6 + 2 * j..8 + 2 * j] == js[2 * j..2 * j + 2];
    }
  }
}
