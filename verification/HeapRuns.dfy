/** When `hp_free_all` leaves a heap without neighbouring free blocks. */
module HeapRuns {
  import opened HeapList

  // ------------------------------------------------------- what a caller can see

  /** Blocks a up to e are released, and neither neighbour of them is. */
  predicate IsRun(bs: seq<Block>, a: nat, e: nat, v: Victim) {
    && 0 < a < e <= |bs| && (forall k :: a <= k < e ==> Matches(bs[k], v))
    && !Matches(bs[a - 1], v) && (e < |bs| ==> !Matches(bs[e], v))
  }

  /** A free block above the run lies within the limit, and when a free block lies below it, the run
      has an odd number of blocks. */
  predicate RunJoins(bs: seq<Block>, a: nat, e: nat, v: Victim)
    requires 0 < a < e <= |bs|
  {
    && (a > 1 && bs[a - 1].owner == 0 ==> WithinLimit(bs[a - 1], v))
    && (e < |bs| && bs[e].owner == 0 ==> (e - a) % 2 == 1)
  }

  predicate RunsFrom(bs: seq<Block>, i: nat, v: Victim) {
    forall a, e :: i <= a < e <= |bs| && IsRun(bs, a, e, v) ==> RunJoins(bs, a, e, v)
  }

  // ---------------------------------------------------------- what the sweep does

  /** Where the sweep goes on behind a released block. */
  function Behind(bs: seq<Block>, i: nat, v: Victim): (n: nat)
    requires i < |bs|
    ensures i < n <= |bs|
  {
    if i + 1 < |bs| && CountsFree(bs[i + 1], v) then i + 2 else i + 1
  }

  /** From block i on all goes well; the block above is not joined. */
  predicate Apart(bs: seq<Block>, i: nat, v: Victim)
    requires i <= |bs|
    decreases |bs| - i
  {
    if i == |bs| then true
    else if Matches(bs[i], v) then Below(bs, Behind(bs, i, v), v)
    else if bs[i].owner != 0 then Apart(bs, i + 1, v)
    else if WithinLimit(bs[i], v) then Below(bs, i + 1, v)
    else i + 1 < |bs| && !Matches(bs[i + 1], v) && Apart(bs, i + 1, v)
  }

  /** From block i on all goes well; the block above is free and within the limit. */
  predicate Below(bs: seq<Block>, i: nat, v: Victim)
    requires i <= |bs|
    decreases |bs| - i
  {
    if i == |bs| then true
    else if Matches(bs[i], v) then Below(bs, Behind(bs, i, v), v)
    else bs[i].owner != 0 && Apart(bs, i + 1, v)
  }

  /** From block j on no two neighbours are free, and neither is the lowest block. */
  predicate CoalescedFrom(bs: seq<Block>, j: nat) {
    forall k :: j <= k < |bs| && bs[k].owner == 0 ==> k + 1 < |bs| && bs[k + 1].owner != 0
  }

  /** The blocks of `now` from position j on are those of bs from i on. */
  predicate Same(now: seq<Block>, j: nat, bs: seq<Block>, i: nat) {
    j <= |now| && i <= |bs| && now[j..] == bs[i..]
  }

  lemma {:induction false} SameNext(now: seq<Block>, j: nat, bs: seq<Block>, i: nat, n: nat)
    requires Same(now, j, bs, i) && i + n <= |bs|
    ensures j + n <= |now| && Same(now, j + n, bs, i + n)
    ensures j < |now| <==> i < |bs|
    ensures j < |now| ==> now[j] == bs[i] && (i + 1 < |bs| <==> j + 1 < |now|) && (i + 1 < |bs| ==> now[j + 1] == bs[i + 1])
  {
    assert |now[j..]| == |bs[i..]|;
    assert now[j + n..] == now[j..][n..] && bs[i + n..] == bs[i..][n..];
    if j < |now| {
      assert now[j] == now[j..][0] && bs[i] == bs[i..][0];
      if i + 1 < |bs| {
        assert now[j + 1] == now[j..][1] && bs[i + 1] == bs[i..][1];
      }
    }
  }

  /** The sweep from position j on, below a block that is not joined. */
  lemma {:induction false} SweepApart(now: seq<Block>, j: nat, bs: seq<Block>, i: nat, v: Victim)
    requires Tiles(now) && v.ByOwner? && v.owner != 0 && CoalescedFrom(bs, 1) && 0 < i && 0 < j && Same(now, j, bs, i)
    requires !Matches(now[j - 1], v) && (j > 1 && now[j - 1].owner == 0 ==> !WithinLimit(now[j - 1], v))
    ensures var r := Sweep(now, j, v);
            && j <= |r| && r[..j] == now[..j] && (CoalescedFrom(r, j) <==> Apart(bs, i, v))
            && (j < |r| && r[j].owner != 0 <==> i < |bs| && !Matches(bs[i], v) && bs[i].owner != 0)
    decreases |bs| - i, 2
  {
    SameNext(now, j, bs, i, 0);
    if i < |bs| {
      SameNext(now, j, bs, i, 1);
      if Matches(bs[i], v) {
        ReleaseApart(now, j, bs, i, v);
      } else if bs[i].owner == 0 && WithinLimit(bs[i], v) {
        SweepBelow(now, j, bs, i + 1, v);
      } else {
        PassOver(now, j, bs, i, v);
      }
    }
  }

  /** A block that stays as it is, and is not joined with the next one. */
  lemma {:induction false} PassOver(now: seq<Block>, j: nat, bs: seq<Block>, i: nat, v: Victim)
    requires Tiles(now) && v.ByOwner? && v.owner != 0 && CoalescedFrom(bs, 1) && 0 < i < |bs| && 0 < j && Same(now, j, bs, i)
    requires !Matches(bs[i], v) && (bs[i].owner == 0 ==> !WithinLimit(bs[i], v))
    ensures var r := Sweep(now, j, v);
            j < |r| && r[..j] == now[..j] && r[j] == bs[i] && (CoalescedFrom(r, j) <==> Apart(bs, i, v))
    decreases |bs| - i, 1
  {
    hide Sweep, Tiles;
    SameNext(now, j, bs, i, 1);
    SweepSkips(now, j, j + 1, v);
    SweepApart(now, j + 1, bs, i + 1, v);
    var r := Sweep(now, j + 1, v);
    assert r[..j] == r[..j + 1][..j] && now[..j] == now[..j + 1][..j];
    assert r[j] == r[..j + 1][j] == now[j];
    OneMore(r, j);
  }

  lemma {:induction false} OneMore(r: seq<Block>, j: nat)
    requires j < |r|
    ensures CoalescedFrom(r, j) <==> CoalescedFrom(r, j + 1) && (r[j].owner == 0 ==> j + 1 < |r| && r[j + 1].owner != 0)
  {
  }

  /** A released block that is not joined with the one above. */
  lemma {:induction false} ReleaseApart(now: seq<Block>, j: nat, bs: seq<Block>, i: nat, v: Victim)
    requires Tiles(now) && v.ByOwner? && v.owner != 0 && CoalescedFrom(bs, 1) && 0 < i < |bs| && 0 < j && Same(now, j, bs, i)
    requires !Matches(now[j - 1], v) && (j > 1 && now[j - 1].owner == 0 ==> !WithinLimit(now[j - 1], v))
    requires Matches(bs[i], v)
    ensures var r := Sweep(now, j, v);
            && j <= |r| && r[..j] == now[..j] && (CoalescedFrom(r, j) <==> Apart(bs, i, v)) && (j < |r| ==> r[j].owner == 0)
    decreases |bs| - i, 1
  {
    hide Freed, Sweep, After, Below, Matches, Tiles, CoalescedFrom, Same;
    SameNext(now, j, bs, i, 1);
    var n := Behind(bs, i, v) - i;
    SameNext(now, j, bs, i, n);
    AboveFree(now, j, v);
    FreedForm(now, j, v);
    FreedTiles(now, j, v);
    FreedLow(now, j, v);
    var (b, lo) := Freed(now, j, v);
    Goes(now, j, bs, i, v, b, j, n);
  }

  /** The sweep goes on behind a released block that stands at position lo now. */
  lemma {:induction false} Goes(now: seq<Block>, at: nat, bs: seq<Block>, i: nat, v: Victim, b: seq<Block>, lo: nat, n: nat)
    requires Tiles(now) && v.ByOwner? && v.owner != 0 && CoalescedFrom(bs, 1) && 0 < i < |bs| && 0 < lo <= at < |now|
    requires Matches(now[at], v) && Freed(now, at, v) == (b, lo) && n > 0 && i + n <= |bs| && Same(now, at + n, bs, i + n)
    requires Tiles(b) && lo < |b| && b == now[..lo] + [b[lo]] + now[at + n..] && b[lo].owner == 0 && b[lo].adr <= v.limit
    ensures var r := Sweep(now, at, v);
            && lo <= |r| && r[..lo] == now[..lo] && (CoalescedFrom(r, lo) <==> Below(bs, i + n, v)) && (lo < |r| ==> r[lo].owner == 0)
    decreases |bs| - i - n, 2
  {
    hide Sweep, Freed, Tiles, Below, CoalescedFrom;
    SameNext(now, at + n, bs, i + n, 0);
    SweepOnward(now, at, v);
    assert b[..lo] == now[..lo] && b[lo + 1..] == now[at + n..];
    if lo == |b| - 1 {
      NothingBelow(bs, i + n, b[..lo], lo, v);
    } else {
      SweepBelow(b, lo, bs, i + n, v);
    }
  }

  lemma {:induction false} SweepOnward(now: seq<Block>, at: nat, v: Victim)
    requires v.ByOwner? && 0 < at < |now| && Matches(now[at], v)
    ensures var (b, lo) := Freed(now, at, v); Sweep(now, at, v) == if lo == |b| - 1 then b[..lo] else Sweep(b, lo, v)
  {
    FreedOwned(now, at, v);
  }

  lemma {:induction false} NothingBelow(bs: seq<Block>, i: nat, r: seq<Block>, j: nat, v: Victim)
    requires i == |bs| && j == |r|
    ensures Below(bs, i, v) && CoalescedFrom(r, j)
  {
  }

  /** A block above that is not joined cannot count as free. */
  lemma {:induction false} AboveFree(now: seq<Block>, j: nat, v: Victim)
    requires Tiles(now) && v.ByOwner? && 0 < j < |now| && Matches(now[j], v)
    requires !Matches(now[j - 1], v) && (j > 1 && now[j - 1].owner == 0 ==> !WithinLimit(now[j - 1], v))
    ensures j > 1 && WithinLimit(now[j - 1], v) && CountsFree(now[j - 1], v) ==> now[j - 1].owner == 0
  {
  }

  /** The sweep from position j + 1 on, below a free block within the limit. */
  lemma {:induction false} SweepBelow(now: seq<Block>, j: nat, bs: seq<Block>, i: nat, v: Victim)
    requires Tiles(now) && v.ByOwner? && v.owner != 0 && CoalescedFrom(bs, 1) && 0 < i && 0 < j < |now| && Same(now, j + 1, bs, i)
    requires now[j].owner == 0 && WithinLimit(now[j], v) && i < |bs|
    ensures var r := Sweep(now, j, v);
            && j <= |r| && r[..j] == now[..j] && (CoalescedFrom(r, j) <==> Below(bs, i, v)) && (j < |r| ==> r[j].owner == 0)
    decreases |bs| - i, 1
  {
    SameNext(now, j + 1, bs, i, 1);
    SweepSkips(now, j, j + 1, v);
    if Matches(bs[i], v) {
      JoinBelow(now, j, bs, i, v);
    } else if bs[i].owner == 0 {
      FreeBelow(now, j, bs, i, v);
    } else {
      hide Sweep, Tiles;
      SweepSkips(now, j + 1, j + 2, v);
      SweepApart(now, j + 2, bs, i + 1, v);
      var r := Sweep(now, j, v);
      assert r[j + 1] == r[..j + 2][j + 1] == now[j + 1] && r[j] == r[..j + 2][j] == now[j];
      assert r[..j] == r[..j + 2][..j] && now[..j] == now[..j + 2][..j];
      OneMore(r, j + 1);
      OneMore(r, j);
    }
  }

  /** The next block is released, too: it is joined. */
  lemma {:induction false} JoinBelow(now: seq<Block>, j: nat, bs: seq<Block>, i: nat, v: Victim)
    requires Tiles(now) && v.ByOwner? && v.owner != 0 && CoalescedFrom(bs, 1) && 0 < i && 0 < j < |now| && Same(now, j + 1, bs, i)
    requires now[j].owner == 0 && WithinLimit(now[j], v) && i < |bs| && Matches(bs[i], v)
    ensures var r := Sweep(now, j + 1, v);
            && j <= |r| && r[..j] == now[..j] && (CoalescedFrom(r, j) <==> Below(bs, i, v)) && (j < |r| ==> r[j].owner == 0)
    decreases |bs| - i, 0
  {
    hide Sweep, Joined;
    var n := Behind(bs, i, v) - i;
    SameNext(now, j + 1, bs, i, 1);
    SameNext(now, j + 1, bs, i, n);
    FreedForm(now, j + 1, v);
    FreedTiles(now, j + 1, v);
    FreedLow(now, j + 1, v);
    var (b, lo) := Freed(now, j + 1, v);
    Goes(now, j + 1, bs, i, v, b, j, n);
  }

  /** The next block is free already: two free neighbours stay. */
  lemma {:induction false} FreeBelow(now: seq<Block>, j: nat, bs: seq<Block>, i: nat, v: Victim)
    requires Tiles(now) && v.ByOwner? && v.owner != 0 && CoalescedFrom(bs, 1) && 0 < i && 0 < j < |now| && Same(now, j + 1, bs, i)
    requires now[j].owner == 0 && WithinLimit(now[j], v) && i < |bs| && bs[i].owner == 0
    ensures var r := Sweep(now, j + 1, v); j < |r| && r[..j] == now[..j] && !CoalescedFrom(r, j) && r[j].owner == 0
    decreases |bs| - i, 0
  {
    SameNext(now, j + 1, bs, i, 1);
    Descends(now, j, j + 1);
    SweepBelow(now, j + 1, bs, i + 1, v);
    var r := Sweep(now, j + 1, v);
    assert r[j] == r[..j + 1][j] == now[j] && r[..j] == r[..j + 1][..j] && now[..j] == now[..j + 1][..j];
    OneMore(r, j);
  }

  // ------------------------------------------------------- run by run

  /** Where the released blocks from i on end. */
  function RunEnd(bs: seq<Block>, i: nat, v: Victim): (e: nat)
    requires i <= |bs|
    ensures i <= e <= |bs| && (e < |bs| ==> !Matches(bs[e], v)) && forall k :: i <= k < e ==> Matches(bs[k], v)
    decreases |bs| - i
  {
    if i == |bs| || !Matches(bs[i], v) then i else RunEnd(bs, i + 1, v)
  }

  /** A run is released two blocks at a time, the last one with the block below when their number is
      odd. */
  lemma {:induction false} RunGoes(bs: seq<Block>, i: nat, e: nat, v: Victim)
    requires Tiles(bs) && v.ByOwner? && v.owner != 0 && 0 < i && i <= e <= |bs|
    requires (forall k :: i <= k < e ==> Matches(bs[k], v)) && (e < |bs| ==> !Matches(bs[e], v))
    ensures Below(bs, i, v) == if e == |bs| then true
                               else if bs[e].owner == 0 && i < e then (e - i) % 2 == 1 && Below(bs, e + 1, v)
                               else bs[e].owner != 0 && Apart(bs, e + 1, v)
    decreases e - i
  {
    if i + 1 < e {
      RunGoes(bs, i + 2, e, v);
    } else if i + 1 == e < |bs| {
      Descends(bs, i, e);
    }
  }

  /** No run begins at a block that stays. */
  lemma {:induction false} RunsNext(bs: seq<Block>, i: nat, v: Victim)
    requires i < |bs| && !Matches(bs[i], v)
    ensures RunsFrom(bs, i, v) <==> RunsFrom(bs, i + 1, v)
  {
    forall a, e | i <= a < e <= |bs| && IsRun(bs, a, e, v)
      ensures a != i
    {
    }
  }

  /** The run that begins at a, and those below it. */
  lemma {:induction false} RunsSplit(bs: seq<Block>, a: nat, v: Victim)
    requires 0 < a < |bs| && Matches(bs[a], v) && !Matches(bs[a - 1], v)
    ensures var e := RunEnd(bs, a, v); a < e && (RunsFrom(bs, a, v) <==> RunJoins(bs, a, e, v) && RunsFrom(bs, e, v))
  {
    var e := RunEnd(bs, a, v);
    assert IsRun(bs, a, e, v);
    forall b, f | a <= b < f <= |bs| && IsRun(bs, b, f, v)
      ensures b >= e || (b == a && f == e)
    {
    }
  }

  /** Whether a sweep goes well is a matter of the runs it meets. */
  lemma {:induction false} ApartRuns(bs: seq<Block>, i: nat, v: Victim)
    requires Tiles(bs) && CoalescedFrom(bs, 1) && v.ByOwner? && v.owner != 0 && 0 < i <= |bs| && !Matches(bs[i - 1], v)
    requires i == 1 || bs[i - 1].owner != 0
    ensures Apart(bs, i, v) <==> RunsFrom(bs, i, v)
    decreases |bs| - i, 1
  {
    if i < |bs| {
      if Matches(bs[i], v) {
        FirstRun(bs, i, v);
      } else {
        RunsNext(bs, i, v);
        if bs[i].owner != 0 {
          ApartRuns(bs, i + 1, v);
        } else if WithinLimit(bs[i], v) {
          BelowRuns(bs, i + 1, v);
        } else if Matches(bs[i + 1], v) {
          RunsSplit(bs, i + 1, v);
        } else {
          RunsNext(bs, i + 1, v);
          ApartRuns(bs, i + 2, v);
        }
      }
    }
  }

  lemma {:induction false} BelowRuns(bs: seq<Block>, i: nat, v: Victim)
    requires Tiles(bs) && CoalescedFrom(bs, 1) && v.ByOwner? && v.owner != 0 && 1 < i < |bs| && !Matches(bs[i - 1], v)
    requires bs[i - 1].owner == 0 && WithinLimit(bs[i - 1], v)
    ensures Below(bs, i, v) <==> RunsFrom(bs, i, v)
    decreases |bs| - i, 1
  {
    if Matches(bs[i], v) {
      FirstRun(bs, i, v);
    } else {
      RunsNext(bs, i, v);
      ApartRuns(bs, i + 1, v);
    }
  }

  lemma {:induction false} FirstRun(bs: seq<Block>, i: nat, v: Victim)
    requires Tiles(bs) && CoalescedFrom(bs, 1) && v.ByOwner? && v.owner != 0 && 0 < i < |bs| && !Matches(bs[i - 1], v)
    requires Matches(bs[i], v) && (i > 1 && bs[i - 1].owner == 0 ==> WithinLimit(bs[i - 1], v))
    ensures Below(bs, i, v) == Apart(bs, i, v) && (Below(bs, i, v) <==> RunsFrom(bs, i, v))
    decreases |bs| - i, 0
  {
    hide RunsFrom, IsRun, RunEnd, Tiles, HeapList.Apart, WithinLimit, Behind, CountsFree;
    var e := RunEnd(bs, i, v);
    RunsSplit(bs, i, v);
    RunGoes(bs, i, e, v);
    if e < |bs| {
      RunsNext(bs, e, v);
      if bs[e].owner == 0 {
        Descends(bs, i, e);
        BelowRuns(bs, e + 1, v);
      } else {
        ApartRuns(bs, e + 1, v);
      }
    } else {
      NoRuns(bs, v);
    }
  }

  lemma {:induction false} NoRuns(bs: seq<Block>, v: Victim)
    ensures RunsFrom(bs, |bs|, v)
  {
  }

  /** `hp_free_all` leaves a coalesced heap coalesced if and only if every run of blocks it releases
      has an odd number of blocks when a free block lies below it, and has no free block above it
      that lies beyond the limit. */
  lemma {:induction false} FreeAllCoalesces(bs: seq<Block>, owner: nat, limit: int)
    requires Tiles(bs) && Coalesced(bs) && owner != 0
    ensures Coalesced(FreeAll(bs, owner, limit)) <==> RunsFrom(bs, 1, ByOwner(owner, limit))
  {
    var v := ByOwner(owner, limit);
    assert bs[1..] == bs[1..];
    SweepApart(bs, 1, bs, 1, v);
    ApartRuns(bs, 1, v);
  }
}
