/** The heap as the list of its blocks, from the top of memory down: what allocation and release
    do to the list, and what they keep. */
module HeapList {
  import opened Options

  /** A block of `size` words from `adr` on; owner 0 is free. */
  datatype Block = Block(adr: int, size: int, owner: nat)

  const HEAP_TOP: int := 0xFFFF

  /** The header that marks the top; it belongs to nobody and is never released. */
  const TOP_BLOCK := Block(HEAP_TOP, 0, 0)

  /** Blocks tile the memory between the heap limit and the top, without gaps or overlaps. */
  predicate Tiles(bs: seq<Block>) {
    && bs != [] && bs[0] == TOP_BLOCK
    && forall i :: 0 < i < |bs| ==> bs[i].size > 0 && bs[i].adr + bs[i].size == bs[i - 1].adr
  }

  /** `gs_H`: the lowest address of the heap. */
  function Limit(bs: seq<Block>): int
    requires bs != []
  {
    bs[|bs| - 1].adr
  }

  // ------------------------------------------------------------- allocation

  predicate Fits(b: Block, size: int) {
    b.owner == 0 && b.size >= size
  }

  /** The first gap from i on that is large enough. */
  function FirstFit(bs: seq<Block>, i: nat, size: int): (r: nat)
    requires i <= |bs|
    ensures i <= r <= |bs| && (r < |bs| ==> Fits(bs[r], size))
    ensures forall k :: i <= k < r ==> !Fits(bs[k], size)
    decreases |bs| - i
  {
    if i == |bs| || Fits(bs[i], size) then i else FirstFit(bs, i + 1, size)
  }

  /** A gap taken from its upper end. */
  function TakeGap(bs: seq<Block>, i: nat, owner: nat, size: int): seq<Block>
    requires i < |bs|
  {
    var b := bs[i];
    if b.size > size then
      bs[..i] + [Block(b.adr + (b.size - size), size, owner), Block(b.adr, b.size - size, 0)] + bs[i + 1..]
    else bs[i := b.(owner := owner)]
  }

  function Rounded(size: nat): nat {
    if size == 0 then 1 else size
  }

  /** `hp_alloc` with the memory stack ending at `stack`: the new list and the block's address. */
  function Alloc(bs: seq<Block>, stack: int, owner: nat, size: nat): Option<(seq<Block>, int)>
    requires bs != []
  {
    var n := Rounded(size);
    var i := FirstFit(bs, 0, n);
    if i < |bs| then Some((TakeGap(bs, i, owner, n), TakeGap(bs, i, owner, n)[i].adr))
    else if Limit(bs) - stack > n then Some((bs + [Block(Limit(bs) - n, n, owner)], Limit(bs) - n))
    else None
  }

  // ---------------------------------------------------------------- release

  /** Who is released: the block at a given address, or all blocks of an owner up to a limit. */
  datatype Victim = ByPtr(ptr: int) | ByOwner(owner: nat, limit: int)

  predicate Matches(b: Block, v: Victim) {
    && b.owner != 0
    && match v
       case ByPtr(ptr) => b.adr == ptr
       case ByOwner(o, limit) => b.owner == o && b.adr <= limit
  }

  predicate WithinLimit(b: Block, v: Victim) {
    v.ByOwner? ==> b.adr <= v.limit
  }

  predicate CountsFree(b: Block, v: Victim) {
    b.owner == 0 || (v.ByOwner? && b.owner == v.owner)
  }

  /** Blocks i and i+1 as one; it keeps the owner of the upper one. */
  function Joined(bs: seq<Block>, i: nat): (r: seq<Block>)
    requires i + 1 < |bs|
    ensures |r| == |bs| - 1
  {
    bs[..i] + [Block(bs[i + 1].adr, bs[i].size + bs[i + 1].size, bs[i].owner)] + bs[i + 2..]
  }

  /** Block i set free and joined with its neighbours: the new list and where the block is in it. */
  function Freed(bs: seq<Block>, i: nat, v: Victim): (r: (seq<Block>, nat))
    requires 0 < i < |bs|
    ensures 0 < r.1 < |r.0| && r.1 <= i && |r.0| <= |bs|
  {
    var b1 := bs[i := bs[i].(owner := 0)];
    var up := i > 1 && WithinLimit(bs[i - 1], v) && CountsFree(bs[i - 1], v);
    var (b2, j) := if up then (Joined(b1, i - 1), i - 1) else (b1, i);
    if j + 1 < |b2| && CountsFree(b2[j + 1], v) then (Joined(b2, j), j) else (b2, j)
  }

  /** The lowest block is given back when it is free. */
  function Trimmed(bs: seq<Block>, j: nat): (r: seq<Block>)
    requires j < |bs|
    ensures 0 < j ==> r != []
  {
    if j == |bs| - 1 then bs[..j] else bs
  }

  function Find(bs: seq<Block>, i: nat, v: Victim): (r: nat)
    requires i <= |bs|
    ensures i <= r <= |bs| && (r < |bs| ==> Matches(bs[r], v))
    ensures forall k :: i <= k < r ==> !Matches(bs[k], v)
    decreases |bs| - i
  {
    if i == |bs| || Matches(bs[i], v) then i else Find(bs, i + 1, v)
  }

  /** `hp_free`; nothing for an address where no block starts. */
  function Free(bs: seq<Block>, ptr: int): Option<seq<Block>>
    requires bs != []
  {
    var i := Find(bs, 1, ByPtr(ptr));
    if i == |bs| then None
    else
      var (b, j) := Freed(bs, i, ByPtr(ptr));
      Some(Trimmed(b, j))
  }

  /** How many blocks of the list still match. */
  function Owned(bs: seq<Block>, v: Victim): nat {
    if bs == [] then 0 else (if Matches(bs[0], v) then 1 else 0) + Owned(bs[1..], v)
  }

  /** `hp_free_all` from block i on. */
  function Sweep(bs: seq<Block>, i: nat, v: Victim): (r: seq<Block>)
    requires 0 < i <= |bs| && v.ByOwner?
    ensures r != []
    decreases Owned(bs, v), |bs| - i
  {
    if i == |bs| then bs
    else if Matches(bs[i], v) then
      FreedOwned(bs, i, v);
      var (b, j) := Freed(bs, i, v);
      if j == |b| - 1 then b[..j] else Sweep(b, j, v)
    else Sweep(bs, i + 1, v)
  }

  function FreeAll(bs: seq<Block>, owner: nat, limit: int): seq<Block>
    requires bs != []
  {
    Sweep(bs, 1, ByOwner(owner, limit))
  }

  lemma {:induction false} OwnedConcat(a: seq<Block>, b: seq<Block>, v: Victim)
    ensures Owned(a + b, v) == Owned(a, v) + Owned(b, v)
  {
    if a == [] {
      assert a + b == b;
    } else {
      assert (a + b)[1..] == a[1..] + b;
      OwnedConcat(a[1..], b, v);
    }
  }

  lemma {:induction false} OwnedParts(a: seq<Block>, b: Block, c: seq<Block>, v: Victim)
    ensures Owned(a + [b] + c, v) == Owned(a, v) + (if Matches(b, v) then 1 else 0) + Owned(c, v)
  {
    OwnedConcat(a + [b], c, v);
    OwnedConcat(a, [b], v);
    assert [b][1..] == [];
    assert Owned([b], v) == (if Matches(b, v) then 1 else 0) + Owned([], v);
  }

  lemma {:induction false} JoinedOwned(bs: seq<Block>, i: nat, v: Victim)
    requires i + 1 < |bs|
    requires bs[i].owner == 0 || (v.ByOwner? && WithinLimit(bs[i], v))
    ensures Owned(Joined(bs, i), v) <= Owned(bs, v)
  {
    var u := Block(bs[i + 1].adr, bs[i].size + bs[i + 1].size, bs[i].owner);
    OwnedParts(bs[..i], u, bs[i + 2..], v);
    assert bs == bs[..i] + [bs[i]] + ([bs[i + 1]] + bs[i + 2..]);
    OwnedParts(bs[..i], bs[i], [bs[i + 1]] + bs[i + 2..], v);
    OwnedParts([], bs[i + 1], bs[i + 2..], v);
    assert [] + [bs[i + 1]] + bs[i + 2..] == [bs[i + 1]] + bs[i + 2..];
  }

  /** Every release leaves fewer blocks to release. */
  lemma {:induction false} FreedOwned(bs: seq<Block>, i: nat, v: Victim)
    requires 0 < i < |bs| && v.ByOwner? && Matches(bs[i], v)
    ensures Owned(Freed(bs, i, v).0, v) < Owned(bs, v)
  {
    var b1 := bs[i := bs[i].(owner := 0)];
    assert bs == bs[..i] + [bs[i]] + bs[i + 1..] && b1 == bs[..i] + [b1[i]] + bs[i + 1..];
    OwnedParts(bs[..i], bs[i], bs[i + 1..], v);
    OwnedParts(bs[..i], b1[i], bs[i + 1..], v);
    var up := i > 1 && WithinLimit(bs[i - 1], v) && CountsFree(bs[i - 1], v);
    if up {
      JoinedOwned(b1, i - 1, v);
    }
    var (b2, j) := if up then (Joined(b1, i - 1), i - 1) else (b1, i);
    if j + 1 < |b2| && CountsFree(b2[j + 1], v) {
      JoinedOwned(b2, j, v);
    }
  }

  // ----------------------------------------------------------------- tiling

  /** Of two blocks the later one lies below the earlier one, and they do not overlap. */
  lemma {:induction false} Descending(bs: seq<Block>, i: nat, j: nat)
    requires Tiles(bs) && i < j < |bs|
    ensures bs[j].adr + bs[j].size <= bs[i].adr
    decreases j - i
  {
    if i + 1 < j {
      Descending(bs, i, j - 1);
    }
  }

  lemma {:induction false} AllocTiles(bs: seq<Block>, stack: int, owner: nat, size: nat)
    requires Tiles(bs) && Alloc(bs, stack, owner, size).Some?
    ensures Tiles(Alloc(bs, stack, owner, size).value.0)
  {
    var n := Rounded(size);
    var i := FirstFit(bs, 0, n);
    if i < |bs| {
      var now := TakeGap(bs, i, owner, n);
      forall k | 0 < k < |now|
        ensures now[k].size > 0 && now[k].adr + now[k].size == now[k - 1].adr
      {
        if bs[i].size > n && k > i + 1 {
          assert now[k] == bs[k - 1];
        }
      }
    }
  }

  /** The first gap of the list that is large enough is taken, from its upper end; only where there is none
      a block is made below the heap, and only as long as it stays above the memory stack. */
  lemma {:induction false} AllocPlace(bs: seq<Block>, stack: int, owner: nat, size: nat)
    requires bs != []
    ensures var n, o := if size == 0 then 1 else size, Alloc(bs, stack, owner, size);
            if exists i :: 0 <= i < |bs| && Fits(bs[i], n) then
              && o.Some?
              && exists i :: 0 <= i < |bs| && Fits(bs[i], n) && o.value.1 + n == bs[i].adr + bs[i].size && forall k :: 0 <= k < i ==> !Fits(bs[k], n)
            else
              && (o.Some? <==> stack + n < Limit(bs))
              && (o.Some? ==> o.value.1 + n == Limit(bs))
  {
    var n := Rounded(size);
    var i := FirstFit(bs, 0, n);
    hide FirstFit;
    if i < |bs| {
      var now := TakeGap(bs, i, owner, n);
      assert now[i].adr + n == bs[i].adr + bs[i].size;
    }
  }

  lemma {:induction false} JoinedTiles(bs: seq<Block>, i: nat)
    requires Tiles(bs) && 0 < i && i + 1 < |bs|
    ensures Tiles(Joined(bs, i))
  {
    var now := Joined(bs, i);
    forall k | 0 < k < |now|
      ensures now[k].size > 0 && now[k].adr + now[k].size == now[k - 1].adr
    {
      if k > i {
        assert now[k] == bs[k + 1];
      }
    }
  }

  lemma {:induction false} OwnerTiles(bs: seq<Block>, i: nat, owner: nat)
    requires Tiles(bs) && 0 < i < |bs|
    ensures Tiles(bs[i := bs[i].(owner := owner)])
  {
  }

  lemma {:induction false} FreedTiles(bs: seq<Block>, i: nat, v: Victim)
    requires Tiles(bs) && 0 < i < |bs|
    ensures Tiles(Freed(bs, i, v).0)
  {
    hide Joined, Tiles, CountsFree, WithinLimit;
    OwnerTiles(bs, i, 0);
    hide Tiles, Joined;
    var b1 := bs[i := bs[i].(owner := 0)];
    var up := i > 1 && WithinLimit(bs[i - 1], v) && CountsFree(bs[i - 1], v);
    if up {
      JoinedTiles(b1, i - 1);
    }
    var (b2, j) := if up then (Joined(b1, i - 1), i - 1) else (b1, i);
    if j + 1 < |b2| && CountsFree(b2[j + 1], v) {
      JoinedTiles(b2, j);
    }
  }

  // ------------------------------------------------------------ live blocks

  /** The blocks that belong to somebody, from the top down. */
  function Live(bs: seq<Block>): seq<Block> {
    if bs == [] then [] else (if bs[0].owner != 0 then [bs[0]] else []) + Live(bs[1..])
  }

  /** The live blocks that are not released. */
  function Survivors(bs: seq<Block>, v: Victim): seq<Block> {
    if bs == [] then [] else (if bs[0].owner != 0 && !Matches(bs[0], v) then [bs[0]] else []) + Survivors(bs[1..], v)
  }

  lemma {:induction false} LiveConcat(a: seq<Block>, b: seq<Block>)
    ensures Live(a + b) == Live(a) + Live(b)
  {
    if a == [] {
      assert a + b == b;
    } else {
      assert (a + b)[1..] == a[1..] + b;
      LiveConcat(a[1..], b);
    }
  }

  lemma {:induction false} LiveParts(a: seq<Block>, b: Block, c: seq<Block>)
    ensures Live(a + [b] + c) == Live(a) + (if b.owner != 0 then [b] else []) + Live(c)
  {
    LiveConcat(a + [b], c);
    LiveConcat(a, [b]);
    assert [b][1..] == [];
    assert Live([b]) == (if b.owner != 0 then [b] else []) + Live([]);
  }

  lemma {:induction false} SurvivorsConcat(a: seq<Block>, b: seq<Block>, v: Victim)
    ensures Survivors(a + b, v) == Survivors(a, v) + Survivors(b, v)
  {
    if a == [] {
      assert a + b == b;
    } else {
      assert (a + b)[1..] == a[1..] + b;
      SurvivorsConcat(a[1..], b, v);
    }
  }

  lemma {:induction false} SurvivorsParts(a: seq<Block>, b: Block, c: seq<Block>, v: Victim)
    ensures Survivors(a + [b] + c, v) == Survivors(a, v) + (if b.owner != 0 && !Matches(b, v) then [b] else []) + Survivors(c, v)
  {
    SurvivorsConcat(a + [b], c, v);
    SurvivorsConcat(a, [b], v);
    assert [b][1..] == [];
    assert Survivors([b], v) == (if b.owner != 0 && !Matches(b, v) then [b] else []) + Survivors([], v);
  }

  /** An allocation adds exactly its own block to the live ones, which keep address, size and
      owner; and it overlaps none of them. */
  lemma {:induction false} AllocLive(bs: seq<Block>, stack: int, owner: nat, size: nat)
    requires Tiles(bs) && owner != 0 && Alloc(bs, stack, owner, size).Some?
    ensures var (now, adr) := Alloc(bs, stack, owner, size).value;
            var b := Block(adr, Rounded(size), owner);
            && multiset(Live(now)) == multiset(Live(bs)) + multiset{b}
            && forall x :: x in Live(bs) ==> x.adr + x.size <= adr || adr + Rounded(size) <= x.adr
  {
    assert bs != [];
    hide Live, TakeGap, Tiles;
    var n := Rounded(size);
    var i := FirstFit(bs, 0, n);
    AllocTiles(bs, stack, owner, size);
    var now := Alloc(bs, stack, owner, size).value.0;
    if i < |bs| {
      GapLive(bs, i, owner, n);
    } else {
      LiveParts(bs, Block(Limit(bs) - n, n, owner), []);
      assert now == bs + [Block(Limit(bs) - n, n, owner)] + [];
      i := |bs|;
    }
    forall x | x in Live(bs)
      ensures x.adr + x.size <= now[i].adr || now[i].adr + now[i].size <= x.adr
    {
      var k := LiveIndex(bs, x);
      var m := if i < |bs| && k > i && bs[i].size > n then k + 1 else k;
      assert now[m] == x && m != i;
      if m < i {
        Descending(now, m, i);
      } else {
        Descending(now, i, m);
      }
    }
  }

  lemma {:induction false} GapLive(bs: seq<Block>, i: nat, owner: nat, size: int)
    requires i < |bs| && Fits(bs[i], size) && owner != 0
    ensures var now := TakeGap(bs, i, owner, size);
            && |now| == |bs| + (if bs[i].size > size then 1 else 0)
            && now[i].owner == owner && now[i].size == size && multiset(Live(now)) == multiset(Live(bs)) + multiset{now[i]}
            && (forall k :: 0 <= k < i ==> now[k] == bs[k])
            && (forall k :: i < k < |bs| ==> now[if bs[i].size > size then k + 1 else k] == bs[k])
  {
    hide Live;
    var now := TakeGap(bs, i, owner, size);
    var rest := if bs[i].size > size then [Block(bs[i].adr, bs[i].size - size, 0)] + bs[i + 1..] else bs[i + 1..];
    assert now == bs[..i] + [now[i]] + rest;
    assert Live(rest) == Live(bs[i + 1..]) by {
      if bs[i].size > size {
        LiveConcat([Block(bs[i].adr, bs[i].size - size, 0)], bs[i + 1..]);
        LiveFree(Block(bs[i].adr, bs[i].size - size, 0));
      }
    }
    AddedLive(bs, now, i, rest);
  }

  lemma {:induction false} LiveFree(b: Block)
    requires b.owner == 0
    ensures Live([b]) == []
  {
    assert [b][1..] == [];
  }

  lemma {:induction false} AddedLive(bs: seq<Block>, now: seq<Block>, i: nat, rest: seq<Block>)
    requires i < |bs| && i < |now| && bs[i].owner == 0 && now[i].owner != 0
    requires now == bs[..i] + [now[i]] + rest && Live(rest) == Live(bs[i + 1..])
    ensures multiset(Live(now)) == multiset(Live(bs)) + multiset{now[i]}
  {
    hide Live;
    assert bs == bs[..i] + [bs[i]] + bs[i + 1..];
    LiveParts(bs[..i], bs[i], bs[i + 1..]);
    LiveParts(bs[..i], now[i], rest);
  }

  lemma {:induction false} LiveIndex(bs: seq<Block>, x: Block) returns (k: nat)
    requires x in Live(bs)
    ensures k < |bs| && bs[k] == x && x.owner != 0
  {
    if bs[0].owner != 0 && bs[0] == x {
      k := 0;
    } else {
      k := LiveIndex(bs[1..], x);
      k := k + 1;
    }
  }

  /** Joining with a free block changes no live block. */
  lemma {:induction false} JoinedLive(bs: seq<Block>, i: nat, v: Victim)
    requires i + 1 < |bs| && bs[i].owner == 0
    ensures bs[i + 1].owner == 0 ==> Live(Joined(bs, i)) == Live(bs)
    ensures bs[i + 1].owner == 0 || Matches(bs[i + 1], v) ==> Survivors(Joined(bs, i), v) == Survivors(bs, v)
  {
    var u := Block(bs[i + 1].adr, bs[i].size + bs[i + 1].size, bs[i].owner);
    var rest := [bs[i + 1]] + bs[i + 2..];
    LiveParts(bs[..i], u, bs[i + 2..]);
    SurvivorsParts(bs[..i], u, bs[i + 2..], v);
    assert bs == bs[..i] + [bs[i]] + rest;
    LiveParts(bs[..i], bs[i], rest);
    SurvivorsParts(bs[..i], bs[i], rest, v);
    assert [] + [bs[i + 1]] + bs[i + 2..] == rest;
    LiveParts([], bs[i + 1], bs[i + 2..]);
    SurvivorsParts([], bs[i + 1], bs[i + 2..], v);
  }

  predicate NoneMatch(bs: seq<Block>, i: nat, v: Victim)
    requires i <= |bs|
  {
    forall k :: 0 <= k < i ==> !Matches(bs[k], v)
  }

  /** Releasing the first match: the block is free afterwards, nothing before it changes, and the
      survivors stay what they were. */
  lemma {:induction false} FreedSurvivors(bs: seq<Block>, i: nat, v: Victim)
    requires Tiles(bs) && 0 < i < |bs| && Matches(bs[i], v) && NoneMatch(bs, i, v)
    ensures var (b, j) := Freed(bs, i, v);
            && Survivors(b, v) == Survivors(bs, v) && b[j].owner == 0 && NoneMatch(b, j + 1, v) && b[..j] == bs[..j]
            && (v.ByPtr? ==> Live(b) == Live(bs[..i]) + Live(bs[i + 1..]))
  {
    hide Live, Survivors, Freed, Joined, Tiles;
    FreedForm(bs, i, v);
    var (b, j) := Freed(bs, i, v);
    assert forall k :: 0 <= k < j ==> b[k] == bs[k];
    ReleasedBlocks(bs, i, v);
  }

  /** The released block, with those of its neighbours that count as free, as one. */
  lemma {:induction false} FreedForm(bs: seq<Block>, i: nat, v: Victim)
    requires 0 < i < |bs| && (i > 1 && WithinLimit(bs[i - 1], v) && CountsFree(bs[i - 1], v) ==> bs[i - 1].owner == 0)
    ensures var lo := if i > 1 && WithinLimit(bs[i - 1], v) && CountsFree(bs[i - 1], v) then i - 1 else i;
            var hi := if i + 1 < |bs| && CountsFree(bs[i + 1], v) then i + 2 else i + 1;
            var (b, j) := Freed(bs, i, v);
            j == lo && b[j].owner == 0 && b == bs[..lo] + [b[j]] + bs[hi..]
  {
    var b1 := bs[i := bs[i].(owner := 0)];
    var up := i > 1 && WithinLimit(bs[i - 1], v) && CountsFree(bs[i - 1], v);
    var (b2, j) := if up then (Joined(b1, i - 1), i - 1) else (b1, i);
    hide WithinLimit, CountsFree;
    if up {
      JoinedCut(bs, i, b1[i], i - 1);
    } else {
      OneCut(bs, i, b1[i]);
    }
    BehindCut(bs, j, b2[j], i + 1);
    if i + 1 < |bs| && CountsFree(bs[i + 1], v) {
      JoinedBehind(b2, bs, j, i + 1);
    }
  }

  lemma {:induction false} OneCut(bs: seq<Block>, i: nat, x: Block)
    requires i < |bs|
    ensures bs[i := x] == bs[..i] + [x] + bs[i + 1..]
  {
  }

  /** A block joined with the changed one above it. */
  lemma {:induction false} JoinedCut(bs: seq<Block>, i: nat, x: Block, k: nat)
    requires i < |bs| && k + 1 == i
    ensures Joined(bs[i := x], k) == bs[..k] + [Joined(bs[i := x], k)[k]] + bs[i + 1..]
  {
  }

  lemma {:induction false} BehindCut(bs: seq<Block>, j: nat, x: Block, k: nat)
    requires j < k <= |bs|
    ensures var b := bs[..j] + [x] + bs[k..];
            |b| == j + 1 + |bs| - k && b[..j] == bs[..j] && b[j] == x && b[j + 1..] == bs[k..] && (k < |bs| ==> b[j + 1] == bs[k] && b[j + 2..] == bs[k + 1..])
  {
  }

  lemma {:induction false} JoinedBehind(b: seq<Block>, bs: seq<Block>, j: nat, k: nat)
    requires j + 1 < |b| && j <= |bs| && k < |bs| && b[..j] == bs[..j] && b[j + 2..] == bs[k + 1..]
    ensures Joined(b, j) == bs[..j] + [Joined(b, j)[j]] + bs[k + 1..] && Joined(b, j)[j].owner == b[j].owner
  {
  }

  lemma {:induction false} ReleasedBlocks(bs: seq<Block>, i: nat, v: Victim)
    requires Tiles(bs) && 0 < i < |bs| && Matches(bs[i], v) && NoneMatch(bs, i, v)
    ensures var (b, j) := Freed(bs, i, v);
            Survivors(b, v) == Survivors(bs, v) && (v.ByPtr? ==> Live(b) == Live(bs[..i]) + Live(bs[i + 1..]))
  {
    hide Live, Survivors, Joined;
    var b1 := bs[i := bs[i].(owner := 0)];
    ReleasedLive(bs, i, v);
    var up := i > 1 && WithinLimit(bs[i - 1], v) && CountsFree(bs[i - 1], v);
    if up {
      JoinedLive(b1, i - 1, v);
      JoinedShape(b1, i - 1);
    }
    var (b2, j) := if up then (Joined(b1, i - 1), i - 1) else (b1, i);
    if j + 1 < |b2| && CountsFree(b2[j + 1], v) {
      NextMatches(bs, b2, i, j, v);
      JoinedLive(b2, j, v);
    }
  }

  lemma {:induction false} ReleasedLive(bs: seq<Block>, i: nat, v: Victim)
    requires 0 < i < |bs| && Matches(bs[i], v)
    ensures var b := bs[i := bs[i].(owner := 0)];
            Survivors(b, v) == Survivors(bs, v) && Live(b) == Live(bs[..i]) + Live(bs[i + 1..])
  {
    hide Live, Survivors;
    var b := bs[i := bs[i].(owner := 0)];
    assert bs == bs[..i] + [bs[i]] + bs[i + 1..] && b == bs[..i] + [b[i]] + bs[i + 1..];
    SurvivorsParts(bs[..i], bs[i], bs[i + 1..], v);
    SurvivorsParts(bs[..i], b[i], bs[i + 1..], v);
    LiveParts(bs[..i], b[i], bs[i + 1..]);
  }

  lemma {:induction false} JoinedShape(bs: seq<Block>, i: nat)
    requires i + 1 < |bs|
    ensures var b := Joined(bs, i);
            && b[..i] == bs[..i] && b[i].owner == bs[i].owner && b[i].adr == bs[i + 1].adr
            && forall k :: i < k < |b| ==> b[k] == bs[k + 1]
  {
  }

  /** The next lower block of a released owner is within the limit, too. */
  lemma {:induction false} NextMatches(bs: seq<Block>, b2: seq<Block>, i: nat, j: nat, v: Victim)
    requires Tiles(bs) && i + 1 < |bs| && Matches(bs[i], v) && j + 1 < |b2| && b2[j + 1] == bs[i + 1] && CountsFree(bs[i + 1], v)
    ensures b2[j + 1].owner == 0 || Matches(b2[j + 1], v)
  {
  }

  /** `hp_free_all` removes exactly the owner's blocks at or below the limit, and the heap still
      tiles. */
  lemma {:induction false} SweepMeaning(bs: seq<Block>, i: nat, v: Victim)
    requires Tiles(bs) && 0 < i <= |bs| && v.ByOwner? && NoneMatch(bs, i, v)
    ensures Tiles(Sweep(bs, i, v)) && Live(Sweep(bs, i, v)) == Survivors(bs, v)
    decreases Owned(bs, v), |bs| - i
  {
    if i == |bs| {
      NoneSurvive(bs, v);
    } else if Matches(bs[i], v) {
      FreedOwned(bs, i, v);
      FreedTiles(bs, i, v);
      FreedSurvivors(bs, i, v);
      var (b, j) := Freed(bs, i, v);
      if j == |b| - 1 {
        var c := b[..j];
        assert b == c + [b[j]] + [];
        SurvivorsParts(c, b[j], [], v);
        NoneSurvive(c, v);
      } else {
        SweepMeaning(b, j, v);
      }
    } else {
      SweepMeaning(bs, i + 1, v);
    }
  }

  lemma {:induction false} NoneSurvive(bs: seq<Block>, v: Victim)
    requires NoneMatch(bs, |bs|, v)
    ensures Live(bs) == Survivors(bs, v)
  {
    if bs != [] {
      assert forall k :: 0 <= k < |bs[1..]| ==> bs[1..][k] == bs[k + 1];
      NoneSurvive(bs[1..], v);
    }
  }

  // ------------------------------------------------------- release by address

  /** The blocks of `after` are those of `before` but for one at the given address. */
  ghost predicate OneLess(before: seq<Block>, after: seq<Block>, ptr: int) {
    exists b :: b in before && b.adr == ptr && multiset(before) == multiset(after) + multiset{b}
  }

  /** `hp_free` takes exactly the block at the given address off the live ones. */
  lemma {:induction false} FreeMeaning(bs: seq<Block>, ptr: int)
    requires Tiles(bs)
    ensures Free(bs, ptr).Some? <==> exists b :: b in Live(bs) && b.adr == ptr
    ensures Free(bs, ptr).Some? ==> Tiles(Free(bs, ptr).value) && OneLess(Live(bs), Live(Free(bs, ptr).value), ptr)
  {
    hide Live, OneLess, Freed;
    var v := ByPtr(ptr);
    var i := Find(bs, 1, v);
    if i == |bs| {
      NothingThere(bs, ptr);
    } else {
      LiveHas(bs, i);
      FreeRemoves(bs, ptr, i);
    }
  }

  lemma {:induction false} NothingThere(bs: seq<Block>, ptr: int)
    requires Tiles(bs) && Find(bs, 1, ByPtr(ptr)) == |bs|
    ensures !exists b :: b in Live(bs) && b.adr == ptr
  {
    if b :| b in Live(bs) && b.adr == ptr {
      var k := LiveIndex(bs, b);
      assert k > 0 && Matches(bs[k], ByPtr(ptr));
    }
  }

  lemma {:induction false} FreeRemoves(bs: seq<Block>, ptr: int, i: nat)
    requires Tiles(bs) && i == Find(bs, 1, ByPtr(ptr)) < |bs|
    ensures Free(bs, ptr).Some? && Tiles(Free(bs, ptr).value) && OneLess(Live(bs), Live(Free(bs, ptr).value), ptr)
  {
    hide Live, Freed, Trimmed;
    var v := ByPtr(ptr);
    assert NoneMatch(bs, i, v);
    FreedSurvivors(bs, i, v);
    FreedTiles(bs, i, v);
    var (b, j) := Freed(bs, i, v);
    assert bs == bs[..i] + [bs[i]] + bs[i + 1..];
    LiveParts(bs[..i], bs[i], bs[i + 1..]);
    LiveHas(bs, i);
    TrimmedLive(b, j);
    assert multiset(Live(bs)) == multiset(Live(Trimmed(b, j))) + multiset{bs[i]};
  }

  lemma {:induction false} LiveHas(bs: seq<Block>, i: nat)
    requires i < |bs| && bs[i].owner != 0
    ensures bs[i] in Live(bs)
  {
    if i > 0 {
      LiveHas(bs[1..], i - 1);
    }
  }

  lemma {:induction false} TrimmedLive(bs: seq<Block>, j: nat)
    requires 0 < j < |bs| && bs[j].owner == 0
    ensures Live(Trimmed(bs, j)) == Live(bs) && (Tiles(bs) ==> Tiles(Trimmed(bs, j)))
  {
    if j == |bs| - 1 {
      assert bs == bs[..j] + [bs[j]] + [];
      LiveParts(bs[..j], bs[j], []);
    }
  }

  // -------------------------------------------------------------- coalescing

  /** No two neighbours are free, and neither is the lowest block. */
  predicate Coalesced(bs: seq<Block>) {
    forall i :: 0 < i < |bs| && bs[i].owner == 0 ==> i + 1 < |bs| && bs[i + 1].owner != 0
  }

  lemma {:induction false} AllocCoalesced(bs: seq<Block>, stack: int, owner: nat, size: nat)
    requires Tiles(bs) && Coalesced(bs) && owner != 0 && Alloc(bs, stack, owner, size).Some?
    ensures Coalesced(Alloc(bs, stack, owner, size).value.0)
  {
    var n := Rounded(size);
    var i := FirstFit(bs, 0, n);
    if i < |bs| {
      var now := TakeGap(bs, i, owner, n);
      forall k | 0 < k < |now| && now[k].owner == 0
        ensures k + 1 < |now| && now[k + 1].owner != 0
      {
        if bs[i].size > n {
          if k > i + 1 {
            assert now[k] == bs[k - 1] && now[k + 1] == bs[k];
          } else if k == i + 1 {
            assert now[k + 1] == bs[i + 1];
          }
        } else {
          assert k != i;
        }
      }
    }
  }

  lemma {:induction false} FreeCoalesced(bs: seq<Block>, ptr: int)
    requires Tiles(bs) && Coalesced(bs) && Free(bs, ptr).Some?
    ensures Coalesced(Free(bs, ptr).value)
  {
    hide Freed;
    var v := ByPtr(ptr);
    var i := Find(bs, 1, v);
    FreedForm(bs, i, v);
    var (b, j) := Freed(bs, i, v);
    GapCoalesced(bs, i, j, if i + 1 < |bs| && CountsFree(bs[i + 1], v) then i + 2 else i + 1, b);
  }

  /** Around the released block there is no free neighbour left. */
  lemma {:induction false} GapCoalesced(bs: seq<Block>, i: nat, lo: nat, hi: nat, b: seq<Block>)
    requires Coalesced(bs) && 0 < i < |bs| && bs[i].owner != 0
    requires lo == if i > 1 && bs[i - 1].owner == 0 then i - 1 else i
    requires hi == if i + 1 < |bs| && bs[i + 1].owner == 0 then i + 2 else i + 1
    requires lo < |b| && hi <= |bs| && b == bs[..lo] + [b[lo]] + bs[hi..] && b[lo].owner == 0
    ensures Coalesced(Trimmed(b, lo))
  {
    var now := Trimmed(b, lo);
    assert lo > 1 ==> bs[lo - 1].owner != 0;
    assert hi < |bs| ==> bs[hi].owner != 0;
    forall k | 0 < k < |now| && now[k].owner == 0
      ensures k + 1 < |now| && now[k + 1].owner != 0
    {
      if k < lo {
        assert now[k] == bs[k];
      } else if k == lo {
        assert now[k + 1] == bs[hi];
      } else {
        assert now[k] == bs[k - lo - 1 + hi];
      }
    }
  }

  /** When nothing is live, a coalesced heap is the initial one. */
  lemma {:induction false} NothingLive(bs: seq<Block>)
    requires Tiles(bs) && Coalesced(bs) && Live(bs) == []
    ensures bs == [TOP_BLOCK] && Limit(bs) == HEAP_TOP
  {
    if |bs| > 1 {
      if bs[|bs| - 1].owner != 0 {
        LiveHas(bs, |bs| - 1);
      }
    }
  }

  // ------------------------------------------------------------- whole runs

  datatype Request = New(stack: int, owner: nat, size: nat) | Give(ptr: int) | GiveAll(owner: nat, limit: int)

  function Handled(bs: seq<Block>, r: Request): (now: Option<seq<Block>>)
    requires bs != []
    ensures now.Some? ==> now.value != []
  {
    match r
    case New(stack, owner, size) =>
      (match Alloc(bs, stack, owner, size) case None => None case Some(x) => Some(x.0))
    case Give(ptr) => Free(bs, ptr)
    case GiveAll(owner, limit) => Some(FreeAll(bs, owner, limit))
  }

  /** The heap after a run of requests; an error stops the emulator. */
  function After(bs: seq<Block>, rs: seq<Request>): (now: Option<seq<Block>>)
    requires bs != []
    ensures now.Some? ==> now.value != []
    decreases |rs|
  {
    if rs == [] then Some(bs)
    else
      var b :- Handled(bs, rs[0]);
      After(b, rs[1..])
  }

  predicate Owners(rs: seq<Request>) {
    forall r :: r in rs && r.New? ==> r.owner != 0
  }

  predicate PointersOnly(rs: seq<Request>) {
    forall r :: r in rs ==> !r.GiveAll?
  }

  /** What a caller can see beforehand: a gap or the space below the heap is large enough, the
      address is that of a live block. */
  ghost predicate Answerable(bs: seq<Block>, r: Request)
    requires bs != []
  {
    match r
    case New(stack, _, size) =>
      || Limit(bs) - stack > Rounded(size)
      || exists k :: 0 <= k < |bs| && Fits(bs[k], Rounded(size))
    case Give(ptr) => exists b :: b in Live(bs) && b.adr == ptr
    case GiveAll(_, _) => true
  }

  /** Requests keep the tiling, and exactly the answerable ones succeed. */
  lemma {:induction false} HandledTiles(bs: seq<Block>, r: Request)
    requires Tiles(bs)
    ensures Handled(bs, r).Some? <==> Answerable(bs, r)
    ensures Handled(bs, r).Some? ==> Tiles(Handled(bs, r).value)
  {
    match r
    case New(stack, owner, size) =>
      if Alloc(bs, stack, owner, size).Some? {
        AllocTiles(bs, stack, owner, size);
        var i := FirstFit(bs, 0, Rounded(size));
        assert i < |bs| ==> Fits(bs[i], Rounded(size));
      }
    case Give(ptr) => FreeMeaning(bs, ptr);
    case GiveAll(owner, limit) => SweepMeaning(bs, 1, ByOwner(owner, limit));
  }

  /** A run, cut in two. */
  lemma {:induction false} AfterParts(bs: seq<Block>, rs: seq<Request>, i: nat)
    requires bs != [] && i <= |rs|
    ensures var mid := After(bs, rs[..i]);
            After(bs, rs) == if mid.Some? then After(mid.value, rs[i..]) else None
    decreases |rs|
  {
    hide Handled;
    if i == 0 {
      assert rs[..0] == [] && rs[0..] == rs;
    } else {
      assert rs[..i][0] == rs[0] && rs[..i][1..] == rs[1..][..i - 1] && rs[1..][i - 1..] == rs[i..];
      if Handled(bs, rs[0]).Some? {
        AfterParts(Handled(bs, rs[0]).value, rs[1..], i - 1);
      }
    }
  }

  /** The requests up to the i-th and the i-th itself. */
  lemma {:induction false} AfterStep(bs: seq<Block>, rs: seq<Request>, i: nat)
    requires bs != [] && i < |rs|
    ensures var mid := After(bs, rs[..i]);
            After(bs, rs[..i + 1]) == if mid.Some? then Handled(mid.value, rs[i]) else None
  {
    hide Handled;
    AfterParts(bs, rs[..i + 1], i);
    assert rs[..i + 1][..i] == rs[..i] && rs[..i + 1][i..] == [rs[i]];
    assert [rs[i]][1..] == [];
  }

  /** The heap tiles at every moment of every run. */
  lemma {:induction false} RunTiles(bs: seq<Block>, rs: seq<Request>)
    requires Tiles(bs)
    ensures After(bs, rs).Some? ==> Tiles(After(bs, rs).value)
    decreases |rs|
  {
    assert bs != [];
    hide Tiles, Handled, Answerable;
    if rs != [] {
      HandledTiles(bs, rs[0]);
      if Handled(bs, rs[0]).Some? {
        RunTiles(Handled(bs, rs[0]).value, rs[1..]);
      }
    }
  }

  /** A run succeeds exactly when each of its requests is answerable in the heap it finds: no
      earlier request can have spoiled the list for a later one. */
  lemma {:induction false} RunAnswered(bs: seq<Block>, rs: seq<Request>)
    requires Tiles(bs)
    ensures After(bs, rs).Some? <==>
              forall i | 0 <= i < |rs| && After(bs, rs[..i]).Some? :: Answerable(After(bs, rs[..i]).value, rs[i])
  {
    assert bs != [];
    hide Tiles, Handled, Answerable, After;
    forall i | 0 <= i < |rs|
      ensures After(bs, rs[..i + 1]).Some? <==> After(bs, rs[..i]).Some? && Answerable(After(bs, rs[..i]).value, rs[i])
    {
      RunTiles(bs, rs[..i]);
      AfterStep(bs, rs, i);
      if After(bs, rs[..i]).Some? {
        HandledTiles(After(bs, rs[..i]).value, rs[i]);
      }
    }
    if After(bs, rs).Some? {
      forall i | 0 <= i < |rs|
        ensures After(bs, rs[..i]).Some? && Answerable(After(bs, rs[..i]).value, rs[i])
      {
        AfterParts(bs, rs, i);
        AfterParts(bs, rs, i + 1);
      }
    }
    if forall i | 0 <= i < |rs| && After(bs, rs[..i]).Some? :: Answerable(After(bs, rs[..i]).value, rs[i]) {
      var i := 0;
      assert After(bs, rs[..0]).Some? by {
        EmptyRun(bs);
        assert rs[..0] == [];
      }
      while i < |rs|
        invariant i <= |rs| && After(bs, rs[..i]).Some?
      {
        assert After(bs, rs[..i + 1]).Some?;
        i := i + 1;
      }
      assert rs[..i] == rs;
    }
  }

  lemma {:induction false} EmptyRun(bs: seq<Block>)
    requires bs != []
    ensures After(bs, []) == Some(bs)
  {
  }

  // --------------------------------------------------- a block's life in a run

  /** The block that a request gets. */
  function Got(bs: seq<Block>, r: Request): Block
    requires bs != [] && r.New? && Handled(bs, r).Some?
  {
    Block(Alloc(bs, r.stack, r.owner, r.size).value.1, Rounded(r.size), r.owner)
  }

  /** The request does not give block x back. */
  predicate Spares(r: Request, x: Block) {
    match r
    case New(_, _, _) => true
    case Give(ptr) => ptr != x.adr
    case GiveAll(owner, limit) => owner != x.owner || limit < x.adr
  }

  predicate Apart(x: Block, y: Block) {
    x.adr + x.size <= y.adr || y.adr + y.size <= x.adr
  }

  lemma {:induction false} SurvivorsHave(bs: seq<Block>, v: Victim, x: Block)
    ensures x in Survivors(bs, v) <==> x in Live(bs) && !Matches(x, v)
  {
    if bs != [] {
      SurvivorsHave(bs[1..], v, x);
    }
  }

  /** No two live blocks begin at the same address. */
  lemma {:induction false} LiveOnce(bs: seq<Block>, x: Block, y: Block)
    requires Tiles(bs) && x in Live(bs) && y in Live(bs) && x.adr == y.adr
    ensures x == y && multiset(Live(bs))[x] == 1
  {
    hide Live;
    var i := LiveIndex(bs, x);
    var j := LiveIndex(bs, y);
    if i < j {
      Descends(bs, i, j);
    } else if j < i {
      Descends(bs, j, i);
    }
    assert bs == bs[..i] + [x] + bs[i + 1..];
    LiveParts(bs[..i], x, bs[i + 1..]);
    if x in Live(bs[..i]) {
      var k := LiveIndex(bs[..i], x);
      Descends(bs, k, i);
    }
    if x in Live(bs[i + 1..]) {
      var k := LiveIndex(bs[i + 1..], x);
      Descends(bs, i, i + 1 + k);
    }
  }

  /** An allocation keeps every live block, and its own overlaps none of them. */
  lemma {:induction false} AllocSpares(bs: seq<Block>, r: Request, x: Block)
    requires Tiles(bs) && r.New? && r.owner != 0 && Handled(bs, r).Some?
    ensures Got(bs, r) in Live(Handled(bs, r).value)
    ensures x in Live(bs) ==> x in Live(Handled(bs, r).value) && Apart(x, Got(bs, r))
  {
    assert bs != [];
    AllocLive(bs, r.stack, r.owner, r.size);
    hide Live, Tiles, Alloc;
    var now := Handled(bs, r).value;
    assert multiset(Live(now))[Got(bs, r)] > 0 && multiset(Live(now))[x] >= multiset(Live(bs))[x];
    if x in Live(bs) {
      assert multiset(Live(bs))[x] > 0;
      assert x in multiset(Live(now));
    }
  }

  /** A release by address takes the block at that address and no other. */
  lemma {:induction false} FreeSpares(bs: seq<Block>, ptr: int, x: Block)
    requires Tiles(bs) && Free(bs, ptr).Some? && x in Live(bs)
    ensures x in Live(Free(bs, ptr).value) <==> x.adr != ptr
  {
    assert bs != [];
    FreeMeaning(bs, ptr);
    hide Live, Tiles, Free;
    var now := Free(bs, ptr).value;
    var b :| b in Live(bs) && b.adr == ptr && multiset(Live(bs)) == multiset(Live(now)) + multiset{b};
    assert multiset(Live(bs))[x] == multiset(Live(now))[x] + multiset{b}[x];
    assert x in multiset(Live(bs));
    if x.adr == ptr {
      LiveOnce(bs, x, b);
    }
    assert x in Live(now) <==> x in multiset(Live(now));
  }

  /** What one request does to a live block: it keeps it exactly when it does not give it back,
      and what it allocates is live and overlaps no live block. */
  lemma {:induction false} HandledLive(bs: seq<Block>, r: Request, x: Block)
    requires Tiles(bs) && Handled(bs, r).Some? && (r.New? ==> r.owner != 0)
    ensures x in Live(bs) ==> (x in Live(Handled(bs, r).value) <==> Spares(r, x))
    ensures r.New? ==> Got(bs, r) in Live(Handled(bs, r).value) && (x in Live(bs) ==> Apart(x, Got(bs, r)))
  {
    assert bs != [];
    match r
    case New(_, _, _) => AllocSpares(bs, r, x);
    case Give(ptr) =>
      if x in Live(bs) {
        FreeSpares(bs, ptr, x);
      }
    case GiveAll(owner, limit) =>
      if x in Live(bs) {
        var v := ByOwner(owner, limit);
        var k := LiveIndex(bs, x);
        assert !Matches(bs[0], v);
        SweepMeaning(bs, 1, v);
        SurvivorsHave(bs, v, x);
      }
  }

  /** A live block stays where it is, as large as it is and its owner's, until it is given back. */
  lemma {:induction false} RunSpares(bs: seq<Block>, rs: seq<Request>, x: Block)
    requires Tiles(bs) && Owners(rs) && After(bs, rs).Some? && x in Live(bs)
    requires forall r :: r in rs ==> Spares(r, x)
    ensures x in Live(After(bs, rs).value)
    decreases |rs|
  {
    assert bs != [];
    hide Tiles, Live, Handled, Spares, Answerable;
    if rs != [] {
      assert rs[0] in rs;
      HandledTiles(bs, rs[0]);
      HandledLive(bs, rs[0], x);
      RunSpares(Handled(bs, rs[0]).value, rs[1..], x);
    }
  }

  /** In every run: the block that request i has got and that the requests between i and j do not
      give back is live before request j, unchanged; and when j is an allocation its block does
      not overlap it. */
  lemma {:induction false} RunKeepsBlocks(bs: seq<Block>, rs: seq<Request>, i: nat, j: nat)
    requires Tiles(bs) && Owners(rs) && After(bs, rs).Some? && i < j <= |rs| && rs[i].New?
    ensures After(bs, rs[..i]).Some? && Handled(After(bs, rs[..i]).value, rs[i]).Some? && After(bs, rs[..j]).Some?
    ensures var x := Got(After(bs, rs[..i]).value, rs[i]);
            (forall k :: i < k < j ==> Spares(rs[k], x)) ==>
              && x in Live(After(bs, rs[..j]).value)
              && (j < |rs| && rs[j].New? ==>
                    Handled(After(bs, rs[..j]).value, rs[j]).Some? && Apart(x, Got(After(bs, rs[..j]).value, rs[j])))
  {
    hide Tiles, Live, Handled, Spares, After, Got;
    TilesSome(bs);
    AfterParts(bs, rs, i);
    AfterParts(bs, rs, i + 1);
    AfterParts(bs, rs, j);
    AfterStep(bs, rs, i);
    var h := After(bs, rs[..i]).value;
    RunTiles(bs, rs[..i]);
    assert rs[i] in rs;
    var x := Got(h, rs[i]);
    HandledLive(h, rs[i], x);
    if forall k :: i < k < j ==> Spares(rs[k], x) {
      StillLive(bs, rs, i + 1, j, x);
      if j < |rs| && rs[j].New? {
        ApartFromNew(bs, rs, j, x);
      }
    }
  }

  lemma {:induction false} TilesSome(bs: seq<Block>)
    requires Tiles(bs)
    ensures bs != []
  {
  }

  /** Requests that spare a block leave it live. */
  lemma {:induction false} StillLive(bs: seq<Block>, rs: seq<Request>, i: nat, j: nat, x: Block)
    requires Tiles(bs) && bs != [] && Owners(rs) && i <= j <= |rs| && After(bs, rs[..i]).Some? && After(bs, rs[..j]).Some?
    requires x in Live(After(bs, rs[..i]).value) && forall k :: i <= k < j ==> Spares(rs[k], x)
    ensures x in Live(After(bs, rs[..j]).value)
  {
    hide Tiles, Live, Handled, Spares, After, Got;
    var g, mid := After(bs, rs[..i]).value, rs[i..j];
    RunTiles(bs, rs[..i]);
    AfterParts(bs, rs[..j], i);
    assert rs[..j][..i] == rs[..i] && rs[..j][i..] == mid;
    assert forall r :: r in mid ==> r in rs && Spares(r, x);
    RunSpares(g, mid, x);
  }

  /** A new block does not overlap a live one. */
  lemma {:induction false} ApartFromNew(bs: seq<Block>, rs: seq<Request>, j: nat, x: Block)
    requires Tiles(bs) && bs != [] && Owners(rs) && After(bs, rs).Some? && j < |rs| && rs[j].New? && After(bs, rs[..j]).Some?
    requires x in Live(After(bs, rs[..j]).value)
    ensures Handled(After(bs, rs[..j]).value, rs[j]).Some? && Apart(x, Got(After(bs, rs[..j]).value, rs[j]))
  {
    hide Tiles, Live, Handled, After, Got;
    AfterParts(bs, rs, j + 1);
    AfterStep(bs, rs, j);
    RunTiles(bs, rs[..j]);
    assert rs[j] in rs;
    HandledLive(After(bs, rs[..j]).value, rs[j], x);
  }

  /** A run of allocations and releases by address leaves a coalesced heap; when all blocks have
      been released, in whatever order, it is the initial heap. */
  lemma {:induction false} PointerRun(bs: seq<Block>, rs: seq<Request>)
    requires Tiles(bs) && Coalesced(bs) && Owners(rs) && PointersOnly(rs) && After(bs, rs).Some?
    ensures Coalesced(After(bs, rs).value) && Tiles(After(bs, rs).value)
    ensures Live(After(bs, rs).value) == [] ==> After(bs, rs).value == [TOP_BLOCK]
    decreases |rs|
  {
    if rs == [] {
      if Live(bs) == [] {
        NothingLive(bs);
      }
    } else {
      var r := rs[0];
      assert r in rs;
      match r {
        case New(stack, owner, size) => AllocCoalesced(bs, stack, owner, size);
        case Give(ptr) => FreeCoalesced(bs, ptr);
        case GiveAll(_, _) =>
      }
      HandledTiles(bs, r);
      PointerRun(Handled(bs, r).value, rs[1..]);
    }
  }

  // ----------------------------------------------------------- mark and release

  /** How the compiler uses its heap: it allocates, and it opens scopes, each of which marks the
      heap with a block of size 0 and at its end releases everything down from the mark. */
  datatype Uses = Done | Grab(size: nat, rest: Uses) | Scope(inner: Uses, rest: Uses)

  function Used(bs: seq<Block>, stack: int, owner: nat, u: Uses): (r: Option<seq<Block>>)
    requires bs != []
    ensures r.Some? ==> r.value != []
    decreases u
  {
    match u
    case Done => Some(bs)
    case Grab(n, rest) =>
      var b :- Alloc(bs, stack, owner, n);
      Used(b.0, stack, owner, rest)
    case Scope(inner, rest) =>
      var b :- Alloc(bs, stack, owner, 0);
      var c :- Used(b.0, stack, owner, inner);
      Used(FreeAll(c, owner, b.1), stack, owner, rest)
  }

  predicate NoGaps(bs: seq<Block>) {
    forall i :: 0 < i < |bs| ==> bs[i].owner != 0
  }

  predicate AllOwned(bs: seq<Block>, owner: nat) {
    forall i :: 0 <= i < |bs| ==> bs[i].owner == owner
  }

  /** Without gaps an allocation extends the heap. */
  lemma {:induction false} AllocExtends(bs: seq<Block>, stack: int, owner: nat, size: nat)
    requires Tiles(bs) && NoGaps(bs) && owner != 0 && Alloc(bs, stack, owner, size).Some?
    ensures var b := Block(Limit(bs) - Rounded(size), Rounded(size), owner);
            Alloc(bs, stack, owner, size).value == (bs + [b], b.adr) && NoGaps(bs + [b]) && Tiles(bs + [b])
  {
    AllocTiles(bs, stack, owner, size);
  }

  lemma {:induction false} SweepSkips(bs: seq<Block>, i: nat, j: nat, v: Victim)
    requires 0 < i <= j <= |bs| && v.ByOwner? && forall k :: i <= k < j ==> !Matches(bs[k], v)
    ensures Sweep(bs, i, v) == Sweep(bs, j, v)
    decreases j - i
  {
    if i < j {
      SweepSkips(bs, i + 1, j, v);
    }
  }

  /** Behind a free block all further blocks are released, two at a time, until the list ends. */
  lemma {:induction false} SweepRest(bs: seq<Block>, f: Block, rest: seq<Block>, v: Victim)
    requires bs != [] && v.ByOwner? && v.owner != 0 && Tiles(bs + [f] + rest) && rest != []
    requires f.owner == 0 && f.adr <= v.limit && AllOwned(rest, v.owner)
    ensures Sweep(bs + [f] + rest, |bs| + 1, v) == bs
    decreases |rest|
  {
    hide Joined, Tiles;
    var all, i := bs + [f] + rest, |bs| + 1;
    Descends(all, |bs|, i);
    assert all[i] == rest[0] && Matches(all[i], v) && all[i - 1] == f && CountsFree(f, v);
    FreedForm(all, i, v);
    FreedTiles(all, i, v);
    var hi := if i + 1 < |all| && CountsFree(all[i + 1], v) then i + 2 else i + 1;
    var (b, j) := Freed(all, i, v);
    assert all[..|bs|] == bs;
    assert hi == if |rest| > 1 then i + 2 else i + 1 by {
      if |rest| > 1 {
        assert all[i + 1] == rest[1];
      }
    }
    var more := rest[hi - i..];
    assert all[hi..] == more;
    assert b == bs + [b[j]] + more && j == |bs|;
    if more != [] {
      FreedLow(all, i, v);
      SweepRest(bs, b[j], more, v);
      SweepSkips(b, j, j + 1, v);
    } else {
      assert b[..j] == bs;
    }
  }

  lemma {:induction false} Descends(bs: seq<Block>, i: nat, j: nat)
    requires Tiles(bs) && i < j < |bs|
    ensures bs[j].adr < bs[i].adr
  {
    Descending(bs, i, j);
  }

  lemma {:induction false} FreedLow(bs: seq<Block>, i: nat, v: Victim)
    requires Tiles(bs) && 0 < i < |bs| && Matches(bs[i], v) && v.ByOwner?
    ensures var (b, j) := Freed(bs, i, v); b[j].adr <= v.limit
  {
  }

  /** Releasing down from a mark gives back exactly the list from before the mark. */
  lemma {:induction false} ReleaseExact(bs: seq<Block>, owned: seq<Block>, owner: nat, limit: int)
    requires bs != [] && owned != [] && owner != 0 && Tiles(bs + owned) && NoGaps(bs) && AllOwned(owned, owner) && limit == owned[0].adr
    ensures FreeAll(bs + owned, owner, limit) == bs
  {
    hide Joined, Tiles, Freed;
    var all, i, v := bs + owned, |bs|, ByOwner(owner, limit);
    forall k | 1 <= k < i
      ensures !Matches(all[k], v)
    {
      Descends(all, k, i);
    }
    SweepSkips(all, 1, i, v);
    assert Matches(all[i], v);
    if i > 1 {
      Descends(all, i - 1, i);
      assert all[i - 1] == bs[i - 1];
    }
    FreedForm(all, i, v);
    FreedTiles(all, i, v);
    var (b, j) := Freed(all, i, v);
    var hi := if i + 1 < |all| && CountsFree(all[i + 1], v) then i + 2 else i + 1;
    assert hi == if |owned| > 1 then i + 2 else i + 1 by {
      if |owned| > 1 {
        assert all[i + 1] == owned[1];
      }
    }
    var more := owned[hi - i..];
    assert all[..i] == bs && all[hi..] == more;
    assert b == bs + [b[j]] + more && j == i;
    if more != [] {
      FreedLow(all, i, v);
      SweepRest(bs, b[j], more, v);
      SweepSkips(b, j, j + 1, v);
    } else {
      assert b[..j] == bs;
    }
  }

  /** Whatever the compiler has done with a heap without gaps, it has only added blocks of its own
      at the lower end; scopes that have been closed have left nothing. */
  lemma {:induction false} UsedExtends(bs: seq<Block>, stack: int, owner: nat, u: Uses) returns (owned: seq<Block>)
    requires Tiles(bs) && NoGaps(bs) && owner != 0 && Used(bs, stack, owner, u).Some?
    ensures Used(bs, stack, owner, u).value == bs + owned && AllOwned(owned, owner)
    ensures Tiles(bs + owned) && NoGaps(bs + owned) && |owned| == Grabs(u)
    decreases u, 0
  {
    match u
    case Done =>
      owned := [];
      assert bs + [] == bs;
    case Grab(n, rest) =>
      AllocExtends(bs, stack, owner, n);
      var b := Block(Limit(bs) - Rounded(n), Rounded(n), owner);
      var more := UsedExtends(bs + [b], stack, owner, rest);
      owned := [b] + more;
      assert bs + [b] + more == bs + owned;
    case Scope(inner, rest) =>
      ScopeIsExact(bs, stack, owner, inner);
      owned := UsedExtends(bs, stack, owner, rest);
  }

  /** How many blocks are left when all closed scopes have been released. */
  function Grabs(u: Uses): nat {
    match u case Done => 0 case Grab(_, rest) => 1 + Grabs(rest) case Scope(_, rest) => Grabs(rest)
  }

  /** A scope, whatever happens inside, ends with exactly the heap it began with. */
  lemma {:induction false} ScopeIsExact(bs: seq<Block>, stack: int, owner: nat, inner: Uses)
    requires Tiles(bs) && NoGaps(bs) && owner != 0 && Alloc(bs, stack, owner, 0).Some?
    requires Used(Alloc(bs, stack, owner, 0).value.0, stack, owner, inner).Some?
    ensures var (marked, mark) := Alloc(bs, stack, owner, 0).value;
            FreeAll(Used(marked, stack, owner, inner).value, owner, mark) == bs
    decreases inner, 1
  {
    AllocExtends(bs, stack, owner, 0);
    var m := Block(Limit(bs) - 1, 1, owner);
    var more := UsedExtends(bs + [m], stack, owner, inner);
    assert bs + [m] + more == bs + ([m] + more);
    ReleaseExact(bs, [m] + more, owner, m.adr);
  }

  /** `hp_free_all` does not coalesce completely: a released block joins only one lower
      neighbour, so that a free block below that one stays a neighbour of its own. */
  lemma {:induction false} FreeAllLeavesNeighbours()
    ensures exists bs: seq<Block> :: Tiles(bs) && Coalesced(bs) && !Coalesced(FreeAll(bs, 1, HEAP_TOP))
  {
    var bs := [TOP_BLOCK, Block(0xFFFE, 1, 1), Block(0xFFFD, 1, 1), Block(0xFFFC, 1, 0), Block(0xFFFB, 1, 2)];
    var v := ByOwner(1, HEAP_TOP);
    var b := [TOP_BLOCK, Block(0xFFFD, 2, 0), Block(0xFFFC, 1, 0), Block(0xFFFB, 1, 2)];
    assert Freed(bs, 1, v) == (b, 1) by {
      assert Joined(bs[1 := Block(0xFFFE, 1, 0)], 1) == b;
    }
    SweepSkips(b, 1, 4, v);
    assert FreeAll(bs, 1, HEAP_TOP) == b;
    assert b[1].owner == 0 && b[2].owner == 0;
  }
}
