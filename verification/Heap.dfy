/** The heap of the emulator as it works: a linked list of block headers, split and joined in
    place. */
module Heap {
  import opened Options
  import opened HeapList

  class Header {
    var next: Header?
    var adr: int
    var sz: int
    var owner: nat

    constructor (next: Header?, adr: int, sz: int, owner: nat)
      ensures this.next == next && this.adr == adr && this.sz == sz && this.owner == owner
    {
      this.next, this.adr, this.sz, this.owner := next, adr, sz, owner;
    }

    ghost predicate Shows(b: Block)
      reads this
    {
      adr == b.adr && sz == b.size && owner == b.owner
    }
  }

  ghost function Successor(hs: seq<Header>, i: nat): Header?
    requires i < |hs|
  {
    if i + 1 < |hs| then hs[i + 1] else null
  }

  /** The header at position i, or none at the end. */
  ghost function At(hs: seq<Header>, i: int): Header? {
    if 0 <= i < |hs| then hs[i] else null
  }

  predicate Within(hs: seq<Header>, all: seq<Header>) {
    forall k :: 0 <= k < |hs| ==> hs[k] in all
  }

  predicate Distinct(hs: seq<Header>) {
    forall i, j :: 0 <= i < j < |hs| ==> hs[i] != hs[j]
  }

  class HeapSpace {
    var top: Header              // heap_top
    var limit: int               // gs_H
    var broken: bool             // an error has stopped the emulator
    ghost var list: seq<Header>
    ghost var blocks: seq<Block>

    /** The headers in `list`, linked in this order, hold the blocks. */
    ghost predicate Linked()
      reads this, list
    {
      && list != [] && list[0] == top && |blocks| == |list| && Distinct(list)
      && (forall i {:trigger list[i].next} :: 0 <= i < |list| ==> list[i].next == Successor(list, i))
      && (forall i {:trigger list[i].Shows(blocks[i])} :: 0 <= i < |list| ==> list[i].Shows(blocks[i]))
    }

    ghost predicate Valid()
      reads this, list
    {
      Linked() && Tiles(blocks) && limit == Limit(blocks)
    }

    /** `hp_init`. */
    constructor ()
      ensures Valid() && blocks == [TOP_BLOCK] && !broken && fresh(list)
    {
      var h := new Header(null, HEAP_TOP, 0, 0);
      top, limit, broken, list, blocks := h, HEAP_TOP, false, [h], [TOP_BLOCK];
    }

    /** `hp_alloc`, with the memory stack ending at `stack`. */
    method Alloc(owner: nat, size: nat, stack: int) returns (adr: int)
      requires Valid() && !broken
      modifies this, list
      ensures Valid() && forall h :: h in list ==> h in old(list) || fresh(h)
      ensures match HeapList.Alloc(old(blocks), stack, owner, size)
              case None => broken && blocks == old(blocks)
              case Some(r) => !broken && blocks == r.0 && adr == r.1
    {
      hide Tiles, TakeGap;
      var n := if size == 0 then 1 else size;
      var cur: Header?, prev: Header? := top, null;
      ghost var i := 0;
      AllocTilesIf(blocks, stack, owner, size);
      adr := 0;
      while cur != null && !(cur.owner == 0 && cur.sz >= n)
        invariant Valid() && blocks == old(blocks) && list == old(list) && !broken
        invariant 0 <= i <= |list| && cur == At(list, i) && prev == At(list, i - 1)
        invariant FirstFit(blocks, i, n) == FirstFit(blocks, 0, n)
        decreases |list| - i
      {
        assert list[i].Shows(blocks[i]);
        prev, cur := cur, cur.next;
        i := i + 1;
      }
      if cur != null {
        assert list[i].Shows(blocks[i]);
        adr := TakeFrom(cur, owner, n, i);
      } else if limit - stack > n {
        Extend(prev, owner, n);
        adr := limit;
      } else {
        broken := true;
      }
    }

    /** The gap `cur` taken, or its upper end when it is larger. */
    method TakeFrom(cur: Header, owner: nat, n: nat, ghost i: nat) returns (adr: int)
      requires Linked() && i < |list| && cur == list[i] && Fits(blocks[i], n)
      modifies this`list, this`blocks, this`limit, cur
      ensures Linked() && blocks == TakeGap(old(blocks), i, owner, n) && adr == blocks[i].adr
      ensures forall h :: h in list ==> h in old(list) || fresh(h)
      ensures old(limit == Limit(blocks)) ==> limit == Limit(blocks)
    {
      hide Distinct, Cut, TakeGap;
      assert list[i].Shows(blocks[i]);
      ghost var was := blocks;
      if cur.sz > n {
        Split(cur, n, i);
      }
      assert list[i].Shows(blocks[i]);
      OnlyOnce(list, i);
      cur.owner := owner;
      blocks := blocks[i := blocks[i].(owner := owner)];
      adr := cur.adr;
      TakenGap(was, i, owner, n);
    }

    /** The gap `cur` cut in two: the upper part keeps the header, the lower part gets a new one. */
    method Split(cur: Header, n: nat, ghost i: nat)
      requires Linked() && i < |list| && cur == list[i] && cur.sz > n && cur.owner == 0
      modifies this`list, this`blocks, cur
      ensures Linked() && |list| == |old(list)| + 1 && list[i] == cur
      ensures blocks == Cut(old(blocks), i, n)
      ensures forall h :: h in list ==> h in old(list) || fresh(h)
    {
      hide Inserted, Cut, Distinct;
      ghost var was := list;
      assert list[i].Shows(blocks[i]);
      OnlyOnce(list, i);
      var p := new Header(cur.next, cur.adr, cur.sz - n, 0);
      cur.next := p;
      cur.adr := cur.adr + p.sz;
      cur.sz := n;
      blocks := Cut(blocks, i, n);
      list := Inserted(was, i, p);
      InsertedDistinct(was, i, p);
    }

    /** A new block below the last one. */
    method Extend(last: Header, owner: nat, n: nat)
      requires Linked() && last == list[|list| - 1]
      modifies this`list, this`blocks, this`limit, last
      ensures Linked() && limit == old(limit) - n && blocks == old(blocks) + [Block(limit, n, owner)]
      ensures forall h :: h in list ==> h in old(list) || fresh(h)
    {
      ghost var hs, bs := list, blocks;
      OnlyOnce(list, |list| - 1);
      var cur := new Header(null, limit - n, n, owner);
      last.next := cur;
      limit := limit - n;
      list := list + [cur];
      blocks := blocks + [Block(limit, n, owner)];
      forall i | 0 <= i < |list|
        ensures list[i].Shows(blocks[i])
      {
        if i < |hs| {
          assert old(hs[i].Shows(bs[i]));
        }
      }
    }

    // ----------------------------------------------------------------- release

    method IsMatch(h: Header, v: Victim) returns (b: bool)
      ensures b == (h != top && Matches(Block(h.adr, h.sz, h.owner), v))
    {
      b := h != top && h.owner != 0 && (match v case ByPtr(ptr) => h.adr == ptr case ByOwner(o, lim) => h.owner == o && h.adr <= lim);
    }

    /** Whether a neighbour is joined with a released block. */
    method IsFree(h: Header, v: Victim) returns (b: bool)
      ensures b == (h != top && CountsFree(Block(h.adr, h.sz, h.owner), v))
    {
      b := h != top && (h.owner == 0 || (v.ByOwner? && h.owner == v.owner));
    }

    /** `consolidate`: block i takes in the next lower one. */
    method Consolidate(p: Header, q: Header, ghost i: nat)
      requires Linked() && i + 1 < |list| && p == list[i] && q == list[i + 1]
      modifies this`list, this`blocks, p
      ensures Linked() && blocks == Joined(old(blocks), i) && list == old(list[..i + 1] + list[i + 2..])
    {
      hide Distinct, Joined;
      ghost var hs, bs := list, blocks;
      assert p.Shows(bs[i]) && q.Shows(bs[i + 1]) by {
        assert list[i].Shows(blocks[i]) && list[i + 1].Shows(blocks[i + 1]);
      }
      OnlyOnce(list, i);
      p.sz := p.sz + q.sz;
      p.adr := q.adr;
      p.next := q.next;
      blocks := Joined(blocks, i);
      list := Removed(list, i + 1);
      RemovedDistinct(hs, i + 1);
      JoinedAt(bs, i);
      forall k | 0 <= k < |list|
        ensures list[k].Shows(blocks[k])
      {
        if k < i {
          assert old(hs[k].Shows(bs[k]));
        } else if k > i {
          assert old(hs[k + 1].Shows(bs[k + 1]));
        }
      }
    }

    /** The block `cur` set free, and joined with its neighbours. */
    method Release(cur0: Header, prev: Header, v: Victim, ghost i: nat) returns (cur: Header)
      requires Linked() && Tiles(blocks) && 0 < i < |list| && cur0 == list[i] && prev == list[i - 1]
      modifies this`list, this`blocks, list
      ensures Linked() && |list| == |blocks| && blocks == Freed(old(blocks), i, v).0 && cur == list[Freed(old(blocks), i, v).1]
      ensures Within(list, old(list))
    {
      hide Joined, Distinct, CountsFree, WithinLimit, Tiles, Linked;
      ghost var bs := blocks;
      SetFree(cur0, i);
      ghost var j;
      cur, j := JoinUp(cur0, prev, v, i);
      assert list[j] in list;
      JoinDown(cur, v, j);
    }

    /** The block joined with the one above, when that is free. */
    method JoinUp(cur0: Header, prev: Header, v: Victim, ghost i: nat) returns (cur: Header, ghost j: nat)
      requires Linked() && 0 < i < |list| && cur0 == list[i] && prev == list[i - 1]
      modifies this`list, this`blocks, prev
      ensures var up := i > 1 && WithinLimit(old(blocks)[i - 1], v) && CountsFree(old(blocks)[i - 1], v);
              && j == (if up then i - 1 else i) && blocks == (if up then Joined(old(blocks), i - 1) else old(blocks))
              && Linked() && j < |list| && cur == list[j]
      ensures Within(list, old(list))
    {
      hide Joined, Distinct, CountsFree, WithinLimit;
      cur, j := cur0, i;
      assert list[i - 1].Shows(blocks[i - 1]);
      OnlyOnce(list, 0);
      BothLimits(prev, v);
      if v.ByPtr? || prev.adr <= v.limit {
        var up := IsFree(prev, v);
        if up {
          Consolidate(prev, cur, i - 1);
          cur, j := prev, i - 1;
        }
      }
    }

    /** The block joined with the one below, when that is free. */
    method JoinDown(cur: Header, v: Victim, ghost j: nat)
      requires Linked() && j < |list| && cur == list[j]
      modifies this`list, this`blocks, cur
      ensures var down := j + 1 < |old(blocks)| && CountsFree(old(blocks)[j + 1], v);
              blocks == if down then Joined(old(blocks), j) else old(blocks)
      ensures Linked() && |list| == |blocks| && j < |list| && cur == list[j] && Within(list, old(list))
    {
      hide Joined, Distinct, CountsFree;
      OnlyOnce(list, 0);
      assert list[j].next == Successor(list, j);
      if cur.next != null {
        assert list[j + 1].Shows(blocks[j + 1]);
        var down := IsFree(cur.next, v);
        if down {
          Consolidate(cur, cur.next, j);
        }
      }
    }

    method SetFree(cur: Header, ghost i: nat)
      requires Linked() && i < |list| && cur == list[i]
      modifies this`blocks, cur
      ensures Linked() && blocks == old(blocks)[i := old(blocks)[i].(owner := 0)] && list == old(list)
    {
      hide Distinct;
      OnlyOnce(list, i);
      ghost var bs := blocks;
      assert list[i].Shows(blocks[i]);
      cur.owner := 0;
      blocks := blocks[i := blocks[i].(owner := 0)];
      forall k | 0 <= k < |list|
        ensures list[k].Shows(blocks[k])
      {
        if k != i {
          assert old(list[k].Shows(bs[k]));
        }
      }
    }

    lemma {:induction false} BothLimits(prev: Header, v: Victim)
      ensures (v.ByPtr? || prev.adr <= v.limit) == WithinLimit(Block(prev.adr, prev.sz, prev.owner), v)
    {
    }

    /** The lowest block has become free: it is given back. */
    method Trim(cur: Header, ghost j: nat)
      requires Linked() && 0 < j == |list| - 1 && cur == list[j]
      modifies this`list, this`blocks, this`limit, list
      ensures Linked() && blocks == old(blocks)[..j] && limit == Limit(blocks) && list == old(list)[..j]
    {
      hide Distinct;
      var p := top;
      ghost var k := 0;
      while p.next != cur
        invariant Linked() && blocks == old(blocks) && list == old(list) && 0 <= k < j && p == list[k]
        decreases j - k
      {
        assert list[k].next == Successor(list, k);
        p := p.next;
        k := k + 1;
      }
      assert list[k].next == Successor(list, k);
      FoundAt(list, k + 1, j);
      assert list[k].Shows(blocks[k]);
      limit := p.adr;
      p.next := null;
      OnlyOnce(list, k);
      list := list[..j];
      blocks := blocks[..j];
      Shorter(old(list), j);
      forall m | 0 <= m < |list|
        ensures list[m].Shows(blocks[m])
      {
        assert old(list[m].Shows(blocks[m]));
      }
    }

    /** `hp_free_int`: the scan for blocks to release, which goes on at the released block unless
        only one was asked for. */
    method FreeInt(v: Victim)
      requires Valid() && !broken
      modifies this, list
      ensures Valid() && Within(list, old(list))
      ensures match v
              case ByPtr(ptr) =>
                (match Free(old(blocks), ptr)
                 case None => broken && blocks == old(blocks)
                 case Some(bs) => !broken && blocks == bs)
              case ByOwner(o, lim) => !broken && blocks == FreeAll(old(blocks), o, lim)
    {
      hide Tiles, Sweep, Find, Matches, Linked, Freed, Owned;
      var cur: Header?, prev: Header? := top, null;
      ghost var i := 0;
      Started(v);
      while cur != null
        invariant Valid() && !broken && |list| == |blocks| > 0 && Within(list, old(list))
        invariant 0 <= i <= |list| && cur == At(list, i) && NoneMatch(blocks, i, v)
        invariant i < |list| && Matches(blocks[i], v) ==> i > 0 && prev == At(list, i - 1)
        invariant v.ByPtr? ==> blocks == old(blocks) && Find(blocks, 1, v) == Find(blocks, From(i), v)
        invariant v.ByOwner? ==> Sweep(blocks, From(i), v) == Sweep(old(blocks), 1, v)
        decreases Owned(blocks, v), |list| - i
      {
        Here(v, i);
        var hit := IsMatch(cur, v);
        if hit {
          ghost var bs := blocks;
          FreedFacts(bs, i, v);
          cur := Release(cur, prev, v, i);
          i := Freed(bs, i, v).1;
          NextOf(i);
          if cur.next == null {
            Trim(cur, i);
            return;
          }
          if v.ByPtr? {
            return;
          }
        } else {
          Missed(blocks, i, v);
          NextOf(i);
          prev, cur := cur, cur.next;
          i := i + 1;
        }
      }
      Ended(blocks, v);
      if v.ByPtr? {
        Fail();
      }
    }

    /** An error stops the emulator. */
    method Fail()
      requires Valid()
      modifies this`broken
      ensures Valid() && broken
    {
      broken := true;
    }

    lemma {:induction false} Started(v: Victim)
      requires Valid()
      ensures |list| == |blocks| > 0 && top == list[0] && !Matches(blocks[0], v)
    {
    }

    /** What the header at position i says about its block. */
    lemma {:induction false} Here(v: Victim, i: nat)
      requires Valid() && i < |list|
      ensures |list| == |blocks| && (list[i] == top <==> i == 0) && !Matches(blocks[0], v)
      ensures Matches(Block(list[i].adr, list[i].sz, list[i].owner), v) == Matches(blocks[i], v)
    {
      assert list[i].Shows(blocks[i]);
      OnlyOnce(list, 0);
    }

    lemma {:induction false} NextOf(i: nat)
      requires Linked() && i < |list|
      ensures |list| == |blocks| && list[i].next == At(list, i + 1)
    {
      assert list[i].next == Successor(list, i);
    }
  }

  /** Where the scan stands, not counting the top header. */
  function From(i: nat): nat {
    if i == 0 then 1 else i
  }

  /** The scan passes a block that does not match. */
  lemma {:induction false} Missed(bs: seq<Block>, i: nat, v: Victim)
    requires i < |bs| && !Matches(bs[i], v)
    ensures v.ByOwner? ==> Sweep(bs, From(i), v) == Sweep(bs, i + 1, v)
    ensures Find(bs, From(i), v) == Find(bs, i + 1, v)
  {
  }

  lemma {:induction false} Ended(bs: seq<Block>, v: Victim)
    requires bs != []
    ensures v.ByOwner? ==> Sweep(bs, |bs|, v) == bs
    ensures Find(bs, |bs|, v) == |bs|
  {
  }

  lemma {:induction false} Prefixes(bs: seq<Block>, j: nat)
    requires 0 < j < |bs|
    ensures Tiles(bs) ==> Tiles(bs[..j])
  {
  }

  /** Everything the scan needs to know about a release. */
  lemma {:induction false} FreedFacts(bs: seq<Block>, i: nat, v: Victim)
    requires Tiles(bs) && i < |bs| && (Matches(bs[i], v) ==> NoneMatch(bs, i, v) && 0 < i)
    ensures Matches(bs[i], v) ==>
              var (b, j) := Freed(bs, i, v);
              && Tiles(b) && NoneMatch(b, j, v) && !Matches(b[j], v) && Tiles(b[..j])
              && Find(bs, i, v) == i && (j + 1 < |b| ==> Limit(b) == Limit(bs))
              && (v.ByOwner? ==> Owned(b, v) < Owned(bs, v) && Sweep(bs, i, v) == (if j == |b| - 1 then b[..j] else Sweep(b, j, v)))
  {
    hide Survivors, Live, Freed, Owned, Tiles;
    if Matches(bs[i], v) {
      Prefixes(Freed(bs, i, v).0, Freed(bs, i, v).1);
      FreedSurvivors(bs, i, v);
      FreedTiles(bs, i, v);
      FreedForm(bs, i, v);
      if v.ByOwner? {
        FreedOwned(bs, i, v);
      }
    }
  }

  lemma {:induction false} FoundAt(hs: seq<Header>, i: nat, j: nat)
    requires Distinct(hs) && i < |hs| && j < |hs| && hs[i] == hs[j]
    ensures i == j
  {
  }

  lemma {:induction false} Shorter(hs: seq<Header>, j: nat)
    requires Distinct(hs) && j <= |hs|
    ensures Distinct(hs[..j])
  {
  }

  /** The list without its element at position i. */
  ghost function Removed(hs: seq<Header>, i: nat): (r: seq<Header>)
    requires i < |hs|
    ensures |r| == |hs| - 1
    ensures forall k :: 0 <= k < i ==> r[k] == hs[k]
    ensures forall k :: i <= k < |r| ==> r[k] == hs[k + 1]
  {
    hs[..i] + hs[i + 1..]
  }

  lemma {:induction false} RemovedDistinct(hs: seq<Header>, i: nat)
    requires i < |hs| && Distinct(hs)
    ensures Distinct(Removed(hs, i))
  {
    hide Removed;
  }

  lemma {:induction false} JoinedAt(bs: seq<Block>, i: nat)
    requires i + 1 < |bs|
    ensures var r := Joined(bs, i);
            && r[i] == Block(bs[i + 1].adr, bs[i].size + bs[i + 1].size, bs[i].owner)
            && (forall k :: 0 <= k < i ==> r[k] == bs[k]) && (forall k :: i < k < |r| ==> r[k] == bs[k + 1])
  {
  }

  ghost function Inserted(hs: seq<Header>, i: nat, p: Header): (r: seq<Header>)
    requires i < |hs|
    ensures |r| == |hs| + 1 && r[i + 1] == p
    ensures forall k :: 0 <= k <= i ==> r[k] == hs[k]
    ensures forall k :: i + 1 < k < |r| ==> r[k] == hs[k - 1]
  {
    hs[..i + 1] + [p] + hs[i + 1..]
  }

  lemma {:induction false} InsertedDistinct(hs: seq<Header>, i: nat, p: Header)
    requires i < |hs| && Distinct(hs) && p !in hs
    ensures Distinct(Inserted(hs, i, p))
  {
    hide Inserted;
  }

  lemma {:induction false} OnlyOnce(hs: seq<Header>, i: nat)
    requires Distinct(hs) && i < |hs|
    ensures forall k :: 0 <= k < |hs| && k != i ==> hs[k] != hs[i]
  {
  }

  /** Block i cut in two, the upper part of size n. */
  ghost function Cut(bs: seq<Block>, i: nat, n: int): (r: seq<Block>)
    requires i < |bs|
    ensures |r| == |bs| + 1
    ensures r[i] == Block(bs[i].adr + (bs[i].size - n), n, bs[i].owner) && r[i + 1] == Block(bs[i].adr, bs[i].size - n, 0)
    ensures forall k :: 0 <= k < i ==> r[k] == bs[k]
    ensures forall k :: i + 1 < k < |r| ==> r[k] == bs[k - 1]
  {
    bs[..i] + [Block(bs[i].adr + (bs[i].size - n), n, bs[i].owner), Block(bs[i].adr, bs[i].size - n, 0)] + bs[i + 1..]
  }

  lemma {:induction false} TakenGap(bs: seq<Block>, i: nat, owner: nat, n: int)
    requires i < |bs| && Fits(bs[i], n)
    ensures bs[i].size > n ==> TakeGap(bs, i, owner, n) == Cut(bs, i, n)[i := Cut(bs, i, n)[i].(owner := owner)]
    ensures bs[i].size == n ==> TakeGap(bs, i, owner, n) == bs[i := bs[i].(owner := owner)]
    ensures bs != [] && Limit(TakeGap(bs, i, owner, n)) == Limit(bs)
  {
  }

  lemma {:induction false} AllocTilesIf(bs: seq<Block>, stack: int, owner: nat, size: nat)
    requires Tiles(bs)
    ensures var r := HeapList.Alloc(bs, stack, owner, size);
            r.Some? ==> Tiles(r.value.0)
  {
    if HeapList.Alloc(bs, stack, owner, size).Some? {
      AllocTiles(bs, stack, owner, size);
    }
  }
}
