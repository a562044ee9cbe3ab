/** The stacks of open LOOP statements and their EXIT jumps. */
module Loops {
  import opened Words
  import opened StmtGen
  import opened Emitter
  import opened Exits

  const LOOP_LEVELS: nat := 4
  const NOF_EXITS: nat := 16

  /** The last of the first m exits is patched first. */
  lemma {:induction false} PatchLast(c: seq<byte>, hs: seq<nat>, m: nat, target: nat)
    requires m <= |hs| && forall i :: 0 <= i < |hs| ==> hs[i] + 1 < |c|
    ensures PatchDown(c, hs[..m], target)
         == if m == 0 then c else PatchDown(Patch(c, hs[m - 1], target - hs[m - 1]), hs[..m - 1], target)
  {
    assert m > 0 ==> hs[..m][..m - 1] == hs[..m - 1];
  }

  class LoopStack {
    const index: array<nat>      // for each open LOOP, the number of exits recorded before it
    const exits: array<nat>      // where the displacements of open EXIT jumps go
    var h: nat
    var k: nat

    ghost predicate Valid()
      reads this, index
    {
      && index.Length == LOOP_LEVELS && exits.Length == NOF_EXITS && h <= LOOP_LEVELS && k <= NOF_EXITS && index != exits
      && (forall i :: 0 <= i < h ==> index[i] <= k)
      && (forall i, j :: 0 <= i < j < h ==> index[i] <= index[j])
    }

    ghost function Exits(): seq<nat>
      requires Valid()
      reads this, index, exits
    {
      exits[..k]
    }

    ghost function Marks(): seq<nat>
      requires Valid()
      reads this, index
    {
      index[..h]
    }

    constructor ()
      ensures Valid() && Exits() == [] && Marks() == [] && fresh(index) && fresh(exits)
    {
      index := new nat[LOOP_LEVELS];
      exits := new nat[NOF_EXITS];
      h, k := 0, 0;
    }

    method EnterLoop()
      requires Valid() && h < LOOP_LEVELS
      modifies this`h, index
      ensures Valid() && k == old(k) && Exits() == old(Exits()) && Marks() == old(Marks()) + [k]
    {
      index[h] := k;
      h := h + 1;
    }

    /** Errors 39 and 93 are reported outside a LOOP and for too many exits. */
    method RecordExit(g: Generator, loc: nat)
      requires Valid() && g.Valid()
      modifies this`k, exits, g`failed
      ensures Valid() && h == old(h) && Marks() == old(Marks()) && g.Valid()
      ensures g.failed <==> old(g.failed) || h == 0 || old(k) == NOF_EXITS
      ensures !g.failed ==> Exits() == old(Exits()) + [loc]
    {
      if h == 0 {
        g.Err();
      } else if k < NOF_EXITS {
        exits[k] := loc;
        k := k + 1;
      } else {
        g.Err();
      }
    }

    /** All exits of the innermost LOOP, which were recorded as hs, are led to this place. */
    method ExitLoop(g: Generator, ghost before: seq<nat>, ghost hs: seq<nat>)
      requires Valid() && g.Valid() && h > 0 && exits != g.code as object && index != g.code as object
      requires !g.failed ==> Exits() == before + hs && index[h - 1] == |before|
      requires !g.failed ==> forall i :: 0 <= i < |hs| ==> hs[i] + 1 < g.pc
      modifies this`h, this`k, g`failed, g.code
      ensures Valid() && h == old(h) - 1 && Marks() == old(Marks())[..h] && g.Valid()
      ensures g.failed == old(g.failed) && g.pc == old(g.pc) && g.sp == old(g.sp)
      ensures !g.failed ==> Exits() == before && g.Out() == PatchDown(old(g.Out()), hs, g.pc)
    {
      hide Patch, Grow, PatchDown, Patched;
      if !g.failed {
        Recorded(exits[..k], before, hs);
        assert forall i {:trigger exits[i]} :: |before| <= i < k ==> exits[i] == exits[..k][i];
      }
      assert index[..h - 1] == index[..h][..h - 1];
      h := h - 1;
      FixupAll(g, index[h], hs);
      assert exits[..k] == old(exits[..k])[..k];
    }

    /** The exits behind the first `low` ones, from the last one down. */
    method FixupAll(g: Generator, low: nat, ghost hs: seq<nat>)
      requires Valid() && g.Valid() && exits != g.code as object && index != g.code as object
      requires low <= k && forall i :: 0 <= i < h ==> index[i] <= low
      requires !g.failed ==> k == low + |hs| && forall i :: 0 <= i < |hs| ==> exits[low + i] == hs[i] && hs[i] + 1 < g.pc
      modifies this`k, g`failed, g.code
      ensures Valid() && k == low && g.Valid() && g.failed == old(g.failed) && g.pc == old(g.pc) && g.sp == old(g.sp)
      ensures !g.failed ==> g.Out() == PatchDown(old(g.Out()), hs, g.pc)
    {
      hide Patch, Grow, PatchDown, Patched;
      ghost var m := |hs|;
      assert hs[..m] == hs;
      while k > low
        invariant Valid() && low <= k && g.Valid()
        invariant g.failed == old(g.failed) && g.pc == old(g.pc) && g.sp == old(g.sp)
        invariant !g.failed ==> 0 <= m <= |hs| && k == low + m
        invariant !g.failed ==> PatchDown(g.Out(), hs[..m], g.pc) == PatchDown(old(g.Out()), hs, g.pc)
      {
        assert !g.failed ==> exits[low + (m - 1)] == hs[m - 1];
        FixupLast(g, hs, m);
        m := m - 1;
      }
      if !g.failed {
        PatchLast(g.Out(), hs, 0, g.pc);
      }
    }

    method FixupLast(g: Generator, ghost hs: seq<nat>, ghost m: int)
      requires Valid() && g.Valid() && k > 0 && exits != g.code as object && index != g.code as object
      requires forall i :: 0 <= i < h ==> index[i] < k
      requires !g.failed ==> 0 < m <= |hs| && exits[k - 1] == hs[m - 1] && forall i :: 0 <= i < |hs| ==> hs[i] + 1 < g.pc
      modifies this`k, g`failed, g.code
      ensures Valid() && k == old(k) - 1 && g.Valid() && g.failed == old(g.failed) && g.pc == old(g.pc) && g.sp == old(g.sp)
      ensures !g.failed ==> PatchDown(g.Out(), hs[..m - 1], g.pc) == PatchDown(old(g.Out()), hs[..m], g.pc)
    {
      hide Patch, Grow, PatchDown, Patched;
      k := k - 1;
      if !g.failed {
        PatchLast(g.Out(), hs, m, g.pc);
        PatchedIs(g.Out(), g.sp, exits[k]);
      }
      g.Fixup(exits[k]);
    }
  }

  /** The recorded exits, one by one. */
  lemma {:induction false} Recorded(all: seq<nat>, before: seq<nat>, hs: seq<nat>)
    ensures all == before + hs ==> all[..|before|] == before && forall i :: |before| <= i < |all| ==> all[i] == hs[i - |before|]
  {
  }

  lemma {:induction false} PatchedIs(out: seq<byte>, sp: int, loc: nat)
    requires loc + 1 < |out|
    ensures Patched(At(out, sp), loc) == At(Patch(out, loc, |out| - loc), sp)
  {
  }
}
