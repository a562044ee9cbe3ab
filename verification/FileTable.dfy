/** The list of open files and its one-entry cache. */
module FileTable {
  import opened Words
  import opened Options

  class FileNode {
    const m2file: word           // the program's file descriptor
    const owner: nat             // the module that opened it
    var next: FileNode?

    constructor (file: word, mod: nat, rest: FileNode?)
      ensures m2file == file && owner == mod && next == rest
    {
      m2file, owner, next := file, mod, rest;
    }
  }

  /** The most recently opened file of that descriptor. */
  function Newest(nodes: seq<FileNode>, m: word): (p: FileNode?)
    ensures p != null ==> p in nodes && p.m2file == m
    ensures p == null <==> forall i :: 0 <= i < |nodes| ==> nodes[i].m2file != m
  {
    if nodes == [] then null
    else if nodes[0].m2file == m then nodes[0]
    else
      assert forall i :: 0 < i < |nodes| ==> nodes[i] == nodes[1..][i - 1];
      Newest(nodes[1..], m)
  }

  lemma {:induction false} NewestFrom(nodes: seq<FileNode>, k: nat, m: word)
    requires k <= |nodes|
    ensures k == |nodes| ==> Newest(nodes[k..], m) == null
    ensures k < |nodes| ==> Newest(nodes[k..], m) == if nodes[k].m2file == m then nodes[k] else Newest(nodes[k + 1..], m)
  {
    if k < |nodes| {
      assert nodes[k..][0] == nodes[k] && nodes[k..][1..] == nodes[k + 1..];
    }
  }

  /** The files that do not belong to a module. */
  function Others(nodes: seq<FileNode>, owner: nat): seq<FileNode> {
    if nodes == [] then []
    else if nodes[0].owner == owner then Others(nodes[1..], owner)
    else [nodes[0]] + Others(nodes[1..], owner)
  }

  class OpenFiles {
    var fdList: FileNode?
    var lastFd: FileNode?
    var lastFile: word
    ghost var nodes: seq<FileNode>
    ghost var repr: set<FileNode>      // the nodes of the list, and nodes that have been in it

    ghost function At(i: nat): FileNode?
      reads this
    {
      if i < |nodes| then nodes[i] else null
    }

    /** The list runs through the nodes, newest first. */
    ghost predicate Linked()
      reads this, repr
    {
      && fdList == At(0) && (forall i :: 0 <= i < |nodes| ==> nodes[i] in repr)
      && (forall i {:trigger nodes[i].next} :: 0 <= i < |nodes| ==> nodes[i].next == At(i + 1))
      && (forall i, j :: 0 <= i < j < |nodes| ==> nodes[i] != nodes[j])
      && (forall i :: 0 <= i < |nodes| ==> nodes[i].m2file != 0)
    }

    /** The cached entry is what a search would find; there is none when the cached number is 0. */
    ghost predicate Cached()
      reads this
    {
      lastFd == Newest(nodes, lastFile)
    }

    ghost predicate Valid()
      reads this, repr
    {
      Linked() && Cached()
    }

    constructor ()
      ensures Valid() && nodes == []
    {
      fdList, lastFd, lastFile, nodes, repr := null, null, 0, [], {};
    }

    /** `fs_cache_last`. */
    method CacheLast(p: FileNode?)
      modifies this`lastFd, this`lastFile
      ensures lastFd == p && lastFile == if p == null then 0 else p.m2file
    {
      lastFd := p;
      lastFile := if p == null then 0 else p.m2file;
    }

    method Search(m: word) returns (p: FileNode?)
      requires Linked()
      ensures p == Newest(nodes, m)
    {
      p := fdList;
      ghost var k := 0;
      assert nodes[0..] == nodes;
      hide Newest;
      while p != null && p.m2file != m
        invariant 0 <= k <= |nodes| && p == At(k) && Newest(nodes[k..], m) == Newest(nodes, m)
        decreases |nodes| - k
      {
        NewestFrom(nodes, k, m);
        assert nodes[k].next == At(k + 1);
        p := p.next;
        k := k + 1;
      }
      NewestFrom(nodes, k, m);
    }

    /** `fs_find_fd`. */
    method FindFd(m: word) returns (p: FileNode?)
      requires Valid()
      modifies this`lastFd, this`lastFile
      ensures Valid() && p == Newest(nodes, m)
    {
      if m == lastFile {
        p := lastFd;
      } else {
        p := Search(m);
        if p != null {
          CacheLast(p);
        }
      }
    }

    /** `fs_open`, once the host has opened the file. */
    method Open(m: word, mod: nat)
      requires Valid() && m != 0
      modifies this
      ensures Valid() && |nodes| == |old(nodes)| + 1 && nodes[1..] == old(nodes)
      ensures fresh(nodes[0]) && nodes[0].m2file == m && nodes[0].owner == mod && repr == old(repr) + {nodes[0]}
    {
      var p := new FileNode(m, mod, fdList);
      ghost var was := nodes;
      nodes := [p] + nodes;
      repr := repr + {p};
      fdList := p;
      forall i {:trigger nodes[i].next} | 0 <= i < |nodes|
        ensures nodes[i].next == At(i + 1)
      {
        if i > 0 {
          assert nodes[i] == was[i - 1] && was[i - 1].next == if i < |was| then was[i] else null;
        }
      }
      CacheLast(p);
    }

    /** `fs_close_int`: one node taken out of the list. */
    method CloseInt(p: FileNode, ghost k: nat)
      requires Linked() && k < |nodes| && nodes[k] == p
      modifies this`fdList, this`nodes, repr
      ensures Linked() && nodes == old(nodes[..k] + nodes[k + 1..])
      ensures p.next == old(p.next) && lastFd == old(lastFd) && lastFile == old(lastFile)
    {
      var cur, prev: FileNode? := fdList, null;
      ghost var i := 0;
      while cur != p
        invariant 0 <= i <= k && cur == At(i) && Linked() && nodes == old(nodes) && p.next == old(p.next)
        invariant (i == 0 ==> prev == null) && (i > 0 ==> prev == nodes[i - 1])
        decreases k - i
      {
        assert nodes[i].next == At(i + 1);
        prev := cur;
        cur := cur.next;
        i := i + 1;
      }
      assert i == k;
      assert nodes[k].next == At(k + 1);
      if prev != null {
        prev.next := cur.next;
      } else {
        fdList := cur.next;
      }
      nodes := nodes[..k] + nodes[k + 1..];
    }

    /** `fs_close`. */
    method Close(m: word) returns (ok: bool)
      requires Valid()
      modifies this, repr
      ensures Valid()
      ensures ok <==> old(Newest(nodes, m)) != null
      ensures ok ==> exists k :: 0 <= k < |old(nodes)| && old(nodes)[k] == old(Newest(nodes, m)) && nodes == old(nodes)[..k] + old(nodes)[k + 1..]
      ensures !ok ==> nodes == old(nodes)
    {
      var p := FindFd(m);
      CacheLast(null);
      ok := p != null;
      if p != null {
        ghost var k :| 0 <= k < |nodes| && nodes[k] == p;
        CloseInt(p, k);
      }
    }

    /** Close the first of the files left if it belongs to the module. */
    method CloseOwned(cur: FileNode, owner: nat, ghost kept: seq<FileNode>, ghost left: seq<FileNode>)
      returns (p: FileNode?, ghost now: seq<FileNode>)
      requires Linked() && left != [] && nodes == kept + left && cur == left[0]
      modifies this`fdList, this`nodes, repr
      ensures Linked() && nodes == now + left[1..] && p == At(|now|) && lastFd == old(lastFd) && lastFile == old(lastFile)
      ensures now == if cur.owner == owner then kept else kept + [cur]
    {
      assert nodes[|kept|] == cur && nodes[|kept|].next == At(|kept| + 1);
      p := cur.next;
      if cur.owner == owner {
        CloseInt(cur, |kept|);
        now := kept;
      } else {
        now := kept + [cur];
      }
    }

    /** All files of the module closed; the cache is left alone. */
    method CloseOwn(owner: nat)
      requires Linked()
      modifies this`fdList, this`nodes, repr
      ensures Linked() && nodes == Others(old(nodes), owner)
    {
      var cur := fdList;
      ghost var all, left, kept := nodes, nodes, [];
      assert cur == At(0) && Others([], owner) == [];
      hide Linked, Others, Newest;
      while cur != null
        invariant Linked() && nodes == kept + left && cur == At(|kept|)
        invariant kept + Others(left, owner) == Others(all, owner)
        decreases |left|
      {
        assert cur == left[0];
        OthersNext(left, owner, kept);
        cur, kept := CloseOwned(cur, owner, kept, left);
        left := left[1..];
      }
      assert left == [] && kept + [] == kept;
    }

    /** `fs_close_all`. */
    method CloseAll(owner: nat)
      requires Valid()
      modifies this, repr
      ensures Valid() && nodes == Others(old(nodes), owner)
    {
      CloseOwn(owner);
      CacheLast(null);
    }
  }

  lemma {:induction false} OthersNext(left: seq<FileNode>, owner: nat, kept: seq<FileNode>)
    requires left != []
    ensures kept + Others(left, owner) == (if left[0].owner == owner then kept else kept + [left[0]]) + Others(left[1..], owner)
  {
  }
}
