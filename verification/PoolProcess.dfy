/** All threads of a process on the two-tier pool. Calls of different threads interleave whole;
    a node may be freed on another thread than the one it was allocated on. */
module PoolProcess {
  import opened Counting
  import opened PoolLedger
  import opened TLSMemoryPool

  lemma {:induction false} OnceEach(head: Node?, nodes: seq<Node>, n: Node)
    requires IsList(head, nodes) && n in nodes
    ensures Times(nodes, n) == 1
  {
    IsListTail(head, nodes);
    if n in nodes[1..] {
      OnceEach(nodes[0].next, nodes[1..], n);
      var k: nat :| k < |nodes[1..]| && nodes[1..][k] == n;
      NoCycle(head, nodes, 0, k + 1);
    } else {
      TimesIn(nodes[1..], n);
    }
  }

  // A live node is in no list.
  lemma LiveInNoList<T>(l: Ledger<T>, n: T)
    requires Tidy(l) && n in l.live
    ensures forall i: nat :: i < |l.caches| ==> n !in l.caches[i]
    ensures forall k: nat :: k < |l.chunks| ==> n !in l.chunks[k]
  {
    forall i: nat | i < |l.caches| ensures n !in l.caches[i] {
      OneOf(l.caches, i, n);
      TimesIn(l.caches[i], n);
    }
    forall k: nat | k < |l.chunks| ensures n !in l.chunks[k] {
      OneOf(l.chunks, k, n);
      TimesIn(l.chunks[k], n);
    }
  }

  // A list just built by NewNodeList is what Alloc may be given.
  lemma JustMade(l: Ledger<Node>, i: nat, made: seq<Node>)
    requires i < |l.caches| && Inv(l)
    requires l.caches[i] == [] && l.chunks == [] ==> |made| == CHUNK && IsList(First(made), made)
    requires forall n :: n in made ==> n !in l.known
    ensures Made(l, i, made)
    ensures var src := Source(l.caches[i], l.chunks, made); src != [] && src[0] !in l.live
    ensures Inv(AllocStep(l, i, made))
  {
    forall n | n in made && l.caches[i] == [] && l.chunks == [] ensures Times(made, n) == 1 {
      OnceEach(First(made), made, n);
    }
    SourceNotLive(l, i, made);
    AllocKeeps(l, i, made);
  }

  lemma FreeOk<T>(l: Ledger<T>, i: nat, node: T)
    requires i < |l.caches| && Inv(l) && node in l.live
    ensures Inv(FreeStep(l, i, node))
    ensures forall j: nat :: j < |l.caches| ==> node !in l.caches[j]
    ensures forall k: nat :: k < |l.chunks| ==> node !in l.chunks[k]
  {
    LiveInNoList(l, node);
    FreeKeeps(l, i, node);
  }

  class Process {
    const chunckPool: ChunkPool
    const pools: seq<NodePool>            // one a thread
    ghost var live: set<Node>             // handed out by Alloc and not yet freed
    ghost var known: set<Node>            // ever made by NewNodeList
    ghost var peak: nat

    ghost function Caches(): (r: seq<seq<Node>>)
      reads pools
      ensures |r| == |pools| && forall i: nat :: i < |pools| ==> r[i] == pools[i].list
    {
      seq(|pools|, i requires 0 <= i < |pools| reads pools => pools[i].list)
    }

    ghost function Ledger(): Ledger<Node>
      reads this, chunckPool, pools
    {
      PoolLedger.Ledger.Ledger(Caches(), chunckPool.chunks, live, known,
                               chunckPool.totalSize, chunckPool.useSize, chunckPool.freeSize, peak)
    }

    ghost function Nodes(): (r: set<Node>)
      reads chunckPool, pools
      ensures chunckPool.Nodes() <= r && forall i: nat, n :: i < |pools| && n in pools[i].list ==> n in r
    {
      chunckPool.Nodes() + set i: nat, n | i < |pools| && n in pools[i].list :: n
    }

    /** Every list in the heap is as the ledger says. */
    ghost predicate Lists()
      reads chunckPool, pools, Nodes()
    {
      && chunckPool.Valid()
      && (forall i: nat, j: nat :: i < j < |pools| ==> pools[i] != pools[j])
      && forall i: nat :: i < |pools| ==> pools[i].chunckPool == chunckPool && pools[i].Valid()
    }

    ghost predicate Valid()
      reads this, chunckPool, pools, Nodes()
    {
      Lists() && Inv(Ledger())
    }

    constructor (threads: nat)
      ensures Valid() && |pools| == threads && live == {}
    {
      var shared := new ChunkPool();
      var made: seq<NodePool> := [];
      for i := 0 to threads
        invariant |made| == i && shared.Valid() && shared.chunks == [] && fresh(shared)
        invariant shared.totalSize == shared.useSize == shared.freeSize == 0
        invariant forall j: nat :: j < i ==>
                    made[j].Valid() && made[j].list == [] && made[j].chunckPool == shared && fresh(made[j])
        invariant forall j: nat, k: nat :: j < k < i ==> made[j] != made[k]
      {
        var pool := new NodePool(shared);
        made := made + [pool];
      }
      chunckPool, pools := shared, made;
      live, known, peak := {}, {}, 0;
      new;
      StartInv(Ledger());
    }

    // Alloc and Free without the invariant of the ledger.
    method TakeNode(i: nat) returns (node: Node, ghost made: seq<Node>)
      requires Lists() && i < |pools|
      modifies chunckPool, pools[i]
      ensures Lists()
      ensures old(Caches()[i]) == [] && old(chunckPool.chunks) == [] ==> |made| == CHUNK && IsList(First(made), made)
      ensures forall n :: n in made ==> fresh(n)
      ensures var src := Source(old(Caches()[i]), old(chunckPool.chunks), made); src != [] && node == src[0]
      ensures var l' := AllocStep(old(Ledger()), i, made); Ledger() == l'.(live := live, known := known, peak := peak)
    {
      hide IsList;
      node, made := pools[i].Alloc();
      assert Caches() == old(Caches())[i := pools[i].list];
    }

    ghost method Record(l: Ledger<Node>)
      requires Lists()
      modifies `live, `known, `peak
      ensures Lists()
      ensures live == l.live && known == l.known && peak == l.peak
    {
      live, known, peak := l.live, l.known, l.peak;
    }

    method GiveNode(i: nat, node: Node)
      requires Lists() && i < |pools| && node !in Nodes()
      modifies chunckPool, pools[i], node
      ensures Lists()
      ensures var l' := FreeStep(old(Ledger()), i, node); Ledger() == l'.(live := live)
    {
      hide IsList;
      pools[i].Free(node);
      assert Caches() == old(Caches())[i := pools[i].list];
    }

    /** Alloc hands out a node nobody has; it makes new nodes only when the thread's list and
        ChunckStack are both empty. */
    method Alloc(i: nat) returns (node: Node, ghost made: seq<Node>)
      requires Valid() && i < |pools|
      modifies this, chunckPool, pools[i]
      ensures Valid()
      ensures Made(old(Ledger()), i, made)
      ensures var src := Source(old(Caches()[i]), old(chunckPool.chunks), made); src != [] && node == src[0]
      ensures Ledger() == AllocStep(old(Ledger()), i, made)
      ensures node !in old(live)
    {
      ghost var l := Ledger();
      node, made := TakeNode(i);
      JustMade(l, i, made);
      Record(AllocStep(l, i, made));
    }

    /** Free takes back a live node, on whichever thread it runs. */
    method Free(i: nat, node: Node)
      requires Valid() && i < |pools| && node in live
      modifies this, chunckPool, pools[i], node
      ensures Valid()
      ensures Ledger() == FreeStep(old(Ledger()), i, node)
    {
      ghost var l := Ledger();
      FreeOk(l, i, node);
      GiveNode(i, node);
      Record(FreeStep(l, i, node));
    }
  }
}
