/** TLSMemoryPool on real linked lists. A call runs as a whole; ChunckStack is a stack of list
    heads. The data and pad fields of a node play no part and are left out. */
module TLSMemoryPool {
  import opened PoolLedger

  class Node {
    var next: Node?

    constructor (link: Node?)
      ensures next == link
    {
      next := link;
    }
  }

  function First(nodes: seq<Node>): Node? {
    if nodes == [] then null else nodes[0]
  }

  /** From `head` on, Next leads through exactly `nodes` and then to null. */
  ghost predicate IsList(head: Node?, nodes: seq<Node>)
    reads nodes
  {
    head == First(nodes) &&
    forall k: nat :: k < |nodes| ==> nodes[k].next == First(nodes[k + 1..])
  }

  lemma IsListTail(head: Node?, nodes: seq<Node>)
    requires IsList(head, nodes) && nodes != []
    ensures head == nodes[0] && IsList(nodes[0].next, nodes[1..])
  {
    assert forall k: nat :: k < |nodes[1..]| ==> nodes[1..][k] == nodes[k + 1] && nodes[1..][k + 1..] == nodes[k + 2..];
  }

  lemma IsListCons(node: Node, nodes: seq<Node>)
    requires IsList(node.next, nodes)
    ensures IsList(node, [node] + nodes)
  {
    var list := [node] + nodes;
    forall k: nat | k < |list|
      ensures list[k].next == First(list[k + 1..])
    {
      if k == 0 {
        assert list[1..] == nodes;
      } else {
        assert list[k] == nodes[k - 1] && list[k + 1..] == nodes[k..];
      }
    }
  }

  /** A null-terminated list visits no node twice. */
  lemma {:induction false} NoCycle(head: Node?, nodes: seq<Node>, j: nat, k: nat)
    requires IsList(head, nodes) && j < k < |nodes|
    ensures nodes[j] != nodes[k]
    decreases |nodes| - k
  {
    if nodes[j] == nodes[k] {
      assert nodes[j].next == First(nodes[j + 1..]) && nodes[k].next == First(nodes[k + 1..]);
      assert nodes[j + 1..][0] == nodes[j + 1];
      if k + 1 < |nodes| {
        assert nodes[k + 1..][0] == nodes[k + 1];
        NoCycle(head, nodes, j + 1, k + 1);
      }
    }
  }

  class ChunkPool {
    var chunckStack: seq<Node>            // top last
    var totalSize: int
    var useSize: int
    var freeSize: int
    ghost var chunks: seq<seq<Node>>

    ghost function Nodes(): (r: set<Node>)
      reads this
      ensures forall k: nat, n :: k < |chunks| && n in chunks[k] ==> n in r
    {
      set k: nat, n | k < |chunks| && n in chunks[k] :: n
    }

    /** Every stacked chunk is a null-terminated list of 100 nodes. */
    ghost predicate Valid()
      reads this, Nodes()
    {
      |chunckStack| == |chunks| &&
      forall k: nat :: k < |chunks| ==> |chunks[k]| == CHUNK && IsList(chunckStack[k], chunks[k])
    }

    constructor ()
      ensures Valid() && chunks == [] && totalSize == useSize == freeSize == 0
    {
      chunckStack, chunks := [], [];
      totalSize, useSize, freeSize := 0, 0, 0;
    }

    method AllocChunck() returns (chunk: Node?)
      requires Valid()
      modifies this
      ensures Valid()
      ensures old(chunks) == [] ==>
        && chunk == null && chunks == [] && freeSize == old(freeSize)
        && totalSize == old(totalSize) + CHUNK && useSize == old(useSize) + CHUNK
      ensures old(chunks) != [] ==>
        && IsList(chunk, old(chunks[|chunks| - 1])) && chunks == old(chunks[..|chunks| - 1])
        && totalSize == old(totalSize) && useSize == old(useSize) + CHUNK && freeSize == old(freeSize) - CHUNK
    {
      if chunckStack == [] {
        totalSize := totalSize + CHUNK;
        useSize := useSize + CHUNK;
        chunk := null;
      } else {
        chunk := chunckStack[|chunckStack| - 1];
        chunckStack, chunks := chunckStack[..|chunckStack| - 1], chunks[..|chunks| - 1];
        freeSize := freeSize - CHUNK;
        useSize := useSize + CHUNK;
      }
    }

    method FreeChunck(chunk: Node, ghost nodes: seq<Node>)
      requires Valid() && IsList(chunk, nodes) && |nodes| == CHUNK
      modifies this
      ensures Valid() && chunks == old(chunks) + [nodes]
      ensures totalSize == old(totalSize) && useSize == old(useSize) - CHUNK && freeSize == old(freeSize) + CHUNK
    {
      useSize := useSize - CHUNK;
      freeSize := freeSize + CHUNK;
      chunckStack, chunks := chunckStack + [chunk], chunks + [nodes];
    }
  }

  class NodePool {
    const chunckPool: ChunkPool
    var head: Node?
    var freeNodeCnt: int
    ghost var list: seq<Node>

    /** The thread's list is null-terminated and FreeNodeCnt long, at most 99. */
    ghost predicate Valid()
      reads this, list
    {
      IsList(head, list) && freeNodeCnt == |list| < CHUNK
    }

    constructor (pool: ChunkPool)
      ensures Valid() && list == [] && chunckPool == pool
    {
      chunckPool := pool;
      head, freeNodeCnt, list := null, 0, [];
    }

    method NewNodeList() returns (first: Node?, ghost nodes: seq<Node>)
      requires head == null
      ensures |nodes| == CHUNK && IsList(first, nodes) && (forall n :: n in nodes ==> fresh(n))
    {
      first := head;
      nodes := [];
      for i := 0 to CHUNK
        invariant |nodes| == i && IsList(first, nodes) && (forall n :: n in nodes ==> fresh(n))
      {
        var newNode := new Node(first);
        IsListCons(newNode, nodes);
        first, nodes := newNode, [newNode] + nodes;
      }
    }

    method Alloc() returns (node: Node, ghost made: seq<Node>)
      requires Valid() && chunckPool.Valid()
      modifies this, chunckPool
      ensures Valid() && chunckPool.Valid()
      ensures old(list) == [] && old(chunckPool.chunks) == [] ==> |made| == CHUNK && IsList(First(made), made)
      ensures forall n :: n in made ==> fresh(n)
      ensures var src := Source(old(list), old(chunckPool.chunks), made);
        src != [] && node == src[0] && list == src[1..]
      ensures chunckPool.chunks == ChunksLeft(old(list), old(chunckPool.chunks))
      ensures chunckPool.useSize == old(chunckPool.useSize) + (if old(list) == [] then CHUNK else 0)
      ensures chunckPool.totalSize ==
              old(chunckPool.totalSize) + (if old(list) == [] && old(chunckPool.chunks) == [] then CHUNK else 0)
      ensures chunckPool.freeSize ==
              old(chunckPool.freeSize) - (if old(list) == [] && old(chunckPool.chunks) != [] then CHUNK else 0)
    {
      made := [];
      if freeNodeCnt == 0 {
        head := chunckPool.AllocChunck();
        if head == null {
          head, made := NewNodeList();
        }
        freeNodeCnt := freeNodeCnt + CHUNK;
        list := Source(list, old(chunckPool.chunks), made);
      }
      node := head;
      IsListTail(head, list);
      head := head.next;
      freeNodeCnt := freeNodeCnt - 1;
      list := list[1..];
    }

    method Free(node: Node)
      requires Valid() && chunckPool.Valid() && node !in list && node !in chunckPool.Nodes()
      modifies this, chunckPool, node
      ensures Valid() && chunckPool.Valid()
      ensures var own := [node] + old(list);
        if |own| < CHUNK then
          && list == own && chunckPool.chunks == old(chunckPool.chunks)
          && chunckPool.useSize == old(chunckPool.useSize) && chunckPool.freeSize == old(chunckPool.freeSize)
        else
          && list == own[CHUNK..] && chunckPool.chunks == old(chunckPool.chunks) + [own[..CHUNK]]
          && chunckPool.useSize == old(chunckPool.useSize) - CHUNK
          && chunckPool.freeSize == old(chunckPool.freeSize) + CHUNK
      ensures chunckPool.totalSize == old(chunckPool.totalSize)
    {
      hide IsList;
      node.next := head;
      assert IsList(head, list);
      IsListCons(node, list);
      assert chunckPool.Valid();
      head, list := node, [node] + list;
      freeNodeCnt := freeNodeCnt + 1;
      if freeNodeCnt >= CHUNK {
        ghost var own := list;
        for i := 0 to CHUNK
          invariant IsList(head, own[i..])
          modifies `head
        {
          IsListTail(head, own[i..]);
          assert own[i..][1..] == own[i + 1..];
          head := head.next;
        }
        freeNodeCnt := freeNodeCnt - CHUNK;
        list := own[CHUNK..];
        assert own[..CHUNK] == own;
        chunckPool.FreeChunck(node, own);
      }
    }
  }
}
