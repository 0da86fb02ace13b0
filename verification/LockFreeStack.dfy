/** LockFreeStack as a step machine: Top is swapped as one word of 47 address bits and a 16-bit
    tag, and nodes are used again and again. A tag is the number of its draw modulo 65536; the
    model keeps the number and lets the exchange see only what the word holds. The free list of
    LockFreeMemoryPool is the same machine, with `outside` the nodes handed out to callers. */
module LockFreeStack {
  import opened Histories

  const TAGS := 65536

  datatype Link = Null | To(node: nat)

  datatype Ptr = Ptr(node: Link, draw: nat)

  datatype PushPc =
    | PushTag(node: nat, value: nat)               // GetTagCnt
    | PushData(node: nat, draw: nat, value: nat)
    | PushRead(node: nat, draw: nat)               // OldTop = Top
    | PushNext(node: nat, draw: nat, seen: Ptr)    // NewTop->Next = OldTop.GetPtr()
    | PushCas(node: nat, draw: nat, seen: Ptr)
    | PushSize

  datatype PopPc =
    | PopTicket(draw: nat)
    | PopRestore
    | PopRead(draw: nat)
    | PopNext(draw: nat, seen: Ptr)                // NewTop = OldTop->Next
    | PopCas(draw: nat, seen: Ptr, link: Link)
    | PopData(node: nat, popped: nat)
    | PopFree(node: nat, popped: nat, value: nat)  // value is what Pop returns

  datatype Thread = Idle | Push(push: PushPc) | Pop(pop: PopPc) | Crashed

  /** `stack` lists the nodes of the stack, top first; `spent` the draws that were installed in
      Top; PopData's `popped` is the value on top when the node was taken. */
  datatype Shared = Shared(
    top: Ptr, size: int,
    drawn: nat,                // tags drawn so far
    next: map<nat, Link>, data: map<nat, nat>,
    outside: set<nat>,         // nodes in NodePool
    limit: nat,                // nodes limit, limit+1, ... have never been allocated
    stack: seq<nat>, spent: set<nat>)

  datatype State = State(sh: Shared, threads: seq<Thread>)

  datatype Move = Move(sh: Shared, t: Thread)

  /** What an idle thread does next. NodePool may hand out any node it has, or a new one. */
  datatype Choice = Go | StartPush(value: nat, node: nat) | StartPop

  ghost predicate Start(s: State) {
    && s.sh == Shared(Ptr(Null, 0), 0, 0, map[], map[], {}, 0, [], {0})
    && forall j: nat :: j < |s.threads| ==> s.threads[j].Idle?
  }

  function NextOf(h: Shared, node: nat): Link {
    if node in h.next then h.next[node] else Null
  }

  // The 64 bits are the same: address and tag.
  predicate SameWord(p: Ptr, q: Ptr) {
    p.node == q.node && p.draw % TAGS == q.draw % TAGS
  }

  function BeginMove(h: Shared, c: Choice): Move {
    match c
    case Go => Move(h, Idle)
    case StartPush(value, node) =>
      if node in h.outside then Move(h.(outside := h.outside - {node}), Push(PushTag(node, value)))
      else Move(h.(limit := h.limit + 1), Push(PushTag(h.limit, value)))
    case StartPop => Move(h.(drawn := h.drawn + 1), Pop(PopTicket(h.drawn + 1)))
  }

  function PushMove(h: Shared, p: PushPc): Move {
    match p
    case PushTag(node, value) => Move(h.(drawn := h.drawn + 1), Push(PushData(node, h.drawn + 1, value)))
    case PushData(node, draw, value) => Move(h.(data := h.data[node := value]), Push(PushRead(node, draw)))
    case PushRead(node, draw) => Move(h, Push(PushNext(node, draw, h.top)))
    case PushNext(node, draw, seen) => Move(h.(next := h.next[node := seen.node]), Push(PushCas(node, draw, seen)))
    case PushCas(node, draw, seen) =>
      if SameWord(h.top, seen) then
        Move(h.(top := Ptr(To(node), draw), stack := [node] + h.stack, spent := h.spent + {draw}), Push(PushSize))
      else Move(h, Push(PushRead(node, draw)))
    case PushSize => Move(h.(size := h.size + 1), Idle)
  }

  function PopMove(h: Shared, p: PopPc): Move {
    match p
    case PopTicket(draw) => Move(h.(size := h.size - 1), if h.size <= 0 then Pop(PopRestore) else Pop(PopRead(draw)))
    case PopRestore => Move(h.(size := h.size + 1), Idle)
    case PopRead(draw) => Move(h, Pop(PopNext(draw, h.top)))
    case PopNext(draw, seen) =>
      if seen.node.Null? then Move(h, Crashed)       // OldTop->Next through a null pointer
      else Move(h, Pop(PopCas(draw, seen, NextOf(h, seen.node.node))))
    case PopCas(draw, seen, link) =>
      if SameWord(h.top, seen) && seen.node.To? then
        Move(h.(top := Ptr(link, draw), stack := if h.stack == [] then [] else h.stack[1..], spent := h.spent + {draw}),
             Pop(PopData(seen.node.node, if seen.node.node in h.data then h.data[seen.node.node] else 0)))
      else Move(h, Pop(PopRead(draw)))
    case PopData(node, popped) => Move(h, if node in h.data then Pop(PopFree(node, popped, h.data[node])) else Crashed)
    case PopFree(node, _, _) => Move(h.(outside := h.outside + {node}), Idle)
  }

  function MoveOf(h: Shared, t: Thread, c: Choice): Move {
    match t
    case Idle => BeginMove(h, c)
    case Push(p) => PushMove(h, p)
    case Pop(p) => PopMove(h, p)
    case Crashed => Move(h, Crashed)
  }

  function Step(s: State, i: nat, c: Choice): State
    requires i < |s.threads|
  {
    var m := MoveOf(s.sh, s.threads[i], c);
    State(m.sh, s.threads[i := m.t])
  }

  /** A run and the moves that made it: move k is of thread moves[k].who. */
  datatype Turn = Turn(who: nat, what: Choice)

  ghost predicate Run(run: seq<State>, moves: seq<Turn>) {
    && |run| == |moves| + 1
    && Start(run[0])
    && forall k: nat :: k < |moves| ==>
         moves[k].who < |run[k].threads| && run[k + 1] == Step(run[k], moves[k].who, moves[k].what)
  }

  // The values on the stack, top first.
  function Contents(h: Shared): (r: seq<nat>)
    ensures |r| == |h.stack|
  {
    Values(h.data, h.stack)
  }

  /** A push exchange puts the value in; a pop exchange takes out the value of the node. */
  function EffectOf(h: Shared, t: Thread): Effect {
    match t
    case Push(PushCas(node, _, seen)) =>
      if SameWord(h.top, seen) && node in h.data then Put(h.data[node]) else Silent
    case Pop(PopCas(_, seen, _)) =>
      if SameWord(h.top, seen) && seen.node.To? && seen.node.node in h.data
      then Got(h.data[seen.node.node]) else Silent
    case _ => Silent
  }

  /** A pop exchange that takes the word for unchanged although Next was read from an earlier
      life of the node. */
  ghost predicate WrongPop(h: Shared, t: Thread) {
    && t.Pop? && t.pop.PopCas?
    && SameWord(h.top, t.pop.seen) && h.top != t.pop.seen
    && t.pop.seen.node.To? && NextOf(h, t.pop.seen.node.node) != t.pop.link
  }

  /** The draws of the exchange lie within one window of 65536. */
  ghost predicate InWindow(h: Shared, t: Thread) {
    t.Pop? && t.pop.PopCas? ==> -TAGS < h.top.draw - t.pop.seen.draw < TAGS
  }
}
