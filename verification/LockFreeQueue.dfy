/** LockFreeQueue as a step machine: any number of threads enqueue and dequeue, one access to
    shared memory per step. Nodes keep their identity for ever; tags are whatever the scheduler
    picks, equal tags included. Reclamation is modelled apart. */
module LockFreeQueue {
  import opened Histories


  /** A tagged pointer: Head, Tail and what was read from them. */
  datatype Ptr = Ptr(node: nat, tag: nat)

  datatype Link = Null | To(node: nat)

  datatype EnqPc =
    | ReadTail(mine: Ptr)                          // OldTail = Tail
    | RereadTail(mine: Ptr, seen: Ptr)              // the Tail of Tail->Next
    | ReadNext(mine: Ptr, seen: Ptr, at: nat)       // the Next of Tail->Next
    | CheckTail(mine: Ptr, seen: Ptr, link: Link)   // OldTail == Tail
    | CasNext(mine: Ptr, seen: Ptr)
    | CasTail(mine: Ptr, seen: Ptr)
    | HelpTail(mine: Ptr, seen: Ptr, next: nat)
    | RaiseSize(mine: Ptr)

  datatype DeqPc =
    | Restore                                     // the ticket was refused: Size + 1, return false
    | ReadHead(tag: nat)
    | ReadTailToo(tag: nat, head: Ptr)
    | ReadHeadNext(tag: nat, head: Ptr, tail: Ptr)
    | CheckHead(tag: nat, head: Ptr, tail: Ptr, link: Link)
    | PushTail(tag: nat, tail: Ptr, next: nat)
    | ReadData(tag: nat, head: Ptr, next: nat)
    | CasHead(tag: nat, head: Ptr, next: nat, value: nat)

  datatype Thread = Idle | Enq(enq: EnqPc) | Deq(deq: DeqPc) | Crashed

  /** `order` lists the nodes ever linked, the first dummy first; `first` and `last` say where
      Head and Tail stand in it. `returned` is what Dequeue has handed out, in order. */
  datatype Shared = Shared(
    head: Ptr, tail: Ptr, size: int,
    next: map<nat, nat>,       // node -> its Next; absent is null
    data: map<nat, nat>,       // node -> Data
    limit: nat,                // nodes limit, limit+1, ... have never been allocated
    order: seq<nat>, first: nat, last: nat,
    returned: seq<nat>)

  datatype State = State(sh: Shared, threads: seq<Thread>)

  datatype Move = Move(sh: Shared, t: Thread)

  /** What a thread does next, where it is open: start a call, with the tag it will draw. */
  datatype Choice = Go | Enqueue(value: nat, tag: nat) | Dequeue(tag: nat)

  ghost predicate Start(s: State) {
    && s.sh.head == s.sh.tail && s.sh.head.node == 0
    && s.sh.size == 0 && s.sh.next == map[] && s.sh.data == map[0 := 0] && s.sh.limit == 1
    && s.sh.order == [0] && s.sh.first == 0 && s.sh.last == 0 && s.sh.returned == []
    && forall j: nat :: j < |s.threads| ==> s.threads[j].Idle?
  }

  function NextOf(h: Shared, node: nat): Link {
    if node in h.next then To(h.next[node]) else Null
  }

  function BeginMove(h: Shared, c: Choice): Move {
    match c
    case Go => Move(h, Idle)
    case Enqueue(value, tag) =>
      // AllocNode and the node's own fields, private so far
      Move(h.(limit := h.limit + 1, data := h.data[h.limit := value]), Enq(ReadTail(Ptr(h.limit, tag))))
    case Dequeue(tag) =>
      Move(h.(size := h.size - 1), if h.size <= 0 then Deq(Restore) else Deq(ReadHead(tag)))
  }

  function EnqMove(h: Shared, p: EnqPc): Move {
    match p
    case ReadTail(mine) => Move(h, Enq(RereadTail(mine, h.tail)))
    case RereadTail(mine, seen) => Move(h, Enq(ReadNext(mine, seen, h.tail.node)))
    case ReadNext(mine, seen, at) => Move(h, Enq(CheckTail(mine, seen, NextOf(h, at))))
    case CheckTail(mine, seen, next) =>
      if h.tail != seen then Move(h, Enq(ReadTail(mine)))
      else if next.Null? then Move(h, Enq(CasNext(mine, seen)))
      else Move(h, Enq(HelpTail(mine, seen, next.node)))
    case CasNext(mine, seen) =>
      if seen.node in h.next then Move(h, Enq(ReadTail(mine)))
      else Move(h.(next := h.next[seen.node := mine.node], order := h.order + [mine.node]), Enq(CasTail(mine, seen)))
    case CasTail(mine, seen) =>
      Move(if h.tail == seen then h.(tail := mine, last := h.last + 1) else h, Enq(RaiseSize(mine)))
    case HelpTail(mine, seen, next) =>
      Move(if h.tail == seen then h.(tail := Ptr(next, 0), last := h.last + 1) else h, Enq(ReadTail(mine)))
    case RaiseSize(_) => Move(h.(size := h.size + 1), Idle)
  }

  function DeqMove(h: Shared, p: DeqPc): Move {
    match p
    case Restore => Move(h.(size := h.size + 1), Idle)
    case ReadHead(tag) => Move(h, Deq(ReadTailToo(tag, h.head)))
    case ReadTailToo(tag, head) => Move(h, Deq(ReadHeadNext(tag, head, h.tail)))
    case ReadHeadNext(tag, head, tail) => Move(h, Deq(CheckHead(tag, head, tail, NextOf(h, head.node))))
    case CheckHead(tag, head, tail, next) =>
      if h.head != head then Move(h, Deq(ReadHead(tag)))
      else if next.Null? then Move(h, Crashed)   // would install or follow a null pointer
      else if head.node == tail.node then Move(h, Deq(PushTail(tag, tail, next.node)))
      else Move(h, Deq(ReadData(tag, head, next.node)))
    case PushTail(tag, tail, next) =>
      Move(if h.tail == tail then h.(tail := Ptr(next, tag), last := h.last + 1) else h, Deq(ReadHead(tag)))
    case ReadData(tag, head, next) =>
      if next in h.data then Move(h, Deq(CasHead(tag, head, next, h.data[next]))) else Move(h, Crashed)
    case CasHead(tag, head, next, value) =>
      if h.head != head then Move(h, Deq(ReadHead(tag)))
      else Move(h.(head := Ptr(next, tag), first := h.first + 1, returned := h.returned + [value]), Idle)
  }

  function MoveOf(h: Shared, t: Thread, c: Choice): Move {
    match t
    case Idle => BeginMove(h, c)
    case Enq(p) => EnqMove(h, p)
    case Deq(p) => DeqMove(h, p)
    case Crashed => Move(h, Crashed)
  }

  function Step(s: State, i: nat, c: Choice): State
    requires i < |s.threads|
  {
    var m := MoveOf(s.sh, s.threads[i], c);
    State(m.sh, s.threads[i := m.t])
  }

  /** A run and the moves that made it: move k is of thread moves[k].who. */
  datatype Turn = Turn(who: nat, what: Choice)

  ghost predicate Run(run: seq<State>, moves: seq<Turn>) {
    && |run| == |moves| + 1
    && Start(run[0])
    && forall k: nat :: k < |moves| ==>
         moves[k].who < |run[k].threads| && run[k + 1] == Step(run[k], moves[k].who, moves[k].what)
  }

  // ---- the queue the threads implement ----

  // The values linked so far, in order; the values in the queue now.
  function Linked(h: Shared): seq<nat>
    requires h.order != []
  {
    Values(h.data, h.order[1..])
  }

  function Contents(h: Shared): seq<nat>
    requires h.first < |h.order|
  {
    Values(h.data, h.order[h.first + 1..])
  }
}
