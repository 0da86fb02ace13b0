/** What the queue machine guarantees over every run. */
module QueueTheorems {
  import opened Histories
  import opened LockFreeQueue
  import opened QueueInvariant
  import opened QueueSteps
  import opened TicketSums

  lemma StartShape(h: Shared)
    requires h.head == h.tail && h.head.node == 0 && h.next == map[] && h.data == map[0 := 0] && h.limit == 1
    requires h.order == [0] && h.first == 0 && h.last == 0 && h.returned == []
    ensures Shape(h)
  {
    assert Nodes(h) && Links(h);
    assert h.order[1..1] == [];
  }

  lemma StartInv(s: State)
    requires Start(s)
    ensures Inv(s)
  {
    hide ThreadOk, Apart, Sum;
    SumNothing(Held(s.threads));
    StartShape(s.sh);
    IdleOk(s.sh, s.threads);
  }

  lemma IdleOk(h: Shared, ts: seq<Thread>)
    requires forall j: nat :: j < |ts| ==> ts[j].Idle?
    ensures forall j: nat :: j < |ts| ==> ThreadOk(h, ts[j])
    ensures forall j: nat, k: nat :: j < k < |ts| ==> Apart(ts[j], ts[k])
  {
  }

  lemma MoverStep(s: State, i: nat, c: Choice)
    requires Inv(s) && i < |s.threads|
    ensures var m := MoveOf(s.sh, s.threads[i], c);
      && Later(s.sh, m.sh) && Shape(m.sh) && Tickets(m.sh, Total(s.threads[i := m.t]))
      && ThreadOk(m.sh, m.t) && OwnNodes(s.sh, s.threads[i], m)
  {
    TotalMoved(s.threads, i, MoveOf(s.sh, s.threads[i], c).t);
    MoverKept(s.sh, s.threads[i], c, Others(s.threads, i));
  }

  ghost predicate OthersOk(h: Shared, ts: seq<Thread>, i: nat, t: Thread) {
    forall j: nat :: j < |ts| && j != i ==> ThreadOk(h, ts[j]) && Apart(t, ts[j])
  }

  lemma OthersStep(s: State, i: nat, m: Move)
    requires Inv(s) && i < |s.threads| && Later(s.sh, m.sh) && OwnNodes(s.sh, s.threads[i], m)
    ensures OthersOk(m.sh, s.threads, i, m.t)
  {
    forall j: nat | j < |s.threads| && j != i
      ensures ThreadOk(m.sh, s.threads[j]) && Apart(m.t, s.threads[j])
    {
      assert Apart(s.threads[i], s.threads[j]);
      OtherKept(s.sh, s.threads[i], m, s.threads[j]);
    }
  }

  lemma StepKeeps(s: State, i: nat, c: Choice)
    requires Inv(s) && i < |s.threads|
    ensures Inv(Step(s, i, c)) && Later(s.sh, Step(s, i, c).sh)
  {
    var m := MoveOf(s.sh, s.threads[i], c);
    MoverStep(s, i, c);
    OthersStep(s, i, m);
    AllOk(s.threads, i, m, s.threads[i := m.t]);
  }

  lemma AllOk(ts: seq<Thread>, i: nat, m: Move, ts': seq<Thread>)
    requires i < |ts| && ts' == ts[i := m.t] && OthersOk(m.sh, ts, i, m.t) && ThreadOk(m.sh, m.t)
    requires forall j: nat, k: nat :: j < k < |ts| ==> Apart(ts[j], ts[k])
    ensures forall j: nat :: j < |ts'| ==> ThreadOk(m.sh, ts'[j])
    ensures forall j: nat, k: nat :: j < k < |ts'| ==> Apart(ts'[j], ts'[k])
  {
  }

  lemma {:induction false} RunInv(run: seq<State>, moves: seq<Turn>, k: nat)
    requires Run(run, moves) && k < |run|
    ensures Inv(run[k])
  {
    if k == 0 {
      StartInv(run[0]);
    } else {
      RunInv(run, moves, k - 1);
      StepKeeps(run[k - 1], moves[k - 1].who, moves[k - 1].what);
      assert run[k - 1 + 1] == run[k];
    }
  }

  ghost predicate Reachable(s: State) {
    exists run: seq<State>, moves: seq<Turn> :: Run(run, moves) && s == run[|run| - 1]
  }

  lemma ReachableInv(s: State)
    requires Reachable(s)
    ensures Inv(s)
  {
    var run, moves :| Run(run, moves) && s == run[|run| - 1];
    RunInv(run, moves, |run| - 1);
  }

  lemma ReachableStep(s: State, i: nat, c: Choice)
    requires Reachable(s) && i < |s.threads|
    ensures Reachable(Step(s, i, c))
  {
    var run, moves :| Run(run, moves) && s == run[|run| - 1];
    var run', moves' := run + [Step(s, i, c)], moves + [Turn(i, c)];
    assert Run(run', moves') && run'[|run'| - 1] == Step(s, i, c);
  }

  // ---- the queue it implements ----

  /** Linking a node puts its value in; moving Head takes out the value that is returned. */
  function EffectOf(h: Shared, t: Thread): Effect {
    match t
    case Enq(CasNext(mine, seen)) =>
      if seen.node in h.next || mine.node !in h.data then Silent else Put(h.data[mine.node])
    case Deq(CasHead(_, head, _, value)) => if h.head != head then Silent else Got(value)
    case _ => Silent
  }

  lemma ContentsGrow(h: Shared, h': Shared)
    requires Shape(h) && Later(h, h') && h'.order == h.order && h'.first == h.first
    ensures Contents(h') == Contents(h)
  {
    ValuesGrow(h.data, h'.data, h.order[h.first + 1..]);
  }

  lemma LinkContents(h: Shared, at: nat, node: nat)
    requires Shape(h) && node in h.data
    ensures Contents(LinkedAfter(h, at, node)) == Contents(h) + [h.data[node]]
  {
    assert (h.order + [node])[h.first + 1..] == h.order[h.first + 1..] + [node];
  }

  lemma HeadContents(h: Shared, p: Ptr, value: nat)
    requires Shape(h) && h.first + 1 < |h.order| && h.order[h.first + 1] in h.data
    ensures Contents(h) == [h.data[h.order[h.first + 1]]] + Contents(HeadMoved(h, p, value))
  {
    assert h.order[h.first + 1..] == [h.order[h.first + 1]] + h.order[h.first + 2..];
  }

  lemma SilentOrder(h: Shared, t: Thread, c: Choice)
    requires ThreadOk(h, t) && EffectOf(h, t).Silent?
    ensures var m := MoveOf(h, t, c); m.sh.order == h.order && m.sh.first == h.first
  {
    hide SeenHead, SeenTail, Behind, NotAfter;
  }

  lemma SilentContents(h: Shared, t: Thread, c: Choice)
    requires Shape(h) && ThreadOk(h, t) && EffectOf(h, t).Silent? && Later(h, MoveOf(h, t, c).sh)
    ensures Contents(MoveOf(h, t, c).sh) == Contents(h)
  {
    SilentOrder(h, t, c);
    hide MoveOf, EffectOf, ThreadOk;
    ContentsGrow(h, MoveOf(h, t, c).sh);
  }

  lemma DequeuedContents(h: Shared, p: DeqPc)
    requires Shape(h) && DeqOk(h, p) && p.CasHead? && h.head == p.head
    ensures Contents(h) == [p.value] + Contents(DeqMove(h, p).sh)
  {
    assert NextOf(h, h.order[h.first]) == To(p.next);
    HeadContents(h, Ptr(p.next, p.tag), p.value);
  }

  /** Every step acts on the queue as its effect says: linking a node is the enqueue, moving
      Head is the dequeue and hands out the front element; every other step changes nothing. */
  lemma StepActs(s: State, i: nat, c: Choice)
    requires Inv(s) && i < |s.threads|
    ensures Shape(Step(s, i, c).sh)
    ensures Acts(Fifo, Contents(s.sh), EffectOf(s.sh, s.threads[i]), Contents(Step(s, i, c).sh))
  {
    MoverStep(s, i, c);
    var h, t := s.sh, s.threads[i];
    assert ThreadOk(h, t);
    match EffectOf(h, t)
    case Silent => SilentContents(h, t, c);
    case Put(_) => LinkContents(h, t.enq.seen.node, t.enq.mine.node);
    case Got(_) => DequeuedContents(h, t.deq);
  }

  /** What Dequeue has returned, in order, then what is in the queue, is what was linked. */
  lemma ReturnedIsPrefix(s: State)
    requires Reachable(s)
    ensures Shape(s.sh) && Linked(s.sh) == s.sh.returned + Contents(s.sh)
  {
    ReachableInv(s);
    var h := s.sh;
    assert h.order[1..] == h.order[1..h.first + 1] + h.order[h.first + 1..];
  }

  // ---- what has been linked ----

  function Puts(e: Effect): seq<nat> {
    if e.Put? then [e.value] else []
  }

  lemma LinkedSame(h: Shared, h': Shared)
    requires Shape(h) && Later(h, h') && h'.order == h.order
    ensures Linked(h') == Linked(h)
  {
    ValuesGrow(h.data, h'.data, h.order[1..]);
  }

  lemma LinkedMore(h: Shared, at: nat, node: nat)
    requires Shape(h) && node in h.data
    ensures Linked(LinkedAfter(h, at, node)) == Linked(h) + [h.data[node]]
  {
    assert (h.order + [node])[1..] == h.order[1..] + [node];
  }

  lemma NoLinkSame(h: Shared, t: Thread, c: Choice)
    requires ThreadOk(h, t) && !EffectOf(h, t).Put?
    ensures MoveOf(h, t, c).sh.order == h.order
  {
  }

  /** A step adds its value to what has been linked, in order, if it is the enqueue of one. */
  lemma StepLinks(s: State, i: nat, c: Choice)
    requires Inv(s) && i < |s.threads|
    ensures Shape(Step(s, i, c).sh)
    ensures Linked(Step(s, i, c).sh) == Linked(s.sh) + Puts(EffectOf(s.sh, s.threads[i]))
  {
    MoverStep(s, i, c);
    var h, t := s.sh, s.threads[i];
    assert ThreadOk(h, t);
    if EffectOf(h, t).Put? {
      LinkedMore(h, t.enq.seen.node, t.enq.mine.node);
    } else {
      NoLinkSame(h, t, c);
      LinkedSame(h, MoveOf(h, t, c).sh);
    }
  }
}
