/** Two runs in which Dequeue returns false although an element is in the queue whose Enqueue has
    returned. In the first, another consumer's refused ticket still weighs on Size; in the second
    the consumer is the only one, and an element was dequeued before its Enqueue returned. */
module QueueRefusal {
  import opened Counting
  import opened Histories
  import opened LockFreeQueue
  import opened QueueInvariant
  import opened QueueTheorems
  import opened QueueTickets

  lemma Reaches(s: State, i: nat, c: Choice, s': State)
    requires Reachable(s) && i < |s.threads| && s' == Step(s, i, c)
    ensures Reachable(s')
  {
    ReachableStep(s, i, c);
  }

  const DUMMY := Ptr(0, 0)
  const FIRST := Ptr(1, 5)
  const SECOND := Ptr(2, 6)
  const NO_NODES := Shared(DUMMY, DUMMY, 0, map[], map[0 := 0], 1, [0], 0, 0, [])
  const ONE_NODE := NO_NODES.(data := map[0 := 0, 1 := 7], limit := 2)

  lemma StartReachable(s: State)
    requires Start(s)
    ensures Reachable(s)
  {
    assert Run([s], []) && [s][0] == s;
  }

  // ---- another consumer's refusal ----

  function Three(h: Shared, t: Thread, u: Thread, v: Thread): State {
    State(h, [t, u, v])
  }

  // Thread `u` enqueues 7 on the empty queue, up to the exchange on Next.
  lemma ReadyToLink(size: int, t: Thread)
    requires Reachable(Three(ONE_NODE.(size := size), t, Enq(ReadTail(FIRST)), Idle))
    ensures Reachable(Three(ONE_NODE.(size := size), t, Enq(CasNext(FIRST, DUMMY)), Idle))
  {
    var h := ONE_NODE.(size := size);
    var s0 := Three(h, t, Enq(ReadTail(FIRST)), Idle);
    var s1 := Three(h, t, Enq(RereadTail(FIRST, DUMMY)), Idle);
    Reaches(s0, 1, Go, s1);
    var s2 := Three(h, t, Enq(ReadNext(FIRST, DUMMY, 0)), Idle);
    Reaches(s1, 1, Go, s2);
    var s3 := Three(h, t, Enq(CheckTail(FIRST, DUMMY, Null)), Idle);
    Reaches(s2, 1, Go, s3);
    Reaches(s3, 1, Go, Three(h, t, Enq(CasNext(FIRST, DUMMY)), Idle));
  }

  const LINKED_7 := ONE_NODE.(tail := FIRST, next := map[0 := 1], order := [0, 1], last := 1)

  lemma LinksFirst(size: int, t: Thread)
    requires Reachable(Three(ONE_NODE.(size := size), t, Enq(ReadTail(FIRST)), Idle))
    ensures Reachable(Three(LINKED_7.(size := size), t, Enq(RaiseSize(FIRST)), Idle))
  {
    ReadyToLink(size, t);
    var s0 := Three(ONE_NODE.(size := size), t, Enq(CasNext(FIRST, DUMMY)), Idle);
    var s1 := Three(ONE_NODE.(size := size, next := map[0 := 1], order := [0, 1]), t, Enq(CasTail(FIRST, DUMMY)), Idle);
    Reaches(s0, 1, Go, s1);
    Reaches(s1, 1, Go, Three(LINKED_7.(size := size), t, Enq(RaiseSize(FIRST)), Idle));
  }

  lemma SevenAfterRefusal()
    ensures Reachable(Three(LINKED_7, Deq(Restore), Idle, Idle))
  {
    var s0 := Three(NO_NODES, Idle, Idle, Idle);
    StartReachable(s0);
    var s1 := Three(NO_NODES.(size := -1), Deq(Restore), Idle, Idle);
    Reaches(s0, 0, Dequeue(3), s1);
    Reaches(s1, 1, Enqueue(7, 5), Three(ONE_NODE.(size := -1), Deq(Restore), Enq(ReadTail(FIRST)), Idle));
    LinksFirst(-1, Deq(Restore));
    var s2 := Three(LINKED_7.(size := -1), Deq(Restore), Enq(RaiseSize(FIRST)), Idle);
    Reaches(s2, 1, Go, Three(LINKED_7, Deq(Restore), Idle, Idle));
  }

  /** The queue holds 7, no Enqueue is in progress, and Dequeue is refused. */
  lemma RefusedThoughFilled()
    ensures exists s: State, i: nat, tag: nat ::
      && Reachable(s) && i < |s.threads| && s.threads[i].Idle?
      && s.sh.first < |s.sh.order| && Contents(s.sh) == [7]
      && (forall j: nat :: j < |s.threads| ==> !s.threads[j].Enq?)
      && Refused(s, i, tag)
  {
    SevenAfterRefusal();
    var s3 := Three(LINKED_7, Deq(Restore), Idle, Idle);
    assert s3.sh.order[1..] == [1];
    assert Refused(s3, 2, 4);
  }

  // ---- the only consumer ----

  const TWO_NODES := LINKED_7.(data := map[0 := 0, 1 := 7, 2 := 8], limit := 3)
  const BOTH := TWO_NODES.(tail := SECOND, next := map[0 := 1, 1 := 2], order := [0, 1, 2], last := 2)

  // The states of the second run: thread 1 has linked 7 and not raised Size.
  function Stalled(h: Shared, t: Thread, v: Thread): State {
    Three(h, t, Enq(RaiseSize(FIRST)), v)
  }

  lemma SevenLinked()
    ensures Reachable(Stalled(LINKED_7, Idle, Idle))
  {
    var s0 := Three(NO_NODES, Idle, Idle, Idle);
    StartReachable(s0);
    Reaches(s0, 1, Enqueue(7, 5), Three(ONE_NODE, Idle, Enq(ReadTail(FIRST)), Idle));
    LinksFirst(0, Idle);
  }

  // Thread 0 enqueues 8, up to the exchange on Next.
  lemma EightStarts()
    ensures Reachable(Stalled(TWO_NODES, Enq(CasNext(SECOND, FIRST)), Idle))
  {
    SevenLinked();
    var s1 := Stalled(TWO_NODES, Enq(ReadTail(SECOND)), Idle);
    Reaches(Stalled(LINKED_7, Idle, Idle), 0, Enqueue(8, 6), s1);
    var s2 := Stalled(TWO_NODES, Enq(RereadTail(SECOND, FIRST)), Idle);
    Reaches(s1, 0, Go, s2);
    var s3 := Stalled(TWO_NODES, Enq(ReadNext(SECOND, FIRST, 1)), Idle);
    Reaches(s2, 0, Go, s3);
    var s4 := Stalled(TWO_NODES, Enq(CheckTail(SECOND, FIRST, Null)), Idle);
    Reaches(s3, 0, Go, s4);
    Reaches(s4, 0, Go, Stalled(TWO_NODES, Enq(CasNext(SECOND, FIRST)), Idle));
  }

  // And returns.
  lemma EightEnqueued()
    ensures Reachable(Stalled(BOTH.(size := 1), Idle, Idle))
  {
    EightStarts();
    var s5 := Stalled(TWO_NODES, Enq(CasNext(SECOND, FIRST)), Idle);
    var s6 := Stalled(BOTH.(tail := FIRST, last := 1), Enq(CasTail(SECOND, FIRST)), Idle);
    Reaches(s5, 0, Go, s6);
    var s7 := Stalled(BOTH, Enq(RaiseSize(SECOND)), Idle);
    Reaches(s6, 0, Go, s7);
    Reaches(s7, 0, Go, Stalled(BOTH.(size := 1), Idle, Idle));
  }

  const ONE_LEFT := BOTH.(head := Ptr(1, 9), first := 1, returned := [7])

  // Thread 2 dequeues 7.
  lemma SevenDequeued()
    ensures Reachable(Stalled(ONE_LEFT, Idle, Idle))
  {
    EightEnqueued();
    var s1 := Stalled(BOTH, Idle, Deq(ReadHead(9)));
    Reaches(Stalled(BOTH.(size := 1), Idle, Idle), 2, Dequeue(9), s1);
    var s2 := Stalled(BOTH, Idle, Deq(ReadTailToo(9, DUMMY)));
    Reaches(s1, 2, Go, s2);
    var s3 := Stalled(BOTH, Idle, Deq(ReadHeadNext(9, DUMMY, SECOND)));
    Reaches(s2, 2, Go, s3);
    var s4 := Stalled(BOTH, Idle, Deq(CheckHead(9, DUMMY, SECOND, To(1))));
    Reaches(s3, 2, Go, s4);
    var s5 := Stalled(BOTH, Idle, Deq(ReadData(9, DUMMY, 1)));
    Reaches(s4, 2, Go, s5);
    var s6 := Stalled(BOTH, Idle, Deq(CasHead(9, DUMMY, 1, 7)));
    Reaches(s5, 2, Go, s6);
    Reaches(s6, 2, Go, Stalled(ONE_LEFT, Idle, Idle));
  }

  /** The queue holds 8, whose Enqueue has returned; there is no other Dequeue; and Dequeue is
      refused, because the Enqueue of 7, which is gone, has not raised Size. */
  lemma SoleConsumerMisses()
    ensures exists s: State, i: nat, tag: nat ::
      && Reachable(s) && i < |s.threads| && s.threads[i].Idle?
      && (forall j: nat :: j < |s.threads| ==> !s.threads[j].Deq?)
      && s.sh.first < |s.sh.order| && Contents(s.sh) == [8] && |Finished(s)| == 1
      && Refused(s, i, tag)
  {
    SevenDequeued();
    var s := Stalled(ONE_LEFT, Idle, Idle);
    assert s.sh.order[2..] == [2];
    assert Contents(s.sh) == [8];
    assert s.threads[1..][1..] == [Idle];
    assert UnfinishedNodes(s.threads) == {1};
    assert Finished(s) == {2};
    assert Refused(s, 2, 4);
  }
}
