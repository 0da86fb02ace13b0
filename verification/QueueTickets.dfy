/** What the tickets of LockFreeQueue promise, and exactly when Dequeue is refused. */
module QueueTickets {
  import opened Counting
  import opened Histories
  import opened LockFreeQueue
  import opened QueueInvariant
  import opened QueueTheorems
  import opened TicketSums

  /** Nobody follows a null pointer: a ticket guarantees that Head has a successor on every
      retry, until the ticket's own Head exchange. */
  lemma TicketFindsNode(s: State, i: nat)
    requires Reachable(s) && i < |s.threads|
    ensures !s.threads[i].Crashed?
    ensures s.threads[i].Deq? && !s.threads[i].deq.Restore? ==>
            NextOf(s.sh, s.sh.head.node).To? && Shape(s.sh) && Contents(s.sh) != []
  {
    ReachableInv(s);
    TotalMoved(s.threads, i, s.threads[i]);
    assert ThreadOk(s.sh, s.threads[i]);
    assert NextOf(s.sh, s.sh.order[s.sh.first]) == NextOf(s.sh, s.sh.head.node);
  }

  /** Head never passes Tail, and Tail is the last node or the one before it. */
  lemma TailNearEnd(s: State)
    requires Reachable(s)
    ensures exists f: nat, l: nat ::
              At(s.sh, s.sh.head.node, f) && At(s.sh, s.sh.tail.node, l) && f <= l && l + 2 >= |s.sh.order|
  {
    ReachableInv(s);
    assert At(s.sh, s.sh.head.node, s.sh.first) && At(s.sh, s.sh.tail.node, s.sh.last);
  }

  // ---- when is Dequeue refused? ----

  predicate Refused(s: State, i: nat, tag: nat)
    requires i < |s.threads|
  {
    Step(s, i, Dequeue(tag)).threads[i] == Deq(Restore)
  }

  lemma RefusedSize(h: Shared, a: Totals, tag: nat)
    requires Tickets(h, a)
    ensures BeginMove(h, Dequeue(tag)).t == Deq(Restore) <==> |Contents(h)| <= a.linking + a.granted + a.refused
  {
  }

  /** Exactly when Dequeue returns false: when the elements are no more than the enqueues not
      yet counted, the tickets granted and the refusals not yet taken back. */
  lemma RefusedExactly(s: State, i: nat, tag: nat)
    requires Reachable(s) && i < |s.threads| && s.threads[i].Idle?
    ensures Shape(s.sh)
    ensures Refused(s, i, tag) <==>
            |Contents(s.sh)| <= Total(s.threads).linking + Total(s.threads).granted + Total(s.threads).refused
  {
    ReachableInv(s);
    RefusedSize(s.sh, Total(s.threads), tag);
  }

  // ---- the same in terms of the elements ----

  // Nodes that are linked while their Enqueue has not returned.
  ghost function UnfinishedNodes(ts: seq<Thread>): set<nat> {
    if ts == [] then {} else Unfinished(ts[0]) + UnfinishedNodes(ts[1..])
  }

  ghost function InQueue(h: Shared): set<nat>
    requires h.first < |h.order|
  {
    Elements(h.order[h.first + 1..])
  }

  /** The elements in the queue whose Enqueue has returned. */
  ghost function Finished(s: State): set<nat>
    requires s.sh.first < |s.sh.order|
  {
    InQueue(s.sh) - UnfinishedNodes(s.threads)
  }

  /** The elements that have left the queue although their Enqueue has not returned. */
  ghost function Gone(s: State): set<nat>
    requires s.sh.first < |s.sh.order|
  {
    UnfinishedNodes(s.threads) - InQueue(s.sh)
  }

  // Node n is linked and the Enqueue of thread j that linked it has not returned.
  ghost predicate Pending(ts: seq<Thread>, n: nat, j: nat) {
    j < |ts| && n in Unfinished(ts[j])
  }

  lemma {:induction false} InUnfinished(ts: seq<Thread>, n: nat)
    ensures n in UnfinishedNodes(ts) <==> exists j: nat :: Pending(ts, n, j)
  {
    if ts != [] {
      InUnfinished(ts[1..], n);
      if n in UnfinishedNodes(ts[1..]) {
        var j: nat :| Pending(ts[1..], n, j);
        assert Pending(ts, n, j + 1);
      } else if n in Unfinished(ts[0]) {
        assert Pending(ts, n, 0);
      }
      forall j: nat | Pending(ts, n, j) ensures n in UnfinishedNodes(ts) {
        assert j > 0 ==> Pending(ts[1..], n, j - 1);
      }
    }
  }

  lemma {:induction false} UnfinishedCount(ts: seq<Thread>)
    requires forall j: nat, k: nat :: j < k < |ts| ==> Apart(ts[j], ts[k])
    ensures |UnfinishedNodes(ts)| == Total(ts).linking
  {
    if ts == [] {
      assert Held(ts) == [];
    } else {
      UnfinishedCount(ts[1..]);
      assert Held(ts)[1..] == Held(ts[1..]);
      forall n | n in Unfinished(ts[0]) ensures n !in UnfinishedNodes(ts[1..]) {
        InUnfinished(ts[1..], n);
        forall j: nat | j < |ts[1..]| ensures n !in Unfinished(ts[1..][j]) {
          assert Apart(ts[0], ts[j + 1]);
        }
      }
      assert |Unfinished(ts[0])| == Holds(ts[0]).linking;
    }
  }

  /** An element counts as gone exactly if it was dequeued before its Enqueue returned. */
  lemma GoneMeansDequeued(s: State, n: nat)
    requires Reachable(s)
    ensures Shape(s.sh)
    ensures n in Gone(s) <==> n in s.sh.order[..s.sh.first + 1] && exists j: nat :: Pending(s.threads, n, j)
  {
    ReachableInv(s);
    InUnfinished(s.threads, n);
    var (front, back) := (s.sh.order[..s.sh.first + 1], s.sh.order[s.sh.first + 1..]);
    assert s.sh.order == front + back;
    OneSide(s.sh.order, s.sh.first + 1, n);
    assert forall j: nat :: Pending(s.threads, n, j) ==> ThreadOk(s.sh, s.threads[j]);
  }

  lemma OneSide(s: seq<nat>, k: nat, n: nat)
    requires NoDup(s) && k <= |s|
    ensures !(n in s[..k] && n in s[k..])
  {
  }

  lemma Difference(a: set<nat>, b: set<nat>)
    ensures |a| - |b| == |a - b| - |b - a|
  {
    assert a == (a - b) + a * b && b == (b - a) + a * b;
  }

  /** Dequeue is refused if and only if the finished elements in the queue are no more than the
      gone ones, the tickets granted and the refusals not yet taken back. */
  lemma RefusedByElements(s: State, i: nat, tag: nat)
    requires Reachable(s) && i < |s.threads| && s.threads[i].Idle?
    ensures Shape(s.sh)
    ensures Refused(s, i, tag) <==>
            |Finished(s)| <= |Gone(s)| + Total(s.threads).granted + Total(s.threads).refused
  {
    RefusedExactly(s, i, tag);
    ReachableInv(s);
    UnfinishedCount(s.threads);
    ElementsNoDup(s.sh.order[s.sh.first + 1..]);
    Difference(InQueue(s.sh), UnfinishedNodes(s.threads));
  }

  lemma NoTickets(ts: seq<Thread>)
    requires forall t :: t in ts ==> !t.Deq?
    ensures Total(ts).granted == 0 && Total(ts).refused == 0
  {
    NoTicketsSum(Held(ts));
  }

  lemma {:induction false} NoTicketsSum(xs: seq<Totals>)
    requires forall k: nat :: k < |xs| ==> xs[k].granted == 0 && xs[k].refused == 0
    ensures Sum(xs).granted == 0 && Sum(xs).refused == 0
  {
    if xs != [] {
      NoTicketsSum(xs[1..]);
    }
  }

  /** With no other Dequeue in progress it is refused if and only if the finished elements are no
      more than the gone ones. So a finished element can be missed only if some element was
      dequeued before its own Enqueue returned. */
  lemma SoleConsumerRefused(s: State, i: nat, tag: nat)
    requires Reachable(s) && i < |s.threads| && s.threads[i].Idle?
    requires forall j: nat :: j < |s.threads| ==> !s.threads[j].Deq?
    ensures Shape(s.sh)
    ensures Refused(s, i, tag) <==> |Finished(s)| <= |Gone(s)|
    ensures Refused(s, i, tag) && Finished(s) != {} <==> 1 <= |Finished(s)| <= |Gone(s)|
    ensures Gone(s) == {} ==> (Refused(s, i, tag) <==> Finished(s) == {})
  {
    RefusedByElements(s, i, tag);
    NoTickets(s.threads);
  }

  /** With no other call in progress Dequeue is refused if and only if the queue is empty. */
  lemma AloneRefusedOnlyIfEmpty(s: State, i: nat, tag: nat)
    requires Reachable(s) && i < |s.threads|
    requires forall j: nat :: j < |s.threads| ==> s.threads[j].Idle?
    ensures Shape(s.sh)
    ensures Refused(s, i, tag) <==> Contents(s.sh) == []
  {
    hide Reachable, Shape, Sum, Refused;
    RefusedExactly(s, i, tag);
    SumNothing(Held(s.threads));
  }
}
