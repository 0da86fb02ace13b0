/** Exactly when FreeNode gets a node that nobody holds a count on. */
module QueueFrees {
  import opened QueueReclaim

  // Nobody, the queue included, holds a count on the node.
  ghost predicate Unheld(n: Node) {
    && n.holding == [] && n.flagging == [] && n.dropping == []
    && n.counted == 0 && n.place != Linked
  }

  /** Who can still count on the node when the exchange wins it: only threads that took their count,
      and dequeuers that unlinked the node, after the winner's own decrement to 0. Nobody does if
      and only if RefCnt is 0 at the exchange. */
  lemma WhoIsLeft(n: Node, k: nat)
    requires Reachable(n) && Enabled(n, Ask(k)) && n.flag
    ensures n.place == Unlinked && n.counted == 0 && n.flagging == []
    ensures forall t :: Stands(n, t) ==> n.asking[k] < t
    ensures Unheld(n) <==> n.refCnt == 0
  {
    ReachableInv(n);
    assert Acted(n, n.asking[k]);
  }

  // ---- exactly when it is not, over runs ----

  // The DecrementRef of move a gave 0.
  ghost predicate ZeroAt(run: seq<Node>, events: seq<Event>, a: nat)
    requires Run(run, events)
  {
    a < |events| && (events[a].Unhold? || events[a].Drop?) && run[a + 1].refCnt == 0
  }

  // Every token is the event it says.
  ghost predicate TokensTell(run: seq<Node>, events: seq<Event>, m: nat)
    requires Run(run, events) && m < |run|
  {
    var n := run[m];
    && (forall t :: t in n.holding ==> t < m && events[t] == Hold)
    && (forall t :: t in n.flagging || t in n.dropping ==> t < m && events[t] == Unlink)
    && (forall a :: a in n.asking || a in n.freeing ==> a < m && ZeroAt(run, events, a))
  }

  lemma {:induction false} RunTokens(run: seq<Node>, events: seq<Event>, m: nat)
    requires Run(run, events) && m < |run|
    ensures TokensTell(run, events, m)
  {
    hide Balance, Order, Change, Enabled;
    if m > 0 {
      RunTokens(run, events, m - 1);
      RunInv(run, events, m - 1);
      StepTokens(run[m - 1], events[m - 1]);
      assert run[m - 1 + 1] == run[m];
    }
  }

  // Every count taken, and every dequeuer that started, between moves d and m has been dropped
  // again by move m.
  ghost predicate DroppedAgain(run: seq<Node>, events: seq<Event>, d: nat, m: nat)
    requires Run(run, events) && m < |run|
  {
    forall t: nat :: d < t < m && t < |events| ==>
      (events[t] == Hold ==> t !in run[m].holding) && (events[t] == Unlink ==> t !in run[m].dropping)
  }

  lemma NoneOf(s: seq<nat>)
    ensures s == [] <==> forall t :: t !in s
  {
    if s != [] {
      assert s[0] in s;
    }
  }

  /** Exactly when FreeNode gets a node that nobody holds: when every count taken since the winner's
      decrement to 0 has been dropped again; equivalently, when RefCnt is 0 at that moment. */
  lemma FreeUnheldExactly(run: seq<Node>, events: seq<Event>, m: nat)
    requires Run(run, events) && m < |events| && events[m].Free?
    ensures Enabled(run[m], events[m])
    ensures var d := run[m].freeing[events[m].k];
      && d < m && ZeroAt(run, events, d)
      && (Unheld(run[m]) <==> DroppedAgain(run, events, d, m))
    ensures Unheld(run[m]) <==> run[m].refCnt == 0
  {
    hide Change;
    RunInv(run, events, m);
    RunTokens(run, events, m);
    var n, d := run[m], run[m].freeing[events[m].k];
    assert Acted(n, d);
    assert forall t :: t in n.holding || t in n.dropping ==> Stands(n, t);
    NoneOf(n.holding);
    NoneOf(n.dropping);
  }

  /** A run never frees a held node if and only if at each of its FreeNodes every count taken since
      the winner's decrement to 0 has been dropped again. */
  lemma RunFreesUnheldExactly(run: seq<Node>, events: seq<Event>)
    requires Run(run, events)
    ensures (forall m: nat :: m < |events| && events[m].Free? ==> Unheld(run[m])) <==>
            (forall m: nat :: m < |events| && events[m].Free? ==>
               events[m].k < |run[m].freeing| && DroppedAgain(run, events, run[m].freeing[events[m].k], m))
  {
    forall m: nat | m < |events| && events[m].Free?
      ensures events[m].k < |run[m].freeing|
      ensures Unheld(run[m]) <==> DroppedAgain(run, events, run[m].freeing[events[m].k], m)
    {
      FreeUnheldExactly(run, events, m);
    }
  }

  // ---- the decrement and the exchange as one step ----

  function FusedStep(n: Node, e: Event): Node
    requires Enabled(n, e)
  {
    var m := Step(n, e);
    if (e.Unhold? || e.Drop?) && |m.asking| > |n.asking| then Step(m, Ask(|m.asking| - 1)) else m
  }

  ghost predicate FusedRun(run: seq<Node>, events: seq<Event>) {
    && |run| == |events| + 1
    && Fresh(run[0])
    && forall k: nat :: k < |events| ==> Enabled(run[k], events[k]) && run[k + 1] == FusedStep(run[k], events[k])
  }

  /** Were they one step, the exchange would win only a node nobody holds a count on. */
  lemma {:induction false} FusedFreesUnheld(run: seq<Node>, events: seq<Event>, k: nat)
    requires FusedRun(run, events) && k < |events|
    ensures Inv(run[k]) && run[k].asking == []
    ensures |run[k + 1].freeing| > |run[k].freeing| ==> run[k + 1].refCnt == 0 && Unheld(run[k + 1])
  {
    hide Balance, Order, FusedStep, Enabled, Unheld;
    FreshInv(run[0]);
    if k > 0 {
      FusedFreesUnheld(run, events, k - 1);
      FusedKeeps(run[k - 1], events[k - 1]);
      assert run[k - 1 + 1] == run[k];
    }
    FusedKeeps(run[k], events[k]);
  }

  lemma AskersOfOneStep(n: Node, e: Event)
    requires Enabled(n, e) && n.asking == []
    ensures var m := Step(n, e);
      && |m.freeing| <= |n.freeing|
      && (m.asking == [] || ((e.Unhold? || e.Drop?) && m.asking == [n.now] && m.refCnt == 0))
  {
  }

  lemma WinsUnheld(m: Node)
    requires Balance(m) && |m.asking| == 1 && m.refCnt == 0
    ensures var r := Step(m, Ask(0)); r.asking == [] && r.refCnt == 0 && Unheld(r)
  {
  }

  lemma FusedKeeps(n: Node, e: Event)
    requires Inv(n) && n.asking == [] && Enabled(n, e)
    ensures var m := FusedStep(n, e);
      Inv(m) && m.asking == [] && (|m.freeing| > |n.freeing| ==> m.refCnt == 0 && Unheld(m))
  {
    hide Balance, Order, Change, Unheld;
    StepBalance(n, e);
    StepOrder(n, e);
    AskersOfOneStep(n, e);
    var m := Step(n, e);
    if m.asking != [] {
      StepBalance(m, Ask(0));
      StepOrder(m, Ask(0));
      WinsUnheld(m);
    }
  }
}
