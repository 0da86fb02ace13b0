/** Reclamation of one LockFreeQueue node through RefCnt and DeleteFlag, over its many lives.
    Threads that touch a node are anonymous; the state says how many stand at each point, and
    since when. A thread may take a count at any time: it may have read Tail long ago. */
module QueueReclaim {
  datatype Place = InPool | Private | Linked | Unlinked

  /** Times number the events of the run. A holder is its IncrementRef, a dequeuer its unlink, an
      asker and the winner it may become are the DecrementRef that gave 0. */
  datatype Node = Node(
    place: Place,
    refCnt: int, flag: bool,   // RefCnt, DeleteFlag
    taken: nat,                // enqueuers before their IncrementRef
    counted: nat,              // enqueuers after it, the node not yet linked
    holding: seq<nat>,         // threads between OldTail->IncrementRef and DecrementRef
    flagging: seq<nat>,        // dequeuers that unlinked the node, before they set DeleteFlag
    dropping: seq<nat>,        // dequeuers before their DecrementRef
    asking: seq<nat>,          // threads whose DecrementRef gave 0, before the exchange
    freeing: seq<nat>,         // threads whose exchange gave 1, before FreeNode
    unlinks: nat, frees: nat, now: nat)

  /** What happens next; k picks one of the threads at that point. */
  datatype Event =
    | Alloc | CountNew | Link | Hold | Unhold(k: nat)
    | Unlink | SetFlag(k: nat) | Drop(k: nat) | Ask(k: nat) | Free(k: nat)

  // As the pool makes it.
  predicate Fresh(n: Node) {
    && n.place.InPool? && n.refCnt == 0 && !n.flag
    && n.taken == n.counted == n.unlinks == n.frees == n.now == 0
    && |n.holding| == |n.flagging| == |n.dropping| == |n.asking| == |n.freeing| == 0
  }

  predicate Enabled(n: Node, e: Event) {
    match e
    case Alloc => n.place == InPool
    case CountNew => n.taken > 0
    case Link => n.counted > 0
    case Hold => true
    case Unhold(k) => k < |n.holding|
    case Unlink => n.place == Linked
    case SetFlag(k) => k < |n.flagging|
    case Drop(k) => k < |n.dropping|
    case Ask(k) => k < |n.asking|
    case Free(k) => k < |n.freeing|
  }

  function Without(s: seq<nat>, k: nat): (r: seq<nat>)
    requires k < |s|
    ensures |r| == |s| - 1 && forall t :: t in r ==> t in s
  {
    s[..k] + s[k + 1..]
  }

  function Decrement(n: Node): Node {
    n.(refCnt := n.refCnt - 1, asking := if n.refCnt - 1 == 0 then n.asking + [n.now] else n.asking)
  }

  function Change(n: Node, e: Event): Node
    requires Enabled(n, e)
  {
    match e
    case Alloc => n.(place := Private, taken := n.taken + 1)
    case CountNew => n.(refCnt := n.refCnt + 1, taken := n.taken - 1, counted := n.counted + 1)
    case Link => n.(place := Linked, counted := n.counted - 1)
    case Hold => n.(refCnt := n.refCnt + 1, holding := n.holding + [n.now])
    case Unhold(k) => Decrement(n.(holding := Without(n.holding, k)))
    case Unlink => n.(place := Unlinked, flagging := n.flagging + [n.now], unlinks := n.unlinks + 1)
    case SetFlag(k) =>
      n.(flag := true, flagging := Without(n.flagging, k), dropping := n.dropping + [n.flagging[k]])
    case Drop(k) => Decrement(n.(dropping := Without(n.dropping, k)))
    case Ask(k) =>
      n.(flag := false, asking := Without(n.asking, k),
         freeing := if n.flag then n.freeing + [n.asking[k]] else n.freeing)
    case Free(k) => n.(place := InPool, freeing := Without(n.freeing, k), frees := n.frees + 1)
  }

  function Step(n: Node, e: Event): Node
    requires Enabled(n, e)
  {
    Change(n, e).(now := n.now + 1)
  }

  /** Any interleaving: run[k + 1] comes from run[k] by events[k]. */
  ghost predicate Run(run: seq<Node>, events: seq<Event>) {
    && |run| == |events| + 1
    && Fresh(run[0])
    && forall k: nat :: k < |events| ==> Enabled(run[k], events[k]) && run[k + 1] == Step(run[k], events[k])
  }

  ghost predicate Reachable(n: Node) {
    exists run: seq<Node>, events: seq<Event> :: Run(run, events) && n == run[|run| - 1]
  }

  // ---- what every step keeps ----

  function Bit(b: bool): nat { if b then 1 else 0 }

  /** RefCnt is the holders, the dequeuers that have not dropped, and 1 from the enqueuer's count
      until the node is unlinked. An unlinked node waits for exactly one of: its flag to be set,
      the flag to be taken, FreeNode. A set flag with RefCnt 0 has someone about to ask. */
  ghost predicate Balance(n: Node) {
    && n.refCnt == |n.holding| + n.counted + Bit(n.place == Linked) + |n.flagging| + |n.dropping|
    && n.taken + n.counted == Bit(n.place == Private)
    && |n.flagging| + Bit(n.flag) + |n.freeing| == Bit(n.place == Unlinked)
    && n.frees + Bit(n.place == Unlinked) == n.unlinks
    && (n.flag && n.refCnt == 0 ==> |n.asking| > 0)
  }

  // A count taken at t stands, or the dequeuer that unlinked the node at t has not dropped.
  ghost predicate Stands(n: Node, t: int) {
    t in n.holding || t in n.flagging || t in n.dropping
  }

  // The decrement to 0 at a is still being acted on.
  ghost predicate Acted(n: Node, a: int) {
    a in n.asking || a in n.freeing
  }

  /** Every count that stands was taken after every decrement to 0 that is still being acted on. */
  ghost predicate Order(n: Node) {
    && (forall a, t :: Acted(n, a) && Stands(n, t) ==> a < t)
    && (forall t :: Stands(n, t) ==> t < n.now)
    && (forall a :: Acted(n, a) ==> a < n.now)
  }

  ghost predicate Inv(n: Node) {
    Balance(n) && Order(n)
  }

  lemma StepBalance(n: Node, e: Event)
    requires Balance(n) && Enabled(n, e)
    ensures Balance(Step(n, e))
  {
  }

  lemma StepOrder(n: Node, e: Event)
    requires Balance(n) && Order(n) && Enabled(n, e)
    ensures Order(Step(n, e))
  {
    hide Step, Balance, Enabled;
    var m := Step(n, e);
    StepBalance(n, e);
    StepTokens(n, e);
    ZeroStands(m);
    forall t | Stands(m, t)
      ensures Stands(n, t) || t == n.now
    {
    }
    forall a | Acted(m, a)
      ensures Acted(n, a) || (a == n.now && m.refCnt == 0)
    {
    }
  }

  lemma ZeroStands(n: Node)
    requires Balance(n)
    ensures n.refCnt == 0 ==> forall t :: !Stands(n, t)
  {
  }

  // A token of the next state is one of this state or the event that happens now.
  lemma StepTokens(n: Node, e: Event)
    requires Enabled(n, e)
    ensures var m := Step(n, e);
      && m.now == n.now + 1
      && (forall t :: t in m.holding ==> t in n.holding || (t == n.now && e == Hold))
      && (forall t :: t in m.flagging || t in m.dropping ==>
            t in n.flagging || t in n.dropping || (t == n.now && e == Unlink))
      && (forall a :: a in m.asking || a in m.freeing ==>
            a in n.asking || a in n.freeing || (a == n.now && (e.Unhold? || e.Drop?) && m.refCnt == 0))
  {
  }

  lemma FreshInv(n: Node)
    requires Fresh(n)
    ensures Inv(n)
  {
  }

  lemma {:induction false} RunInv(run: seq<Node>, events: seq<Event>, k: nat)
    requires Run(run, events) && k < |run|
    ensures Inv(run[k]) && run[k].now == k
  {
    hide Balance, Order, Change, Enabled;
    if k == 0 {
      FreshInv(run[0]);
    } else {
      RunInv(run, events, k - 1);
      StepBalance(run[k - 1], events[k - 1]);
      StepOrder(run[k - 1], events[k - 1]);
      assert run[k - 1 + 1] == run[k];
    }
  }

  lemma ReachableInv(n: Node)
    requires Reachable(n)
    ensures Inv(n)
  {
    var run, events :| Run(run, events) && n == run[|run| - 1];
    RunInv(run, events, |run| - 1);
  }

  /** FreeNode runs at most once for each time Dequeue unlinks the node, and only on a node that
      is unlinked: never on one in the queue, in an enqueuer's hands or already in the pool. */
  lemma FreedOncePerUnlink(n: Node, e: Event)
    requires Reachable(n) && Enabled(n, e)
    ensures n.frees <= n.unlinks <= n.frees + 1
    ensures Step(n, e).frees == n.frees + 1 ==> n.place == Unlinked && n.unlinks == n.frees + 1
    ensures |n.freeing| <= 1
  {
    ReachableInv(n);
  }

  ghost predicate Quiet(n: Node) {
    && n.taken == 0 && n.counted == 0
    && |n.holding| == |n.flagging| == |n.dropping| == |n.asking| == |n.freeing| == 0
  }

  /** No node is lost: once nobody is at work on it, it was freed as often as it was unlinked,
      and it is in the pool or in the queue, where the queue holds the one count. */
  lemma QuietMeansFreed(n: Node)
    requires Reachable(n) && Quiet(n)
    ensures n.frees == n.unlinks && (n.place == InPool || n.place == Linked)
    ensures !n.flag && n.refCnt == Bit(n.place == Linked)
  {
    ReachableInv(n);
  }
}
