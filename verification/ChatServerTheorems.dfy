/** In every run of slots and JobQueue together the content thread gets each session's callbacks in
    the order in which the session made them. */
module ChatServerTheorems {
  import opened ChatJobs
  import opened ChatQueue
  import opened ChatServerRun
  import opened ChatView
  import Queue = LockFreeQueue
  import QueueHistory
  import QueueInvariant
  import QueueSteps
  import QueueTheorems
  import opened Session
  import opened SessionTheorems

  // ---- what every step keeps ----

  // Queue thread g enqueues a job of the slot whose thread made the callback.
  ghost predicate CallOk(job: nat -> Job, s: Server, g: nat)
    requires g in s.calls
  {
    var (b, i) := s.calls[g];
    && g < |s.queue.threads| && s.queue.threads[g].Enq? && s.queue.threads[g].enq.mine.node in s.queue.sh.data
    && b < |s.slots| && i < |s.slots[b].threads| && AfterCallback(s.slots[b].threads[i].pc)
    && Owns(s.owner, b, job(s.queue.sh.data[s.queue.threads[g].enq.mine.node]).id)
  }

  ghost predicate SlotsOk(s: Server) {
    forall b: nat :: b < |s.slots| ==> Reachable(s.slots[b]) && Named(s.slots[b], s.owner, b)
  }

  ghost predicate CallsOk(job: nat -> Job, s: Server) {
    && (forall g :: g in s.calls ==> CallOk(job, s, g))
    && (forall g: nat :: g < |s.queue.threads| && g !in s.calls ==> !s.queue.threads[g].Enq?)
  }

  lemma SlotsKept(job: nat -> Job, s: Server, a: Act)
    requires SlotsOk(s) && Enabled(job, s, a)
    ensures SlotsOk(After(job, s, a))
  {
    hide Reachable, Named, Step;
    if !a.OnQueue? {
      var b, i, c := a.slot, a.who, if a.OnSlot? then a.what else Go;
      var s' := After(job, s, a);
      forall d: nat | d < |s.slots| ensures Named(s.slots[d], s'.owner, d) {
        OtherOwners(s.slots[d], s.owner, d, s'.owner);
      }
      if a.Calls? {
        CallbackNamed(s.slots[b], i);
      }
      ReachableStep(s.slots[b], i, c);
      SlotNames(s.slots[b], i, c, s'.owner, b);
    }
  }

  lemma QueueThread(q: Queue.State, g: nat, c: Queue.Choice, j: nat)
    requires QueueInvariant.Inv(q) && g < |q.threads| && j < |q.threads|
    requires q.threads[g].Idle? ==> !c.Enqueue?
    ensures var q' := Queue.Step(q, g, c);
      && (j != g ==> q'.threads[j] == q.threads[j])
      && (!q.threads[j].Enq? ==> !q'.threads[j].Enq?)
      && (q.threads[j].Enq? && !q'.threads[j].Idle? ==>
            && q'.threads[j].Enq? && q'.threads[j].enq.mine == q.threads[j].enq.mine
            && SameData(q, q', q.threads[j].enq.mine.node))
  {
    hide QueueInvariant.Shape, QueueInvariant.Tickets, QueueInvariant.Total;
    QueueTheorems.StepKeeps(q, g, c);
    assert QueueInvariant.ThreadOk(q.sh, q.threads[j]);
    assert q.threads[j].Enq? ==> q.threads[j].enq.mine.node in QueueInvariant.Mine(q.threads[j]);
  }

  ghost predicate SameData(q: Queue.State, q': Queue.State, n: nat) {
    n in q.sh.data && n in q'.sh.data && q'.sh.data[n] == q.sh.data[n]
  }

  lemma BeginsEnqueue(q: Queue.State, g: nat, v: nat, tag: nat)
    requires QueueInvariant.Inv(q) && g < |q.threads| && q.threads[g].Idle?
    ensures var q' := Queue.Step(q, g, Queue.Enqueue(v, tag));
      && q'.threads[g].Enq? && q'.threads[g].enq.mine.node in q'.sh.data
      && q'.sh.data[q'.threads[g].enq.mine.node] == v
      && forall j: nat :: j < |q.threads| && j != g ==>
           q'.threads[j] == q.threads[j] &&
           (q.threads[j].Enq? ==> SameData(q, q', q.threads[j].enq.mine.node))
  {
    hide QueueInvariant.Shape, QueueInvariant.Tickets, QueueInvariant.Total;
    QueueTheorems.StepKeeps(q, g, Queue.Enqueue(v, tag));
    forall j: nat | j < |q.threads| && q.threads[j].Enq?
      ensures q.threads[j].enq.mine.node in q.sh.data
    {
      assert QueueInvariant.ThreadOk(q.sh, q.threads[j]);
      assert q.threads[j].enq.mine.node in QueueInvariant.Mine(q.threads[j]);
    }
  }

  lemma CallsOnSlot(job: nat -> Job, s: Server, b: nat, i: nat, c: Choice)
    requires CallsOk(job, s) && Enabled(job, s, OnSlot(b, i, c))
    ensures CallsOk(job, After(job, s, OnSlot(b, i, c)))
  {
    hide MoveOf, AfterCallback;
    var s' := After(job, s, OnSlot(b, i, c));
    forall g | g in s'.calls ensures CallOk(job, s', g) {
      assert CallOk(job, s, g);
      assert s.calls[g] != (b, i);
    }
  }

  lemma CallsOnCall(job: nat -> Job, s: Server, a: Act)
    requires CallsOk(job, s) && SlotsOk(s) && QueueInvariant.Inv(s.queue) && Enabled(job, s, a) && a.Calls?
    ensures CallsOk(job, After(job, s, a))
  {
    hide MoveOf, Queue.Step, QueueInvariant.Inv, Reachable, AfterCallback;
    var s' := After(job, s, a);
    BeginsEnqueue(s.queue, a.lane, a.value, a.tag);
    LogMove(s.slots[a.slot].sh, s.slots[a.slot].threads[a.who], Go);
    CallbackNamed(s.slots[a.slot], a.who);
    assert |s'.queue.threads| == |s.queue.threads| by {
      QueueLength(s.queue, a.lane, Queue.Enqueue(a.value, a.tag));
    }
    forall g | g in s'.calls ensures CallOk(job, s', g) {
      if g != a.lane {
        assert CallOk(job, s, g) && s.calls[g] != (a.slot, a.who);
      }
    }
  }

  lemma QueueLength(q: Queue.State, g: nat, c: Queue.Choice)
    requires g < |q.threads|
    ensures |Queue.Step(q, g, c).threads| == |q.threads|
  {
  }

  lemma CallsOnQueue(job: nat -> Job, s: Server, a: Act)
    requires CallsOk(job, s) && QueueInvariant.Inv(s.queue) && Enabled(job, s, a) && a.OnQueue?
    ensures CallsOk(job, After(job, s, a))
  {
    hide Queue.Step, QueueInvariant.Inv, AfterCallback;
    var s' := After(job, s, a);
    QueueLength(s.queue, a.lane, a.next);
    forall g: nat | g < |s.queue.threads|
      ensures g in s'.calls ==> CallOk(job, s', g)
      ensures g !in s'.calls ==> !s'.queue.threads[g].Enq?
    {
      QueueThread(s.queue, a.lane, a.next, g);
      assert g in s.calls ==> CallOk(job, s, g);
    }
    forall g | g in s'.calls ensures CallOk(job, s', g) {
      assert CallOk(job, s, g);
    }
  }

  lemma CallsKept(job: nat -> Job, s: Server, a: Act)
    requires CallsOk(job, s) && SlotsOk(s) && QueueInvariant.Inv(s.queue) && Enabled(job, s, a)
    ensures CallsOk(job, After(job, s, a))
  {
    hide CallsOk, SlotsOk, QueueInvariant.Inv, Enabled;
    match a
    case OnSlot(b, i, c) => CallsOnSlot(job, s, b, i, c);
    case Calls(_, _, _, _, _) => CallsOnCall(job, s, a);
    case OnQueue(_, _) => CallsOnQueue(job, s, a);
  }

  // ---- the session's log is what was put in the queue for it ----

  // The callbacks made under an ID, by the slot it was drawn for.
  ghost function LogOf(s: Server, id: nat): seq<Event> {
    if id in s.owner && s.owner[id] < |s.slots| then Of(s.slots[s.owner[id]].sh.log, id) else []
  }

  lemma OfMore(log: seq<Event>, e: Event, id: nat)
    ensures Of(log + [e], id) == Of(log, id) + (if e.id == id then [e] else [])
  {
    assert (log + [e])[..|log|] == log;
  }

  lemma EventsMore(job: nat -> Job, vs: seq<nat>, v: nat)
    ensures EventsOf(Jobs(job, vs + [v])) == EventsOf(Jobs(job, vs)) + [EventOf(job(v))]
  {
    assert Jobs(job, vs + [v])[..|vs|] == Jobs(job, vs);
  }

  // What a step adds to the queue's Begun, and to the log.
  ghost function Adds(job: nat -> Job, a: Act, id: nat): seq<nat> {
    if a.Calls? && job(a.value).id == id then [a.value] else []
  }

  lemma LogStep(job: nat -> Job, s: Server, a: Act, id: nat)
    requires SlotsOk(s) && Enabled(job, s, a)
    ensures LogOf(After(job, s, a), id) ==
            LogOf(s, id) + (if Adds(job, a, id) == [] then [] else [EventOf(job(a.value))])
  {
    hide Reachable, MoveOf, Of;
    match a
    case OnSlot(b, i, c) =>
      LogMove(s.slots[b].sh, s.slots[b].threads[i], c);
      if c.Accept? && id == c.newId {
        NeverHad(s.slots[b].sh.log, id);
      }
      assert LogOf(s, id) + [] == LogOf(s, id);
    case Calls(b, i, _, v, _) =>
      LogMove(s.slots[b].sh, s.slots[b].threads[i], Go);
      CallbackNamed(s.slots[b], i);
      OfMore(s.slots[b].sh.log, EventOf(job(v)), id);
      assert LogOf(s, id) + [] == LogOf(s, id);
    case OnQueue(_, _) =>
      assert LogOf(s, id) + [] == LogOf(s, id);
  }

  // No one is in an Enqueue for the session when a callback of it starts another.
  lemma CallsApart(job: nat -> Job, s: Server, a: Act, j: nat)
    requires SlotsOk(s) && CallsOk(job, s) && Enabled(job, s, a) && a.Calls? && j < |s.queue.threads|
    ensures !Inside(job, s.queue.sh, s.queue.threads[j], job(a.value).id)
  {
    hide Reachable, AfterCallback;
    var slot := s.slots[a.slot];
    CallbackNamed(slot, a.who);
    if j in s.calls {
      assert CallOk(job, s, j);
      var (b, i) := s.calls[j];
      if b == a.slot {
        assert i != a.who;
        CallbackApart(slot, a.who, i);
      }
    }
  }

  // ---- the queue's own run ----

  lemma {:induction false} BegunSame(job: nat -> Job, run: seq<Queue.State>, moves: seq<Queue.Turn>,
                                     run': seq<Queue.State>, moves': seq<Queue.Turn>, n: nat, id: nat)
    requires Queue.Run(run, moves) && Queue.Run(run', moves') && run <= run' && moves <= moves' && n <= |moves|
    ensures Begun(job, run', moves', n, id) == Begun(job, run, moves, n, id)
  {
    hide Queue.Step, Queue.Start, ChatQueue.Begins;
    if n > 0 {
      BegunSame(job, run, moves, run', moves', n - 1, id);
      assert run'[n - 1] == run[n - 1] && moves'[n - 1] == moves[n - 1];
    }
  }

  // Whether move m of the queue starts an Enqueue for the session, and then nobody is in one.
  ghost predicate Apart(job: nat -> Job, q: Queue.State, m: Queue.Turn, id: nat) {
    Starts(job, q, m, id) ==> forall j: nat :: j < |q.threads| ==> !Inside(job, q.sh, q.threads[j], id)
  }

  lemma QueueRunOn(job: nat -> Job, run: seq<Queue.State>, moves: seq<Queue.Turn>, m: Queue.Turn)
    returns (run': seq<Queue.State>, moves': seq<Queue.Turn>)
    requires Queue.Run(run, moves) && m.who < |run[|moves|].threads|
    ensures run' == run + [Queue.Step(run[|moves|], m.who, m.what)] && moves' == moves + [m]
    ensures Queue.Run(run', moves')
  {
    hide Queue.Step, Queue.Start;
    run', moves' := run + [Queue.Step(run[|moves|], m.who, m.what)], moves + [m];
    assert forall k: nat :: k <= |moves| ==> run'[k] == run[k];
  }

  lemma StillApart(job: nat -> Job, run: seq<Queue.State>, moves: seq<Queue.Turn>, m: Queue.Turn,
                   run': seq<Queue.State>, moves': seq<Queue.Turn>, id: nat)
    requires Queue.Run(run, moves) && Queue.Run(run', moves')
    requires |run'| == |run| + 1 && run <= run' && moves' == moves + [m]
    requires NoOverlap(job, run, moves, id) && Apart(job, run[|moves|], m, id)
    ensures NoOverlap(job, run', moves', id)
  {
    hide Queue.Step, Queue.Start, Inside, Starts;
    assert run'[|moves|] == run[|moves|];
    forall k: nat, j: nat | k < |moves'| && Starts(job, run'[k], moves'[k], id) && j < |run'[k].threads|
      ensures !Inside(job, run'[k].sh, run'[k].threads[j], id)
    {
      assert k < |moves| ==> run'[k] == run[k] && moves'[k] == moves[k];
    }
  }

  lemma BegunMore(job: nat -> Job, run: seq<Queue.State>, moves: seq<Queue.Turn>, m: Queue.Turn,
                  run': seq<Queue.State>, moves': seq<Queue.Turn>, id: nat)
    requires Queue.Run(run, moves) && Queue.Run(run', moves')
    requires |run'| == |run| + 1 && run <= run' && moves' == moves + [m]
    ensures Begun(job, run', moves', |moves'|, id) ==
            Begun(job, run, moves, |moves|, id) + ChatQueue.Begins(job, run[|moves|], m, id)
  {
    hide Queue.Step, Queue.Start, ChatQueue.Begins;
    BegunSame(job, run, moves, run', moves', |moves|, id);
    assert run'[|moves|] == run[|moves|];
  }

  // The run of the queue alone that ends in s.queue, and what it says of session `id`.
  ghost predicate QueuePart(run: seq<Queue.State>, moves: seq<Queue.Turn>, s: Server) {
    Queue.Run(run, moves) && run[|moves|] == s.queue
  }

  ghost predicate Follows(job: nat -> Job, run: seq<Queue.State>, moves: seq<Queue.Turn>, s: Server, id: nat)
    requires Queue.Run(run, moves)
  {
    NoOverlap(job, run, moves, id) && EventsOf(Jobs(job, Begun(job, run, moves, |moves|, id))) == LogOf(s, id)
  }

  function MoveOfQueue(a: Act): Queue.Turn
    requires !a.OnSlot?
  {
    if a.Calls? then Queue.Turn(a.lane, Queue.Enqueue(a.value, a.tag)) else Queue.Turn(a.lane, a.next)
  }

  lemma StepFollows(job: nat -> Job, s: Server, a: Act, run: seq<Queue.State>, moves: seq<Queue.Turn>,
                    run': seq<Queue.State>, moves': seq<Queue.Turn>, id: nat)
    requires SlotsOk(s) && CallsOk(job, s) && Enabled(job, s, a) && !a.OnSlot?
    requires QueuePart(run, moves, s) && Queue.Run(run', moves') && Follows(job, run, moves, s, id)
    requires |run'| == |run| + 1 && run <= run' && moves' == moves + [MoveOfQueue(a)]
    ensures Follows(job, run', moves', After(job, s, a), id)
  {
    hide SlotsOk, CallsOk, After, Inside, NoOverlap, LogOf;
    var m := MoveOfQueue(a);
    if a.Calls? && job(a.value).id == id {
      forall j: nat | j < |s.queue.threads| ensures !Inside(job, s.queue.sh, s.queue.threads[j], id) {
        CallsApart(job, s, a, j);
      }
    }
    StillApart(job, run, moves, m, run', moves', id);
    BegunMore(job, run, moves, m, run', moves', id);
    LogStep(job, s, a, id);
    var begun := Begun(job, run, moves, |moves|, id);
    assert ChatQueue.Begins(job, s.queue, m, id) == Adds(job, a, id);
    if Adds(job, a, id) != [] {
      EventsMore(job, begun, a.value);
    } else {
      assert begun + [] == begun && LogOf(s, id) + [] == LogOf(s, id);
    }
  }

  lemma FollowsStart(job: nat -> Job, s: Server, id: nat)
    requires ChatServerRun.Begins(s)
    ensures Queue.Run([s.queue], []) && Follows(job, [s.queue], [], s, id)
  {
    assert Jobs(job, []) == [];
  }

  lemma StartOk(job: nat -> Job, s: Server)
    requires ChatServerRun.Begins(s)
    ensures SlotsOk(s) && CallsOk(job, s)
  {
    forall b: nat | b < |s.slots| ensures Reachable(s.slots[b]) {
      assert Run([s.slots[b]]) && [s.slots[b]][0] == s.slots[b];
    }
  }

  // The state of the server, its queue's run, and all sessions' jobs against their logs.
  ghost predicate Sound(job: nat -> Job, s: Server, run: seq<Queue.State>, moves: seq<Queue.Turn>) {
    && SlotsOk(s) && CallsOk(job, s) && QueuePart(run, moves, s)
    && forall id: nat :: Follows(job, run, moves, s, id)
  }

  lemma SoundStep(job: nat -> Job, s: Server, a: Act, run: seq<Queue.State>, moves: seq<Queue.Turn>)
    returns (run': seq<Queue.State>, moves': seq<Queue.Turn>)
    requires Sound(job, s, run, moves) && Enabled(job, s, a)
    ensures Sound(job, After(job, s, a), run', moves')
  {
    hide SlotsOk, CallsOk, Follows, LogOf, Queue.Step;
    QueueTheorems.RunInv(run, moves, |moves|);
    SlotsKept(job, s, a);
    CallsKept(job, s, a);
    if a.OnSlot? {
      run', moves' := run, moves;
      forall id: nat ensures Follows(job, run, moves, After(job, s, a), id) {
        FollowsOnSlot(job, s, a, run, moves, id);
      }
    } else {
      var m := MoveOfQueue(a);
      run', moves' := QueueRunOn(job, run, moves, m);
      forall id: nat ensures Follows(job, run', moves', After(job, s, a), id) {
        assert Follows(job, run, moves, s, id);
        StepFollows(job, s, a, run, moves, run', moves', id);
      }
    }
  }

  lemma FollowsOnSlot(job: nat -> Job, s: Server, a: Act, run: seq<Queue.State>, moves: seq<Queue.Turn>, id: nat)
    requires Sound(job, s, run, moves) && Enabled(job, s, a) && a.OnSlot?
    ensures Follows(job, run, moves, After(job, s, a), id)
  {
    hide SlotsOk, CallsOk, LogOf, After, NoOverlap, Enabled;
    LogStep(job, s, a, id);
    assert LogOf(s, id) + [] == LogOf(s, id);
    assert Follows(job, run, moves, s, id);
  }

  lemma {:induction false} ServerSound(job: nat -> Job, run: seq<Server>, acts: seq<Act>, k: nat)
    returns (queue: seq<Queue.State>, moves: seq<Queue.Turn>)
    requires ServerRun(job, run, acts) && k < |run|
    ensures Sound(job, run[k], queue, moves)
  {
    hide Enabled, After, Sound, ChatServerRun.Begins;
    if k == 0 {
      queue, moves := [run[0].queue], [];
      SoundStart(job, run[0]);
    } else {
      queue, moves := ServerSound(job, run, acts, k - 1);
      queue, moves := SoundStep(job, run[k - 1], acts[k - 1], queue, moves);
      assert run[k - 1 + 1] == run[k];
    }
  }

  lemma SoundStart(job: nat -> Job, s: Server)
    requires ChatServerRun.Begins(s)
    ensures Sound(job, s, [s.queue], [])
  {
    hide SlotsOk, CallsOk, Follows, ChatServerRun.Begins;
    StartOk(job, s);
    FollowsStart(job, s, 0);
    forall id: nat ensures Queue.Run([s.queue], []) && Follows(job, [s.queue], [], s, id) {
      FollowsStart(job, s, id);
    }
  }

  // ---- what the content thread gets ----

  /** At every moment of every run, what Dequeue has handed out for a session is, in order, a prefix of
      the callbacks the session has made. */
  lemma JobsFollowLog(job: nat -> Job, run: seq<Server>, acts: seq<Act>, k: nat, id: nat)
    requires ServerRun(job, run, acts) && k < |run|
    ensures OfJobs(Jobs(job, run[k].queue.sh.returned), id) <= LogOf(run[k], id)
  {
    hide SlotsOk, CallsOk, LogOf, ServerRun, Begun, NoOverlap, Pick, EventsOf;
    var queue, moves := ServerSound(job, run, acts, k);
    assert Follows(job, queue, moves, run[k], id);
    var vs := run[k].queue.sh.returned;
    SessionOrder(job, queue, moves, |moves|, id);
    OfPicked(job, vs, id);
    EventsPrefix(job, Pick(job, vs, id), Begun(job, queue, moves, |moves|, id));
  }

  /** And so it gets jobs it expects: a join for a session it does not know, messages and leaves for
      sessions it knows. */
  lemma ServerMeansExpected(job: nat -> Job, run: seq<Server>, acts: seq<Act>, k: nat)
    requires ServerRun(job, run, acts) && k < |run|
    ensures Expected(Jobs(job, run[k].queue.sh.returned))
  {
    hide Expected, ServerRun, CallsOk, Named, FromSlot, OfJobs, Jobs;
    var queue, moves := ServerSound(job, run, acts, k);
    var jobs := Jobs(job, run[k].queue.sh.returned);
    forall id: nat ensures FromSlot(jobs, id) {
      JobsFollowLog(job, run, acts, k, id);
      SlotBehind(run[k], jobs, id);
    }
    SlotsMeanExpected(jobs);
  }

  lemma SlotBehind(s: Server, jobs: seq<Job>, id: nat)
    requires SlotsOk(s) && OfJobs(jobs, id) <= LogOf(s, id)
    ensures FromSlot(jobs, id)
  {
    hide Reachable, OfJobs;
    if id in s.owner && s.owner[id] < |s.slots| {
      assert Reachable(s.slots[s.owner[id]]);
    } else {
      var unused := FreshSlot();
      assert Of(unused.sh.log, id) == [];
    }
  }

  lemma FreshSlot() returns (s: State)
    ensures Reachable(s) && s.sh.log == []
  {
    s := State(Shared(Control(false, true, 0, 0, 0, 1, {}), Pending([], [], []),
                      Sender(false, [], 0, [], 0, false, [], []), Tokens(0, multiset{}), [], false), []);
    assert Run([s]) && [s][0] == s;
  }
}
