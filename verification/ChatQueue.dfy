/** JobQueue between the session callbacks and the content thread: the jobs of each session come
    out in the order in which its callbacks put them in. The queue holds Job pointers, which are
    the values here; `job` says what a pointer stands for. */
module ChatQueue {
  import opened ChatJobs
  import opened ChatView
  import opened Histories
  import opened LockFreeQueue
  import QueueHistory
  import opened QueueInvariant
  import opened QueueSteps
  import opened QueueTheorems
  import Session
  import SessionTheorems

  // ---- the values of one session ----

  function Pick(job: nat -> Job, vs: seq<nat>, id: nat): seq<nat> {
    if vs == [] then []
    else
      var v := vs[|vs| - 1];
      Pick(job, vs[..|vs| - 1], id) + (if job(v).id == id then [v] else [])
  }

  lemma PickMore(job: nat -> Job, vs: seq<nat>, v: nat, id: nat)
    ensures Pick(job, vs + [v], id) == Pick(job, vs, id) + (if job(v).id == id then [v] else [])
  {
    assert (vs + [v])[..|vs|] == vs;
  }

  lemma {:induction false} PickPrefix(job: nat -> Job, vs: seq<nat>, ws: seq<nat>, id: nat)
    requires vs <= ws
    ensures Pick(job, vs, id) <= Pick(job, ws, id)
    decreases |ws|
  {
    if |vs| < |ws| {
      assert vs <= ws[..|ws| - 1];
      PickPrefix(job, vs, ws[..|ws| - 1], id);
    } else {
      assert vs == ws;
    }
  }

  // ---- one session's enqueues, one at a time ----

  // Thread t is in an Enqueue for session id; waiting, if it has not linked its node yet.
  ghost predicate Inside(job: nat -> Job, h: Shared, t: Thread, id: nat) {
    t.Enq? && t.enq.mine.node in h.data && job(h.data[t.enq.mine.node]).id == id
  }

  ghost predicate Waiting(job: nat -> Job, h: Shared, t: Thread, id: nat) {
    Inside(job, h, t, id) && !t.enq.CasTail? && !t.enq.RaiseSize?
  }

  ghost predicate Starts(job: nat -> Job, s: State, turn: Turn, id: nat) {
    && turn.who < |s.threads| && s.threads[turn.who].Idle?
    && turn.what.Enqueue? && job(turn.what.value).id == id
  }

  /** Nobody else is in an Enqueue for the session when one starts: the callbacks of a session do
      not overlap, and each of them enqueues its job before it returns. */
  ghost predicate NoOverlap(job: nat -> Job, run: seq<State>, moves: seq<Turn>, id: nat)
    requires Run(run, moves)
  {
    forall k: nat, j: nat :: k < |moves| && Starts(job, run[k], moves[k], id) && j < |run[k].threads| ==>
      !Inside(job, run[k].sh, run[k].threads[j], id)
  }

  ghost function Begins(job: nat -> Job, s: State, turn: Turn, id: nat): seq<nat> {
    if Starts(job, s, turn, id) then [turn.what.value] else []
  }

  /** The values whose Enqueue for session id was started in the first n moves, in order. */
  ghost function Begun(job: nat -> Job, run: seq<State>, moves: seq<Turn>, n: nat, id: nat): seq<nat>
    requires Run(run, moves) && n <= |moves|
  {
    if n == 0 then []
    else Begun(job, run, moves, n - 1, id) + Begins(job, run[n - 1], moves[n - 1], id)
  }

  // `begun` is what was linked for the session and, if an Enqueue for it waits, its value.
  ghost predicate Ordered(job: nat -> Job, s: State, id: nat, begun: seq<nat>)
    requires s.sh.order != []
  {
    var picked := Pick(job, Linked(s.sh), id);
    && (forall j: nat, k: nat :: j < k < |s.threads| ==>
          !(Inside(job, s.sh, s.threads[j], id) && Inside(job, s.sh, s.threads[k], id)))
    && (forall j: nat :: j < |s.threads| && Waiting(job, s.sh, s.threads[j], id) ==>
          begun == picked + [s.sh.data[s.threads[j].enq.mine.node]])
    && ((forall j: nat :: j < |s.threads| ==> !Waiting(job, s.sh, s.threads[j], id)) ==> begun == picked)
  }

  // What a move leaves of the other threads' enqueues.
  lemma OtherInside(job: nat -> Job, h: Shared, h': Shared, u: Thread, id: nat)
    requires Later(h, h') && ThreadOk(h, u)
    ensures Inside(job, h', u, id) <==> Inside(job, h, u, id)
    ensures Waiting(job, h', u, id) <==> Waiting(job, h, u, id)
    ensures u.Enq? ==> u.enq.mine.node in h.data && u.enq.mine.node in h'.data &&
                       h'.data[u.enq.mine.node] == h.data[u.enq.mine.node]
  {
    assert u.Enq? ==> u.enq.mine.node in Mine(u);
  }

  // What it does to the mover's own.
  lemma MoverInside(job: nat -> Job, h: Shared, t: Thread, c: Choice, id: nat)
    requires ThreadOk(h, t) && Later(h, MoveOf(h, t, c).sh) && !(t.Idle? && c.Enqueue? && job(c.value).id == id)
    ensures var m := MoveOf(h, t, c);
      && (Inside(job, m.sh, m.t, id) ==> Inside(job, h, t, id))
      && (Waiting(job, m.sh, m.t, id) <==> Waiting(job, h, t, id) && !EffectOf(h, t).Put?)
      && (Waiting(job, m.sh, m.t, id) ==> m.t.enq.mine == t.enq.mine)
      && (EffectOf(h, t).Put? ==>
            t.Enq? && t.enq.mine.node in h.data && EffectOf(h, t).value == h.data[t.enq.mine.node] &&
            (job(EffectOf(h, t).value).id == id ==> Waiting(job, h, t, id)))
  {
    assert t.Enq? ==> t.enq.mine.node in Mine(t);
  }

  lemma StartStep(job: nat -> Job, s: State, turn: Turn, id: nat, begun: seq<nat>)
    requires Inv(s) && Starts(job, s, turn, id) && Ordered(job, s, id, begun)
    requires forall j: nat :: j < |s.threads| ==> !Inside(job, s.sh, s.threads[j], id)
    ensures var s' := Step(s, turn.who, turn.what);
      s'.sh.order != [] && Ordered(job, s', id, begun + [turn.what.value])
  {
    hide Shape, Tickets, Total;
    var s' := Step(s, turn.who, turn.what);
    StepLinks(s, turn.who, turn.what);
    StepKeeps(s, turn.who, turn.what);
    NotEmpty(s'.sh);
    assert Linked(s'.sh) + [] == Linked(s'.sh) && Linked(s.sh) + [] == Linked(s.sh);
    forall j: nat | j < |s.threads| && j != turn.who
      ensures !Inside(job, s'.sh, s'.threads[j], id)
    {
      OtherInside(job, s.sh, s'.sh, s.threads[j], id);
    }
    assert Waiting(job, s'.sh, s'.threads[turn.who], id);
  }

  lemma NotEmpty(h: Shared)
    requires Shape(h)
    ensures h.order != []
  {
  }

  // What one move leaves of thread j's enqueue, if it is not the mover's.
  ghost predicate SameInside(job: nat -> Job, s: State, s': State, j: nat, id: nat)
    requires j < |s.threads| == |s'.threads|
  {
    && (Inside(job, s'.sh, s'.threads[j], id) <==> Inside(job, s.sh, s.threads[j], id))
    && (Waiting(job, s'.sh, s'.threads[j], id) <==> Waiting(job, s.sh, s.threads[j], id))
    && (Waiting(job, s.sh, s.threads[j], id) ==> SameValue(s, s', j))
  }

  ghost predicate SameValue(s: State, s': State, j: nat)
    requires j < |s.threads| == |s'.threads|
  {
    var t, t' := s.threads[j], s'.threads[j];
    t.Enq? && t'.Enq? && t.enq.mine.node in s.sh.data && t'.enq.mine.node in s'.sh.data &&
    s'.sh.data[t'.enq.mine.node] == s.sh.data[t.enq.mine.node]
  }

  lemma OthersSame(job: nat -> Job, s: State, turn: Turn, id: nat)
    requires Inv(s) && turn.who < |s.threads|
    ensures var s' := Step(s, turn.who, turn.what);
      forall j: nat :: j < |s.threads| && j != turn.who ==> SameInside(job, s, s', j, id)
  {
    hide Shape, Tickets, Total, MoveOf;
    StepKeeps(s, turn.who, turn.what);
    var s' := Step(s, turn.who, turn.what);
    forall j: nat | j < |s.threads| && j != turn.who ensures SameInside(job, s, s', j, id) {
      OtherInside(job, s.sh, s'.sh, s.threads[j], id);
    }
  }

  // The mover, and what was linked.
  ghost predicate MoverGoesOn(job: nat -> Job, s: State, s': State, i: nat, id: nat)
    requires i < |s.threads| == |s'.threads| && s.sh.order != [] && s'.sh.order != []
  {
    var puts := EffectOf(s.sh, s.threads[i]).Put? && job(EffectOf(s.sh, s.threads[i]).value).id == id;
    var was, now := Pick(job, Linked(s.sh), id), Pick(job, Linked(s'.sh), id);
    && (Inside(job, s'.sh, s'.threads[i], id) ==> Inside(job, s.sh, s.threads[i], id))
    && (if puts then
          Waiting(job, s.sh, s.threads[i], id) && !Waiting(job, s'.sh, s'.threads[i], id) &&
          now == was + [s.sh.data[s.threads[i].enq.mine.node]]
        else
          now == was && (Waiting(job, s'.sh, s'.threads[i], id) <==> Waiting(job, s.sh, s.threads[i], id)) &&
          (Waiting(job, s.sh, s.threads[i], id) ==> SameValue(s, s', i)))
  }

  lemma MoverStepOn(job: nat -> Job, s: State, turn: Turn, id: nat)
    requires Inv(s) && turn.who < |s.threads| && !Starts(job, s, turn, id) && s.sh.order != []
    ensures var s' := Step(s, turn.who, turn.what);
      s'.sh.order != [] && MoverGoesOn(job, s, s', turn.who, id)
  {
    hide Shape, Tickets, Total, MoveOf, EffectOf, Linked;
    var i, s' := turn.who, Step(s, turn.who, turn.what);
    var e := EffectOf(s.sh, s.threads[i]);
    StepLinks(s, i, turn.what);
    StepKeeps(s, i, turn.what);
    NotEmpty(s'.sh);
    assert ThreadOk(s.sh, s.threads[i]);
    MoverInside(job, s.sh, s.threads[i], turn.what, id);
    assert s.threads[i].Enq? ==> s.threads[i].enq.mine.node in Mine(s.threads[i]);
    if e.Put? {
      PickMore(job, Linked(s.sh), e.value, id);
      assert Pick(job, Linked(s.sh), id) + [] == Pick(job, Linked(s.sh), id);
    } else {
      assert Linked(s.sh) + [] == Linked(s.sh);
    }
  }

  lemma LaterStep(job: nat -> Job, s: State, turn: Turn, id: nat, begun: seq<nat>)
    requires Inv(s) && turn.who < |s.threads| && !Starts(job, s, turn, id) && s.sh.order != []
    requires Ordered(job, s, id, begun)
    ensures var s' := Step(s, turn.who, turn.what); s'.sh.order != [] && Ordered(job, s', id, begun)
  {
    hide Inv, Linked, EffectOf, MoveOf, Pick, Ordered, MoverGoesOn;
    OthersSame(job, s, turn, id);
    MoverStepOn(job, s, turn, id);
    StillOrdered(job, s, Step(s, turn.who, turn.what), turn.who, id, begun);
  }

  lemma StillOrdered(job: nat -> Job, s: State, s': State, i: nat, id: nat, begun: seq<nat>)
    requires i < |s.threads| == |s'.threads| && s.sh.order != [] && s'.sh.order != []
    requires MoverGoesOn(job, s, s', i, id)
    requires forall j: nat :: j < |s.threads| && j != i ==> SameInside(job, s, s', j, id)
    requires Ordered(job, s, id, begun)
    ensures Ordered(job, s', id, begun)
  {
    hide Linked, EffectOf, Pick;
    forall j: nat, k: nat | j < k < |s.threads|
      ensures !(Inside(job, s'.sh, s'.threads[j], id) && Inside(job, s'.sh, s'.threads[k], id))
    {
      assert j != i ==> SameInside(job, s, s', j, id);
      assert k != i ==> SameInside(job, s, s', k, id);
    }
    var now := Pick(job, Linked(s'.sh), id);
    forall j: nat | j < |s.threads| && Waiting(job, s'.sh, s'.threads[j], id)
      ensures begun == now + [s'.sh.data[s'.threads[j].enq.mine.node]]
    {
      assert j != i ==> SameInside(job, s, s', j, id);
      assert Waiting(job, s.sh, s.threads[j], id) && SameValue(s, s', j);
    }
    if forall j: nat :: j < |s.threads| ==> !Waiting(job, s'.sh, s'.threads[j], id) {
      forall j: nat | j < |s.threads| && j != i ensures !Waiting(job, s.sh, s.threads[j], id) {
        assert SameInside(job, s, s', j, id);
      }
      assert begun == now;
    }
  }

  lemma {:induction false} OrderedRun(job: nat -> Job, run: seq<State>, moves: seq<Turn>, n: nat, id: nat)
    requires Run(run, moves) && n <= |moves| && NoOverlap(job, run, moves, id)
    ensures run[n].sh.order != [] && Ordered(job, run[n], id, Begun(job, run, moves, n, id))
  {
    hide Inv, Step, Ordered, Starts, Inside;
    RunInv(run, moves, n);
    if n == 0 {
      OrderedStart(job, run[0], id);
    } else {
      OrderedRun(job, run, moves, n - 1, id);
      RunInv(run, moves, n - 1);
      var s, turn, begun := run[n - 1], moves[n - 1], Begun(job, run, moves, n - 1, id);
      assert run[n - 1 + 1] == run[n];
      if Starts(job, s, turn, id) {
        StartStep(job, s, turn, id, begun);
      } else {
        LaterStep(job, s, turn, id, begun);
        assert begun + [] == begun;
      }
    }
  }

  lemma OrderedStart(job: nat -> Job, s: State, id: nat)
    requires Start(s)
    ensures s.sh.order != [] && Ordered(job, s, id, [])
  {
    assert s.sh.order[1..] == [];
  }

  /** Whatever else goes on in the queue, what Dequeue has handed out for a session is, in order,
      a prefix of what was enqueued for it. */
  lemma SessionOrder(job: nat -> Job, run: seq<State>, moves: seq<Turn>, n: nat, id: nat)
    requires Run(run, moves) && n <= |moves| && NoOverlap(job, run, moves, id)
    ensures Pick(job, run[n].sh.returned, id) <= Begun(job, run, moves, n, id)
  {
    hide Inv, Step, Linked, Pick, Begun;
    OrderedRun(job, run, moves, n, id);
    assert Reachable(run[n]) by {
      QueueHistory.Prefix(run, moves, n);
    }
    ReturnedIsPrefix(run[n]);
    PickPrefix(job, run[n].sh.returned, Linked(run[n].sh), id);
  }

  // ---- the jobs the content thread gets ----

  function Jobs(job: nat -> Job, vs: seq<nat>): (r: seq<Job>)
    ensures |r| == |vs|
  {
    seq(|vs|, k requires 0 <= k < |vs| => job(vs[k]))
  }

  lemma {:induction false} OfPicked(job: nat -> Job, vs: seq<nat>, id: nat)
    ensures OfJobs(Jobs(job, vs), id) == EventsOf(Jobs(job, Pick(job, vs, id)))
  {
    hide EventOf, SessionTheorems.Of;
    if vs == [] {
      assert Jobs(job, vs) == [];
      assert OfJobs([], id) == [] by {
        NoEvents(id);
      }
    } else {
      var n := |vs| - 1;
      var jobs, picked := Jobs(job, vs), Pick(job, vs[..n], id);
      assert jobs[..n] == Jobs(job, vs[..n]) && jobs[n] == job(vs[n]);
      OfPicked(job, vs[..n], id);
      OfLast(jobs, id);
      if job(vs[n]).id == id {
        var more := Jobs(job, picked + [vs[n]]);
        assert more[..|picked|] == Jobs(job, picked);
      } else {
        assert picked + [] == picked;
        assert OfJobs(jobs[..n], id) + [] == OfJobs(jobs[..n], id);
      }
    }
  }

  lemma NoEvents(id: nat)
    ensures OfJobs([], id) == []
  {
  }

  lemma {:induction false} EventsPrefix(job: nat -> Job, vs: seq<nat>, ws: seq<nat>)
    requires vs <= ws
    ensures EventsOf(Jobs(job, vs)) <= EventsOf(Jobs(job, ws))
    decreases |ws|
  {
    if |vs| < |ws| {
      var n := |ws| - 1;
      assert vs <= ws[..n] && Jobs(job, ws)[..n] == Jobs(job, ws[..n]);
      EventsPrefix(job, vs, ws[..n]);
    } else {
      assert vs == ws;
    }
  }

  // The callbacks that have started to queue a job for the session are callbacks its slot made, in
  // that order, and do not overlap.
  ghost predicate CallbacksQueue(job: nat -> Job, run: seq<State>, moves: seq<Turn>, n: nat, id: nat)
    requires Run(run, moves) && n <= |moves|
  {
    NoOverlap(job, run, moves, id) &&
    exists s: Session.State ::
      SessionTheorems.Reachable(s) &&
      EventsOf(Jobs(job, Begun(job, run, moves, n, id))) <= SessionTheorems.Of(s.sh.log, id)
  }

  lemma SlotOf(job: nat -> Job, run: seq<State>, moves: seq<Turn>, n: nat, id: nat)
    requires Run(run, moves) && n <= |moves| && CallbacksQueue(job, run, moves, n, id)
    ensures FromSlot(Jobs(job, run[n].sh.returned), id)
  {
    hide Begun, Pick, EventsOf, SessionTheorems.Of, SessionTheorems.Reachable, NoOverlap;
    var vs := run[n].sh.returned;
    var s: Session.State :| SessionTheorems.Reachable(s) &&
      EventsOf(Jobs(job, Begun(job, run, moves, n, id))) <= SessionTheorems.Of(s.sh.log, id);
    SessionOrder(job, run, moves, n, id);
    OfPicked(job, vs, id);
    EventsPrefix(job, Pick(job, vs, id), Begun(job, run, moves, n, id));
    assert OfJobs(Jobs(job, vs), id) <= SessionTheorems.Of(s.sh.log, id);
  }

  /** Through any run of the lock-free queue, with any number of worker threads, the content thread
      gets jobs it expects: a join for a session it does not know, messages and leaves for sessions
      it knows. */
  lemma QueuedMeansExpected(job: nat -> Job, run: seq<State>, moves: seq<Turn>, n: nat)
    requires Run(run, moves) && n <= |moves|
    requires forall id: nat :: CallbacksQueue(job, run, moves, n, id)
    ensures Expected(Jobs(job, run[n].sh.returned))
  {
    hide CallbacksQueue, FromSlot, Expected;
    var jobs := Jobs(job, run[n].sh.returned);
    forall id: nat ensures FromSlot(jobs, id) {
      assert CallbacksQueue(job, run, moves, n, id);
      SlotOf(job, run, moves, n, id);
    }
    SlotsMeanExpected(jobs);
  }
}
