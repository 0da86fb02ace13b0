/** The order in which the content thread meets the callbacks of each session. */
module ChatJobs {
  import opened ChatView
  import opened Session
  import SessionTheorems

  // The callback that queued a job.
  function EventOf(job: Job): Event {
    match job
    case JoinJob(id) => Joined(id)
    case MessageJob(id, _) => Received(id)
    case LeaveJob(id) => Left(id)
  }

  function EventsOf(jobs: seq<Job>): (r: seq<Event>)
    ensures |r| == |jobs|
  {
    if jobs == [] then [] else EventsOf(jobs[..|jobs| - 1]) + [EventOf(jobs[|jobs| - 1])]
  }

  /** The sessions with a character after the jobs. */
  function Present(jobs: seq<Job>): set<nat> {
    if jobs == [] then {}
    else
      var before := Present(jobs[..|jobs| - 1]);
      match jobs[|jobs| - 1]
      case JoinJob(id) => before + {id}
      case MessageJob(_, _) => before
      case LeaveJob(id) => before - {id}
  }

  /** A join finds no character, a message or a leave finds one. */
  predicate Fits(present: set<nat>, job: Job) {
    match job
    case JoinJob(id) => id !in present
    case MessageJob(id, _) => id in present
    case LeaveJob(id) => id in present
  }

  ghost predicate Expected(jobs: seq<Job>) {
    forall k: nat :: k < |jobs| ==> Fits(Present(jobs[..k]), jobs[k])
  }

  ghost function OfJobs(jobs: seq<Job>, id: nat): seq<Event> {
    SessionTheorems.Of(EventsOf(jobs), id)
  }

  lemma OfLast(jobs: seq<Job>, id: nat)
    requires jobs != []
    ensures var last := jobs[|jobs| - 1];
      OfJobs(jobs, id) == OfJobs(jobs[..|jobs| - 1], id) + if last.id == id then [EventOf(last)] else []
  {
    var es := EventsOf(jobs);
    assert es[..|es| - 1] == EventsOf(jobs[..|jobs| - 1]);
  }

  // The session's events start with its join and end with its leave, if there is one.
  ghost predicate OrderFor(jobs: seq<Job>, id: nat) {
    SessionTheorems.Orderly(OfJobs(jobs, id), id)
  }

  ghost predicate InOrder(jobs: seq<Job>) {
    forall id: nat :: OrderFor(jobs, id)
  }

  lemma OrderlyLast(q: seq<Event>, e: Event, id: nat)
    requires SessionTheorems.Orderly(q + [e], id)
    ensures SessionTheorems.Orderly(q, id)
    ensures if q == [] then e == Joined(id) else !q[|q| - 1].Left? && (e == Received(id) || e == Left(id))
  {
    var r := q + [e];
    assert r[|q|] == e;
    if q != [] {
      assert r[0] == q[0] && r[|q| - 1] == q[|q| - 1];
      assert forall k: nat :: k < |q| ==> q[k] == r[k];
    }
  }

  // What the order of one session says about the last job.
  lemma LastInOrder(jobs: seq<Job>, id: nat)
    requires jobs != [] && OrderFor(jobs, id)
    ensures OrderFor(jobs[..|jobs| - 1], id)
    ensures var last, q := jobs[|jobs| - 1], OfJobs(jobs[..|jobs| - 1], id);
      last.id == id ==> if q == [] then last.JoinJob? else !q[|q| - 1].Left? && !last.JoinJob?
  {
    OfLast(jobs, id);
    if jobs[|jobs| - 1].id == id {
      OrderlyLast(OfJobs(jobs[..|jobs| - 1], id), EventOf(jobs[|jobs| - 1]), id);
    } else {
      assert OfJobs(jobs, id) == OfJobs(jobs[..|jobs| - 1], id);
    }
  }

  // A session is present when its join has been handled and its leave has not.
  lemma {:induction false} PresentExactly(jobs: seq<Job>, id: nat)
    requires OrderFor(jobs, id)
    ensures var q := OfJobs(jobs, id); id in Present(jobs) <==> q != [] && !q[|q| - 1].Left?
  {
    if jobs != [] {
      LastInOrder(jobs, id);
      PresentExactly(jobs[..|jobs| - 1], id);
      OfLast(jobs, id);
    }
  }

  /** Jobs in which each session's callbacks are in order never surprise the content thread:
      CreateCharacter finds no duplicate, and the character of a message or leave exists. */
  lemma {:induction false} OrderMeansExpected(jobs: seq<Job>)
    requires InOrder(jobs)
    ensures Expected(jobs)
  {
    if jobs != [] {
      var n := |jobs| - 1;
      forall id: nat ensures OrderFor(jobs[..n], id) {
        assert OrderFor(jobs, id);
        LastInOrder(jobs, id);
      }
      OrderMeansExpected(jobs[..n]);
      assert OrderFor(jobs, jobs[n].id);
      LastInOrder(jobs, jobs[n].id);
      PresentExactly(jobs[..n], jobs[n].id);
      forall k: nat | k < |jobs| ensures Fits(Present(jobs[..k]), jobs[k]) {
        if k < n {
          assert jobs[..n][..k] == jobs[..k] && Fits(Present(jobs[..n][..k]), jobs[..n][k]);
        }
      }
    }
  }

  // The jobs of session `id` handled so far are a prefix of its slot's callbacks, in order.
  ghost predicate FromSlot(jobs: seq<Job>, id: nat) {
    exists s: State :: SessionTheorems.Reachable(s) && OfJobs(jobs, id) <= SessionTheorems.Of(s.sh.log, id)
  }

  /** The job order that the session protocol and a first-in first-out JobQueue give. */
  lemma SlotsMeanExpected(jobs: seq<Job>)
    requires forall id: nat :: FromSlot(jobs, id)
    ensures Expected(jobs)
  {
    forall id: nat
      ensures OrderFor(jobs, id)
    {
      assert FromSlot(jobs, id);
      var s: State :| SessionTheorems.Reachable(s) && OfJobs(jobs, id) <= SessionTheorems.Of(s.sh.log, id);
      SessionTheorems.CallbackOrder(s, id);
    }
    OrderMeansExpected(jobs);
  }
}
