/** The session slots and JobQueue in one run. A callback starts with the session's step and lasts
    until its Enqueue returns; the thread that makes it does nothing else meanwhile. */
module ChatServerRun {
  import opened ChatJobs
  import opened ChatQueue
  import opened ChatView
  import Queue = LockFreeQueue
  import QueueHistory
  import QueueInvariant
  import QueueSteps
  import QueueTheorems
  import opened Session
  import SessionInvariant
  import opened SessionTheorems

  /** `calls` says for each queue thread that is in a callback's Enqueue which thread of which slot
      made the callback; `owner` which slot a session ID was drawn for: SessionIDCnt, of which IDs
      are drawn, is one for all slots. */
  datatype Server = Server(
    slots: seq<State>, queue: Queue.State, calls: map<nat, (nat, nat)>, owner: map<nat, nat>)

  datatype Act =
    | OnSlot(slot: nat, who: nat, what: Choice)                   // any step that makes no callback
    | Calls(slot: nat, who: nat, lane: nat, value: nat, tag: nat)   // a callback: a job, and Enqueue starts
    | OnQueue(lane: nat, next: Queue.Choice)                        // a step in Enqueue, or of the content thread

  // The loop over received messages may end instead of calling back.
  predicate NoCallback(pc: Pc, c: Choice) {
    CallsBack(pc) ==> pc == Recv(Deliver) && c == Refuse
  }

  function CallbackOf(s: State, i: nat): Event
    requires i < |s.threads|
  {
    match s.threads[i].pc
    case Init(_) => Joined(s.sh.ctl.id)
    case Recv(_) => Received(s.sh.ctl.id)
    case _ => Left(s.sh.ctl.id)
  }

  ghost predicate InCallback(s: Server, slot: nat, i: nat) {
    exists g: nat :: g in s.calls && s.calls[g] == (slot, i)
  }

  ghost predicate Enabled(job: nat -> Job, s: Server, a: Act) {
    match a
    case OnSlot(b, i, c) =>
      && b < |s.slots| && i < |s.slots[b].threads| && !InCallback(s, b, i)
      && NoCallback(s.slots[b].threads[i].pc, c)
      && (c.Accept? ==> c.newId !in s.owner)
    case Calls(b, i, g, v, _) =>
      && b < |s.slots| && i < |s.slots[b].threads| && !InCallback(s, b, i)
      && CallsBack(s.slots[b].threads[i].pc)
      && g < |s.queue.threads| && s.queue.threads[g].Idle?
      && EventOf(job(v)) == CallbackOf(s.slots[b], i)
    case OnQueue(g, c) =>
      g < |s.queue.threads| && (s.queue.threads[g].Idle? ==> !c.Enqueue?)
  }

  ghost function After(job: nat -> Job, s: Server, a: Act): Server
    requires Enabled(job, s, a)
  {
    match a
    case OnSlot(b, i, c) =>
      s.(slots := s.slots[b := Step(s.slots[b], i, c)],
         owner := if c.Accept? then s.owner[c.newId := b] else s.owner)
    case Calls(b, i, g, v, tag) =>
      s.(slots := s.slots[b := Step(s.slots[b], i, Go)], calls := s.calls[g := (b, i)],
         queue := Queue.Step(s.queue, g, Queue.Enqueue(v, tag)))
    case OnQueue(g, c) =>
      var q := Queue.Step(s.queue, g, c);
      s.(queue := q, calls := if q.threads[g].Idle? then s.calls - {g} else s.calls)
  }

  ghost predicate Begins(s: Server) {
    && (forall b: nat :: b < |s.slots| ==> Start(s.slots[b]))
    && Queue.Start(s.queue) && s.calls == map[] && s.owner == map[]
  }

  ghost predicate ServerRun(job: nat -> Job, run: seq<Server>, acts: seq<Act>) {
    && |run| == |acts| + 1
    && Begins(run[0])
    && forall k: nat :: k < |acts| ==> Enabled(job, run[k], acts[k]) && run[k + 1] == After(job, run[k], acts[k])
  }

  // ---- session IDs ----

  ghost predicate Owns(owner: map<nat, nat>, b: nat, id: nat) {
    id in owner && owner[id] == b
  }

  // Every ID that slot b has, is about to take, or has had.
  ghost predicate Named(s: State, owner: map<nat, nat>, b: nat) {
    && (s.sh.ctl.id != 0 ==> Owns(owner, b, s.sh.ctl.id))
    && (forall j: nat :: j < |s.threads| ==> NewOwned(s.threads[j].pc, owner, b))
    && (forall e :: e in s.sh.log ==> Owns(owner, b, e.id))
  }

  ghost predicate NewOwned(pc: Pc, owner: map<nat, nat>, b: nat) {
    pc.Init? && (pc.init.InitUse? || pc.init.InitId?) ==> Owns(owner, b, pc.init.newId)
  }

  lemma WorkKeepsId(h: Shared, t: Thread, c: Choice)
    requires t.pc.Recv? || t.pc.Caller? || t.pc.Post? || t.pc.Turn?
    ensures var m := MoveOf(h, t, c); m.sh.ctl.id == h.ctl.id && !m.t.pc.Init?
  {
    match t.pc
    case Recv(_) => assert RecvMove(h, t, c) == MoveOf(h, t, c);
    case Caller(_) => assert CallMove(h, t) == MoveOf(h, t, c);
    case Post(_) => assert PostMove(h, t) == MoveOf(h, t, c);
    case Turn(_) => assert TurnMove(h, t, c) == MoveOf(h, t, c);
  }

  lemma NamesMove(h: Shared, t: Thread, c: Choice, owner: map<nat, nat>, b: nat)
    requires NewOwned(t.pc, owner, b) && (h.ctl.id != 0 ==> Owns(owner, b, h.ctl.id))
    requires t.pc.Idle? && c.Accept? ==> Owns(owner, b, c.newId)
    ensures var m := MoveOf(h, t, c);
      NewOwned(m.t.pc, owner, b) && (m.sh.ctl.id != 0 ==> Owns(owner, b, m.sh.ctl.id))
  {
    hide Owns;
    match t.pc
    case Idle => assert BeginMove(h, t, c).sh.ctl.id == h.ctl.id;
    case Init(_) => assert InitMove(h, t) == MoveOf(h, t, c);
    case Release(_) => assert ReleaseMove(h, t).sh.ctl.id == h.ctl.id || ReleaseMove(h, t).sh.ctl.id == 0;
    case Crashed =>
    case _ => WorkKeepsId(h, t, c);
  }

  lemma LogMove(h: Shared, t: Thread, c: Choice)
    ensures NoCallback(t.pc, c) ==> MoveOf(h, t, c).sh.log == h.log
    ensures var s := State(h, [t]);
      CallsBack(t.pc) ==>
        && MoveOf(h, t, Go).sh.log == h.log + [CallbackOf(s, 0)]
        && AfterCallback(MoveOf(h, t, Go).t.pc)
  {
    match t.pc
    case Idle => assert BeginMove(h, t, c) == MoveOf(h, t, c);
    case Init(_) => assert InitMove(h, t) == MoveOf(h, t, c);
    case Recv(_) => assert RecvMove(h, t, c) == MoveOf(h, t, c);
    case Caller(_) => assert CallMove(h, t) == MoveOf(h, t, c);
    case Post(_) => assert PostMove(h, t) == MoveOf(h, t, c);
    case Turn(_) => assert TurnMove(h, t, c) == MoveOf(h, t, c);
    case Release(_) => assert ReleaseMove(h, t) == MoveOf(h, t, c);
    case Crashed =>
  }

  // Where a thread stands from the start of a callback until its next step.
  predicate AfterCallback(pc: Pc) {
    pc == Recv(RecvUse) || pc == Recv(Deliver) || pc == Release(ReleaseId)
  }

  lemma SlotNames(s: State, i: nat, c: Choice, owner: map<nat, nat>, b: nat)
    requires Reachable(s) && Named(s, owner, b) && i < |s.threads|
    requires c.Accept? ==> Owns(owner, b, c.newId)
    requires NoCallback(s.threads[i].pc, c) || (c == Go && CallsBack(s.threads[i].pc) && s.sh.ctl.id != 0)
    ensures Named(Step(s, i, c), owner, b)
  {
    hide MoveOf, Reachable;
    NamesMove(s.sh, s.threads[i], c, owner, b);
    LogMove(s.sh, s.threads[i], c);
  }

  lemma OtherOwners(s: State, owner: map<nat, nat>, b: nat, owner': map<nat, nat>)
    requires Named(s, owner, b) && forall id :: id in owner ==> id in owner' && owner'[id] == owner[id]
    ensures Named(s, owner', b)
  {
  }

  lemma {:induction false} NeverHad(log: seq<Event>, id: nat)
    requires forall e :: e in log ==> e.id != id
    ensures Of(log, id) == []
  {
    if log != [] {
      NeverHad(log[..|log| - 1], id);
    }
  }

  // ---- callbacks ----

  // A callback has an ID, and no other thread of the slot is in one.
  lemma CallbackApart(s: State, i: nat, j: nat)
    requires Reachable(s) && i < |s.threads| && j < |s.threads| && i != j
    requires CallsBack(s.threads[i].pc)
    ensures s.sh.ctl.id != 0 && !AfterCallback(s.threads[j].pc)
  {
    hide SessionInvariant.Total, SessionInvariant.SharedInv;
    ReachableInv(s);
    var o := TwoOf(s.threads, if i < j then i else j, if i < j then j else i);
    assert SessionInvariant.ThreadOk(s.sh, s.threads[i]);
    ApartBy(s.sh, s.threads[i].pc, s.threads[j].pc, o);
    CallbackNamed(s, i);
  }

  lemma ApartBy(h: Shared, pc: Pc, qc: Pc, o: SessionInvariant.Totals)
    requires SessionInvariant.SharedInv(h, SessionInvariant.Plus(SessionInvariant.Holds(pc),
             SessionInvariant.Plus(SessionInvariant.Holds(qc), o))) || SessionInvariant.SharedInv(h,
             SessionInvariant.Plus(SessionInvariant.Holds(qc), SessionInvariant.Plus(SessionInvariant.Holds(pc), o)))
    requires SessionInvariant.Consistent(o) && CallsBack(pc)
    ensures !AfterCallback(qc)
  {
  }

  lemma CallbackNamed(s: State, i: nat)
    requires Reachable(s) && i < |s.threads| && CallsBack(s.threads[i].pc)
    ensures s.sh.ctl.id != 0
  {
    ReachableInv(s);
    if s.threads[i].pc == Recv(Deliver) || s.threads[i].pc == Init(Join) {
      PinnedLive(s, i);
    }
  }
}
