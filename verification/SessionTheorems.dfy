/** What holds of a session slot in every run, whatever the interleaving. */
module SessionTheorems {
  import opened Session
  import opened SessionInvariant
  import SessionSteps

  // ---- every reachable state satisfies the invariant ----

  lemma StartInv(s: State)
    requires Start(s)
    ensures Inv(s)
  {
    hide SharedInv, TokenInv, Total, Hands;
    TotalNothing(s.threads);
    FreshShared(s.sh);
    forall x: nat ensures TokenInv(s.sh, x, Hands(s.threads, x)) {
      IdleHands(s.threads, x);
      FreshToken(s.sh, x);
    }
  }

  lemma FreshToken(h: Shared, x: nat)
    requires h.tok == Tokens(0, multiset{}) && h.snd.sendQ == [] && h.snd.sendBuffer == []
    ensures TokenInv(h, x, 0)
  {
  }

  lemma FreshShared(h: Shared)
    requires h.ctl.released && h.ctl.refCnt == 0 && h.ctl.id == 0 && h.ctl.lastId == 0 && h.ctl.freeSlots == 1
    requires h.io == Pending([], [], []) && h.snd.sendQ == [] && h.snd.size == 0 && h.snd.sendBuffer == [] &&
             h.log == []
    ensures SharedInv(h, NOTHING)
  {
  }

  lemma {:induction false} IdleHands(ts: seq<Thread>, x: nat)
    requires forall j: nat :: j < |ts| ==> ts[j].pc == Idle
    ensures Hands(ts, x) == 0
  {
    if ts != [] {
      IdleHands(ts[1..], x);
    }
  }

  lemma StepKeeps(s: State, i: nat, c: Choice)
    requires Inv(s) && i < |s.threads|
    ensures Inv(Step(s, i, c))
  {
    hide SharedInv, ThreadOk, TokenInv, MoveOf, Total, Holds;
    var ts, t, o := s.threads, s.threads[i], Others(s.threads, i);
    var m := MoveOf(s.sh, t, c);
    SplitOff(ts, i);
    OthersUnmoved(ts, i, m.t);
    TotalConsistent(ts[..i] + ts[i + 1..]);
    SessionSteps.SharedKept(s.sh, t, o, c);
    forall j: nat | j < |ts| && j != i ensures ThreadOk(m.sh, ts[j]) {
      var rest := ts[..i] + ts[i + 1..];
      var k := if j < i then j else j - 1;
      assert rest[k] == ts[j];
      SplitOff(rest, k);
      SessionSteps.OtherKept(s.sh, t, o, c, ts[j], Others(rest, k));
    }
    var ts' := ts[i := m.t];
    forall x: nat ensures TokenInv(m.sh, x, Hands(ts', x)) {
      HandsSplit(ts, i, x);
      HandsSplit(ts', i, x);
      assert ts'[..i] == ts[..i] && ts'[i + 1..] == ts[i + 1..];
      SessionSteps.TokenKept(s.sh, t, c, x, Hands(ts[..i] + ts[i + 1..], x));
    }
  }

  lemma {:induction false} RunInv(run: seq<State>, k: nat)
    requires Run(run) && k < |run|
    ensures Inv(run[k]) && |run[k].threads| == |run[0].threads|
  {
    if k == 0 {
      StartInv(run[0]);
    } else {
      RunInv(run, k - 1);
      assert Next(run[k - 1], run[k - 1 + 1]);
      var i: nat, c: Choice :| i < |run[k - 1].threads| && run[k] == Step(run[k - 1], i, c);
      StepKeeps(run[k - 1], i, c);
    }
  }

  ghost predicate Reachable(s: State) {
    exists run: seq<State> :: Run(run) && run[|run| - 1] == s
  }

  lemma ReachableInv(s: State)
    requires Reachable(s)
    ensures Inv(s)
  {
    var run: seq<State> :| Run(run) && run[|run| - 1] == s;
    RunInv(run, |run| - 1);
  }

  lemma ReachableStep(s: State, i: nat, c: Choice)
    requires Reachable(s) && i < |s.threads|
    ensures Reachable(Step(s, i, c))
  {
    var run: seq<State> :| Run(run) && run[|run| - 1] == s;
    var run' := run + [Step(s, i, c)];
    forall k: nat | k + 1 < |run'| ensures Next(run'[k], run'[k + 1]) {
      if k + 1 < |run| {
        assert run'[k] == run[k] && run'[k + 1] == run[k + 1];
      }
    }
    assert run'[|run'| - 1] == Step(s, i, c);
  }

  // ---- lifetime ----

  /** The reference count is the number of holders: pending completions, queued notifications
      and the counts threads hold. */
  lemma CountIsHolders(s: State)
    requires Reachable(s)
    ensures s.sh.ctl.refCnt == |s.sh.io.recvIo| + |s.sh.io.sendIo| + |s.sh.io.notes| + Total(s.threads).refs
    ensures s.sh.ctl.released ==> s.sh.io == Pending([], [], []) && Total(s.threads).pinned == 0
  {
    ReachableInv(s);
  }

  lemma IncStays(h: Shared, t: Thread, c: Choice)
    requires Holds(t.pc).pinned > 0
    ensures MoveOf(h, t, c).t.inc == t.inc || Holds(MoveOf(h, t, c).t.pc).pinned == 0
  {
    match t.pc
    case Recv(_) => assert RecvMove(h, t, c).t.inc == t.inc;
    case Caller(_) => assert CallMove(h, t).t.inc == t.inc;
    case Post(_) => assert PostMove(h, t).t.inc == t.inc;
    case Turn(_) => assert TurnMove(h, t, c).t.inc == t.inc;
    case _ =>
  }

  lemma PinnedLive(s: State, i: nat)
    requires Inv(s) && i < |s.threads| && Holds(s.threads[i].pc).pinned > 0
    ensures !s.sh.ctl.released && s.sh.ctl.id == s.threads[i].inc > 0
  {
    SplitOff(s.threads, i);
  }

  ghost predicate PinnedAt(s: State, i: nat) {
    i < |s.threads| && Holds(s.threads[i].pc).pinned > 0
  }

  lemma PinnedStep(s: State, s': State, i: nat)
    requires Inv(s) && Inv(s') && Next(s, s') && i < |s.threads| == |s'.threads|
    requires Holds(s.threads[i].pc).pinned > 0 && Holds(s'.threads[i].pc).pinned > 0
    ensures s'.sh.ctl.id == s.sh.ctl.id && s'.threads[i].inc == s.threads[i].inc
  {
    var j: nat, c: Choice :| j < |s.threads| && s' == Step(s, j, c);
    if j == i {
      IncStays(s.sh, s.threads[i], c);
    }
    PinnedLive(s, i);
    PinnedLive(s', i);
  }

  /** Once a caller has incremented and then seen ReleaseFlag FALSE, its incarnation is neither
      released nor renamed for as long as the count is held, whatever the other threads do. */
  lemma {:induction false} PinnedIncarnation(run: seq<State>, a: nat, b: nat, i: nat)
    requires Run(run) && a <= b < |run| && i < |run[0].threads|
    requires forall k: nat :: a <= k <= b ==> PinnedAt(run[k], i)
    ensures !run[b].sh.ctl.released && run[b].sh.ctl.id == run[a].sh.ctl.id > 0
    ensures PinnedAt(run[b], i) && run[b].threads[i].inc == run[b].sh.ctl.id
  {
    hide Inv, Next, Start, Holds;
    RunInv(run, b);
    assert PinnedAt(run[b], i);
    PinnedLive(run[b], i);
    if a < b {
      PinnedIncarnation(run, a, b - 1, i);
      RunInv(run, b - 1);
      assert PinnedAt(run[b - 1], i) && Next(run[b - 1], run[b - 1 + 1]);
      PinnedStep(run[b - 1], run[b], i);
    }
  }

  /** SendPacket and KillSession act only while SessionID is the ID the caller passed: a stale ID
      neither queues a packet on, nor closes, a later incarnation. */
  lemma StaleIdIsHarmless(s: State, i: nat)
    requires Reachable(s) && i < |s.threads| && s.threads[i].pc.Caller?
    requires var p := s.threads[i].pc.caller; p.SendTake? || p.SendLink? || p.SendSize? || p.SendNotify? || p.KillUse?
    ensures !s.sh.ctl.released && s.sh.ctl.id == s.threads[i].pc.caller.arg
  {
    ReachableInv(s);
    PinnedLive(s, i);
  }

  lemma OnlyItsKillerClosesASession(s: State)
    requires Reachable(s) && !s.sh.ctl.released && !s.sh.ctl.useFlag
    ensures s.sh.ctl.id in s.sh.ctl.kills
  {
    ReachableInv(s);
  }

  /** The slot is in FreeSessionStack at most once, and then nobody is using it. */
  lemma FreeAtMostOnce(s: State)
    requires Reachable(s)
    ensures s.sh.ctl.freeSlots <= 1
    ensures s.sh.ctl.freeSlots == 1 ==>
      && s.sh.ctl.released && s.sh.ctl.id == 0 && s.sh.io == Pending([], [], [])
      && s.sh.snd.sendQ == [] && s.sh.snd.sendBuffer == []
      && Total(s.threads).owns == 0 && Total(s.threads).pinned == 0
  {
    ReachableInv(s);
  }

  /** OnClientLeave runs with no I/O pending, no notification queued, no count relied on, by one
      thread, for the incarnation that joined last. */
  lemma LeaveIsAlone(s: State, i: nat)
    requires Reachable(s) && i < |s.threads| && s.threads[i].pc == Release(Leave)
    ensures s.sh.ctl.released && s.sh.io == Pending([], [], []) && Total(s.threads).pinned == 0
    ensures s.sh.ctl.freeSlots == 0 && Total(s.threads).owns == 1
    ensures Replay(s.sh.log) == Open(s.sh.ctl.id)
  {
    ReachableInv(s);
    SplitOff(s.threads, i);
  }

  /** The receive buffer has one user: the thread that handles a completion or posts a receive
      excludes every other, and a posted receive excludes all of them. */
  lemma ReceiveSideIsExclusive(s: State)
    requires Reachable(s)
    ensures |s.sh.io.recvIo| + Total(s.threads).receives <= 1
  {
    ReachableInv(s);
  }

  // The thread has yet to post a receive, or is still at an earlier completion.
  ghost predicate Receives(t: Thread) {
    Holds(t.pc).receives > 0
  }

  lemma {:induction false} SomeoneReceives(ts: seq<Thread>)
    requires Total(ts).receives > 0
    ensures exists j: nat :: j < |ts| && Receives(ts[j])
  {
    if !Receives(ts[0]) {
      SomeoneReceives(ts[1..]);
      var j: nat :| j < |ts[1..]| && Receives(ts[1..][j]);
      assert ts[j + 1] == ts[1..][j];
    }
  }

  /** No lost receive: a session in use, none of whose receives was refused or ended the stream,
      has one receive pending or one thread that will post it. */
  lemma NoLostReceive(s: State)
    requires Reachable(s) && !s.sh.ctl.released && s.sh.ctl.useFlag && !s.sh.ended
    ensures |s.sh.io.recvIo| == 1 || exists j: nat :: j < |s.threads| && Receives(s.threads[j])
  {
    ReachableInv(s);
    if |s.sh.io.recvIo| == 0 {
      SomeoneReceives(s.threads);
    }
  }

  // ---- after KillSession ----

  // The thread has passed the test of SessionUseFlag and not yet posted.
  predicate PastCheck(pc: Pc) {
    match pc
    case Init(_) => true
    case Recv(p) => p.RecvRef? || p.RecvIo?
    case Post(p) => p.PostXchg?
    case Turn(_) => true
    case _ => false
  }

  // Only InitSession sets SessionUseFlag.
  lemma FlagRises(h: Shared, t: Thread, c: Choice)
    ensures MoveOf(h, t, c).sh.ctl.useFlag ==> h.ctl.useFlag || (t.pc.Init? && t.pc.init.InitUse?)
  {
    match t.pc
    case Idle => assert BeginMove(h, t, c).sh.ctl.useFlag == h.ctl.useFlag;
    case Recv(_) => assert RecvMove(h, t, c).sh.ctl.useFlag == h.ctl.useFlag;
    case Post(_) => assert PostMove(h, t).sh.ctl.useFlag == h.ctl.useFlag;
    case Turn(_) => assert TurnMove(h, t, c).sh.ctl.useFlag == h.ctl.useFlag;
    case Release(_) => assert ReleaseMove(h, t).sh.ctl.useFlag == h.ctl.useFlag;
    case _ =>
  }

  lemma StaysKilled(h: Shared, t: Thread, o: Totals, c: Choice)
    requires CountInv(h, Plus(Holds(t.pc), o)) && !h.ctl.released && !h.ctl.useFlag
    ensures !MoveOf(h, t, c).sh.ctl.useFlag
  {
    hide MoveOf;
    FlagRises(h, t, c);
  }

  lemma NobodyJoins(h: Shared, t: Thread, c: Choice)
    requires !h.ctl.released && !h.ctl.useFlag && !PastCheck(t.pc) && t.pc != Idle
    ensures var m := MoveOf(h, t, c);
      !PastCheck(m.t.pc) && m.sh.io.recvIo == h.io.recvIo && m.sh.io.sendIo == h.io.sendIo
  {
  }

  lemma NobodyBegins(h: Shared, t: Thread, c: Choice)
    requires h.ctl.freeSlots == 0 && t.pc == Idle
    ensures var m := BeginMove(h, t, c);
      !PastCheck(m.t.pc) && |m.sh.io.recvIo| <= |h.io.recvIo| && |m.sh.io.sendIo| <= |h.io.sendIo|
  {
  }

  /** A killed session stays killed for as long as it is live, and only threads that had already
      passed the test of SessionUseFlag may still post a send or a receive on it: nobody joins
      them. */
  lemma KilledWindsDown(s: State, i: nat, c: Choice)
    requires Reachable(s) && !s.sh.ctl.released && !s.sh.ctl.useFlag && i < |s.threads|
    ensures var s' := Step(s, i, c);
      && !s'.sh.ctl.useFlag
      && (!PastCheck(s.threads[i].pc) ==>
            && !PastCheck(s'.threads[i].pc)
            && |s'.sh.io.recvIo| <= |s.sh.io.recvIo| && |s'.sh.io.sendIo| <= |s.sh.io.sendIo|)
  {
    ReachableInv(s);
    SplitOff(s.threads, i);
    TotalConsistent(s.threads[..i] + s.threads[i + 1..]);
    StaysKilled(s.sh, s.threads[i], Others(s.threads, i), c);
    if s.threads[i].pc == Idle {
      NobodyBegins(s.sh, s.threads[i], c);
    } else if !PastCheck(s.threads[i].pc) {
      NobodyJoins(s.sh, s.threads[i], c);
    }
  }

  // ---- callbacks ----

  // The thread makes a callback with its next step.
  predicate CallsBack(pc: Pc) {
    pc == Init(Join) || pc == Recv(Deliver) || pc == Release(Leave)
  }

  lemma CallersApart(pc: Pc, qc: Pc, o: Totals, h: Shared)
    requires CountInv(h, Plus(Holds(pc), Plus(Holds(qc), o))) && Consistent(o)
    ensures !(CallsBack(pc) && CallsBack(qc))
  {
  }

  // What two threads hold, and the others.
  lemma TwoOf(ts: seq<Thread>, i: nat, j: nat) returns (o: Totals)
    requires i < j < |ts|
    ensures Consistent(o) && Total(ts) == Plus(Holds(ts[i].pc), Plus(Holds(ts[j].pc), o))
  {
    hide Holds, Total;
    var rest := ts[..i] + ts[i + 1..];
    assert rest[j - 1] == ts[j];
    SplitOff(ts, i);
    SplitOff(rest, j - 1);
    o := Others(rest, j - 1);
    TotalConsistent(rest[..j - 1] + rest[j..]);
  }

  /** The callbacks of a slot do not overlap: at most one thread is about to make one. */
  lemma CallbackAlone(s: State, i: nat, j: nat)
    requires Reachable(s) && i < j < |s.threads|
    ensures !(CallsBack(s.threads[i].pc) && CallsBack(s.threads[j].pc))
  {
    hide Holds, Total, CallsBack;
    ReachableInv(s);
    var o := TwoOf(s.threads, i, j);
    CallersApart(s.threads[i].pc, s.threads[j].pc, o, s.sh);
  }

  // ---- steps that bundle accesses ----

  // The thread's next step is on SendBuffer or SendPacketCnt; on anything of the send side.
  predicate UsesBuffer(pc: Pc) {
    pc == Init(InitSend) || pc == Post(FreeSent) || pc == Release(FreeBuffer) ||
    (pc.Turn? && (pc.turn.PostDequeue? || pc.turn.PostCnt? || pc.turn.PostIo?))
  }

  predicate UsesSend(pc: Pc) {
    || UsesBuffer(pc) || pc.Turn? || pc == Post(ClearFlag) || pc == Post(PostXchg) || pc == Release(Drain)
    || (pc.Caller? && (pc.caller.SendLink? || pc.caller.SendSize?))
  }

  lemma BundledApart(pc: Pc, qc: Pc, o: Totals, h: Shared)
    requires CountInv(h, Plus(Holds(pc), Plus(Holds(qc), o))) || CountInv(h, Plus(Holds(qc), Plus(Holds(pc), o)))
    requires SendInv(h, Plus(Holds(pc), Plus(Holds(qc), o))) || SendInv(h, Plus(Holds(qc), Plus(Holds(pc), o)))
    requires Consistent(o)
    ensures pc == Init(InitSend) || pc == Release(Drain) || pc == Release(FreeBuffer) ==> !UsesSend(qc)
    ensures pc == Post(FreeSent) ==> !UsesBuffer(qc)
  {
  }

  /** Where one step makes several accesses, to SendFlag, SendPacketCnt, SendQ and SendBuffer in
      InitSession, to SendBuffer in a send completion and in ReleaseSession, no other thread can be
      at that memory: as one step they are the same. */
  lemma BundledIsPrivate(s: State, i: nat, j: nat)
    requires Reachable(s) && i < |s.threads| && j < |s.threads| && i != j
    ensures var pc := s.threads[i].pc;
      && (pc == Init(InitSend) || pc == Release(Drain) || pc == Release(FreeBuffer) ==> !UsesSend(s.threads[j].pc))
      && (pc == Post(FreeSent) ==> !UsesBuffer(s.threads[j].pc))
  {
    hide Holds, Total, UsesSend, UsesBuffer, Reachable;
    ReachableInv(s);
    var o := TwoOf(s.threads, if i < j then i else j, if i < j then j else i);
    BundledApart(s.threads[i].pc, s.threads[j].pc, o, s.sh);
  }

  function Of(log: seq<Event>, id: nat): seq<Event> {
    if log == [] then []
    else Of(log[..|log| - 1], id) + (if log[|log| - 1].id == id then [log[|log| - 1]] else [])
  }

  /** OnClientJoin, then OnRecv any number of times, then at most one OnClientLeave. */
  predicate Orderly(q: seq<Event>, id: nat) {
    q == [] ||
    (q[0] == Joined(id) &&
     forall k: nat :: 0 < k < |q| ==> q[k] == Received(id) || (k == |q| - 1 && q[k] == Left(id)))
  }

  lemma {:induction false} ReplayIsOrderly(log: seq<Event>, id: nat)
    requires Replay(log) != Bad
    ensures Orderly(Of(log, id), id)
    ensures match Replay(log)
            case Open(cur) =>
              && (id > cur ==> Of(log, id) == [])
              && (id == cur ==> Of(log, id) != [] && !Of(log, id)[|Of(log, id)| - 1].Left?)
            case Closed(last) => id > last ==> Of(log, id) == []
            case Bad => true
  {
    if log != [] {
      ReplayIsOrderly(log[..|log| - 1], id);
    }
  }

  lemma CallbackOrder(s: State, id: nat)
    requires Reachable(s)
    ensures Orderly(Of(s.sh.log, id), id)
  {
    ReachableInv(s);
    ReplayIsOrderly(s.sh.log, id);
  }

  // ---- sending ----

  /** At most one thread is past the SendFlag exchange, and none while a send is pending. */
  lemma OneSender(s: State)
    requires Reachable(s) && !s.sh.ctl.released
    ensures Total(s.threads).probing + Total(s.threads).buffering + |s.sh.io.sendIo| <= 1
    ensures s.sh.snd.sendFlag <==>
            Total(s.threads).probing + Total(s.threads).buffering + |s.sh.io.sendIo| == 1 || s.sh.snd.failed
  {
    ReachableInv(s);
  }

  /** No thread ever takes a branch that crashes: SendPost's Dequeue never fails, SendQ.Clear
      finds nothing, and the session ID is OR-ed onto a cleared counter. */
  lemma NeverCrashes(s: State, i: nat)
    requires Reachable(s) && i < |s.threads|
    ensures s.threads[i].pc != Crashed
  {
    ReachableInv(s);
  }

  // The thread will still post a notification, look at the queue, or post a send.
  ghost predicate Attends(t: Thread) {
    Holds(t.pc).wakes + Holds(t.pc).probing + Holds(t.pc).buffering > 0
  }

  lemma {:induction false} SomeoneActs(ts: seq<Thread>)
    requires Total(ts).wakes + Total(ts).probing + Total(ts).buffering > 0
    ensures exists j: nat :: j < |ts| && Attends(ts[j])
  {
    if !Attends(ts[0]) {
      SomeoneActs(ts[1..]);
      var j: nat :| j < |ts[1..]| && Attends(ts[1..][j]);
      assert ts[j + 1] == ts[1..][j];
    }
  }

  /** No lost wakeup: a packet queued on a session in use is waited for by a notification, by a
      pending send, or by a thread that will still post one or look at the queue. */
  lemma NoLostWakeup(s: State)
    requires Reachable(s) && !s.sh.ctl.released && s.sh.ctl.useFlag && s.sh.snd.sendQ != [] && !s.sh.snd.failed
    ensures s.sh.io.notes != [] || s.sh.io.sendIo != [] ||
            exists j: nat :: j < |s.threads| && Attends(s.threads[j])
  {
    ReachableInv(s);
    if s.sh.io.notes == [] && s.sh.io.sendIo == [] {
      SomeoneActs(s.threads);
    }
  }

  /** Packets reach WSASend in queue order: what was linked is what was passed, then what sits in
      a SendBuffer not yet passed, then the queue. */
  lemma SendOrder(s: State)
    requires Reachable(s) && !s.sh.ctl.released
    ensures s.sh.snd.passed <= s.sh.snd.linked
    ensures exists waiting: seq<nat> :: s.sh.snd.linked == s.sh.snd.passed + waiting + s.sh.snd.sendQ &&
              (waiting == [] || (waiting == s.sh.snd.sendBuffer && Total(s.threads).unpassed == 1))
  {
    ReachableInv(s);
    TotalConsistent(s.threads);
    var waiting := if Total(s.threads).unpassed == 0 then [] else s.sh.snd.sendBuffer;
    assert s.sh.snd.linked == s.sh.snd.passed + waiting + s.sh.snd.sendQ;
  }

  /** Every reference SendPacket took is in exactly one place: a caller's hands, SendQ,
      SendBuffer, or given back. */
  lemma ReferenceInOnePlace(s: State, x: nat)
    requires Reachable(s)
    ensures Places(s.sh, x) + Hands(s.threads, x) == if x < s.sh.tok.taken then 1 else 0
  {
    ReachableInv(s);
    assert TokenInv(s.sh, x, Hands(s.threads, x));
  }

  // ---- release ----

  /** A live slot with count 0 that no thread is about to release. */
  ghost predicate Stuck(s: State) {
    !s.sh.ctl.released && s.sh.ctl.refCnt == 0 && Total(s.threads).cas == 0
  }

  /** The decrement that does not look at its result, reaching 0 on a live slot. */
  ghost predicate SilentZero(s: State, i: nat)
    requires i < |s.threads|
  {
    && s.threads[i].pc == Caller(CallUndo)
    && !s.sh.ctl.released && s.sh.ctl.refCnt == 1 && Total(s.threads).cas == 0
  }

  // `cas` threads are about to release.
  ghost predicate StuckIn(h: Shared, cas: nat) {
    !h.ctl.released && h.ctl.refCnt == 0 && cas == 0
  }

  lemma ReleaseCas(h: Shared, t: Thread, o: Totals, c: Choice)
    requires CountInv(h, Plus(Holds(t.pc), o)) && t.pc.Release? && !StuckIn(h, Holds(t.pc).cas + o.cas)
    ensures var m := MoveOf(h, t, c); m.t.pc != Crashed ==> !StuckIn(m.sh, Holds(m.t.pc).cas + o.cas)
  {
    assert ReleaseMove(h, t) == MoveOf(h, t, c);
  }

  lemma CallerCas(h: Shared, t: Thread, o: Totals, c: Choice)
    requires CountInv(h, Plus(Holds(t.pc), o)) && t.pc.Caller? && !StuckIn(h, o.cas)
    ensures var m := MoveOf(h, t, c);
      StuckIn(m.sh, Holds(m.t.pc).cas + o.cas) <==>
      (t.pc == Caller(CallUndo) && !h.ctl.released && h.ctl.refCnt == 1 && o.cas == 0)
  {
    assert CallMove(h, t) == MoveOf(h, t, c);
  }

  lemma BeginCas(h: Shared, t: Thread, o: Totals, c: Choice)
    requires CountInv(h, Plus(Holds(t.pc), o)) && (t.pc.Idle? || t.pc.Init?) && !StuckIn(h, o.cas)
    ensures var m := MoveOf(h, t, c); m.t.pc != Crashed ==> !StuckIn(m.sh, Holds(m.t.pc).cas + o.cas)
  {
    match t.pc
    case Idle => assert BeginMove(h, t, c) == MoveOf(h, t, c);
    case Init(_) => assert InitMove(h, t) == MoveOf(h, t, c);
  }

  // Such a thread keeps a count through its step.
  lemma StillHolds(h: Shared, t: Thread, c: Choice)
    requires t.pc.Recv? || t.pc.Post? || t.pc.Turn?
    ensures var m := MoveOf(h, t, c); m.t.pc != Crashed ==> Holds(m.t.pc).refs >= 1
  {
    hide Holds;
    WorkHolds(MoveOf(h, t, c).t.pc);
    match t.pc
    case Recv(_) => assert AtWork(RecvMove(h, t, c).t.pc);
    case Post(_) => assert PostMove(h, t).t.pc == Crashed || AtWork(PostMove(h, t).t.pc);
    case Turn(_) => assert TurnMove(h, t, c).t.pc == Crashed || AtWork(TurnMove(h, t, c).t.pc);
  }

  predicate AtWork(pc: Pc) {
    pc.Recv? || pc.Post? || pc.Turn? || pc == Release(Drop)
  }

  lemma WorkHolds(pc: Pc)
    ensures AtWork(pc) ==> Holds(pc).refs >= 1
  {
  }

  lemma StuckMove(h: Shared, t: Thread, o: Totals, c: Choice)
    requires CountInv(h, Plus(Holds(t.pc), o)) && !StuckIn(h, Holds(t.pc).cas + o.cas) && t.pc != Crashed
    requires var m := MoveOf(h, t, c); m.t.pc != Crashed && CountInv(m.sh, Plus(Holds(m.t.pc), o))
    ensures var m := MoveOf(h, t, c);
      StuckIn(m.sh, Holds(m.t.pc).cas + o.cas) <==>
      (t.pc == Caller(CallUndo) && !h.ctl.released && h.ctl.refCnt == 1 && o.cas == 0)
  {
    hide MoveOf;
    match t.pc
    case Release(_) => ReleaseCas(h, t, o, c);
    case Caller(_) => CallerCas(h, t, o, c);
    case Idle => BeginCas(h, t, o, c);
    case Init(_) => BeginCas(h, t, o, c);
    case _ => StillHolds(h, t, c);
  }

  lemma NoCas(pc: Pc)
    ensures pc == Caller(CallUndo) ==> Holds(pc).cas == 0
  {
  }

  /** Exactly when a step leaves the slot stuck: a silent decrement to 0, and nothing else. */
  lemma StuckExactly(s: State, i: nat, c: Choice)
    requires Inv(s) && i < |s.threads| && !Stuck(s)
    ensures Stuck(Step(s, i, c)) <==> SilentZero(s, i)
  {
    hide MoveOf, Holds, Total, RecvInv, IdInv, SendInv, QueueInv, LogInv, TokenInv;
    SplitOff(s.threads, i);
    OthersUnmoved(s.threads, i, MoveOf(s.sh, s.threads[i], c).t);
    TotalConsistent(s.threads[..i] + s.threads[i + 1..]);
    SessionSteps.SharedKept(s.sh, s.threads[i], Others(s.threads, i), c);
    NoCas(s.threads[i].pc);
    StuckMove(s.sh, s.threads[i], Others(s.threads, i), c);
  }

  ghost predicate SilentStep(s: State, s': State) {
    exists i: nat, c: Choice :: i < |s.threads| && SilentZero(s, i) && s' == Step(s, i, c)
  }

  /** A run without such a decrement never leaves the slot stuck. */
  lemma {:induction false} NeverStuck(run: seq<State>, k: nat)
    requires Run(run) && k < |run|
    requires forall n: nat :: 0 < n < |run| ==> !SilentStep(run[n - 1], run[n])
    ensures !Stuck(run[k])
  {
    if k > 0 {
      NeverStuck(run, k - 1);
      RunInv(run, k - 1);
      assert Next(run[k - 1], run[k - 1 + 1]);
      NotStuckStep(run[k - 1], run[k]);
    }
  }

  lemma NotStuckStep(s: State, s': State)
    requires Inv(s) && !Stuck(s) && Next(s, s') && !SilentStep(s, s')
    ensures !Stuck(s')
  {
    var i: nat, c: Choice :| i < |s.threads| && s' == Step(s, i, c);
    StuckExactly(s, i, c);
  }

  ghost predicate Quiet(s: State) {
    s.sh.io == Pending([], [], []) && forall j: nat :: j < |s.threads| ==> s.threads[j].pc == Idle
  }

  /** When nothing is pending and every thread is idle, a slot that is not stuck is back in
      FreeSessionStack and every reference ever taken has been given back exactly once. */
  lemma QuietMeansReleased(s: State, x: nat)
    requires Reachable(s) && Quiet(s) && !Stuck(s)
    ensures s.sh.ctl.freeSlots == 1
    ensures s.sh.tok.freed[x] == if x < s.sh.tok.taken then 1 else 0
  {
    hide Reachable, Replay, ThreadOk, Holds, Hand;
    ReachableInv(s);
    TotalNothing(s.threads);
    IdleHands(s.threads, x);
    assert TokenInv(s.sh, x, Hands(s.threads, x));
  }
}
