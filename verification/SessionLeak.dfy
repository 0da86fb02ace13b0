/** A run that leaves a slot live with count 0: the decrement of a caller with a stale ID is the
    last one, and it does not look at its result. */
module SessionLeak {
  import opened Session
  import opened SessionInvariant
  import opened SessionTheorems

  const FRESH := Control(false, true, 0, 0, 0, 1, {})
  const NO_IO := Pending([], [], [])
  const NO_SEND := Sender(false, [], 0, [], 0, false, [], [])

  function Two(ctl: Control, io: Pending, log: seq<Event>, a: Pc, b: Pc): State {
    State(Shared(ctl, io, NO_SEND, Tokens(0, multiset{}), log, false), [Thread(a, 8), Thread(b, 8)])
  }

  // Once the receive has completed with 0 bytes.
  function Ended(ctl: Control, a: Pc, b: Pc): State {
    State(Shared(ctl, NO_IO, NO_SEND, Tokens(0, multiset{}), [Joined(8)], true), [Thread(a, 8), Thread(b, 8)])
  }

  lemma FreshReachable()
    ensures Reachable(Two(FRESH, NO_IO, [], Idle, Idle))
  {
    var s0 := Two(FRESH, NO_IO, [], Idle, Idle);
    assert Start(s0);
    var run := [s0];
    assert Run(run) && run[|run| - 1] == s0;
  }

  // The accept thread, up to the write of ReleaseFlag.
  lemma Accepted()
    ensures Reachable(Two(Control(true, true, 1, 8, 8, 0, {}), NO_IO, [], Init(InitRelease), Idle))
  {
    FreshReachable();
    var s0 := Two(FRESH, NO_IO, [], Idle, Idle);
    ReachableStep(s0, 0, Accept(8));
    var s1 := Two(Control(false, true, 0, 0, 8, 0, {}), NO_IO, [], Init(InitUse(8)), Idle);
    assert Step(s0, 0, Accept(8)) == s1;
    ReachableStep(s1, 0, Go);
    var s2 := Two(Control(true, true, 0, 0, 8, 0, {}), NO_IO, [], Init(InitId(8)), Idle);
    assert Step(s1, 0, Go) == s2;
    ReachableStep(s2, 0, Go);
    var s3 := Two(Control(true, true, 0, 8, 8, 0, {}), NO_IO, [], Init(InitSend), Idle);
    assert Step(s2, 0, Go) == s3;
    ReachableStep(s3, 0, Go);
    var s4 := Two(Control(true, true, 0, 8, 8, 0, {}), NO_IO, [], Init(InitRef), Idle);
    assert Step(s3, 0, Go) == s4;
    ReachableStep(s4, 0, Go);
    assert Step(s4, 0, Go) == Two(Control(true, true, 1, 8, 8, 0, {}), NO_IO, [], Init(InitRelease), Idle);
  }

  // OnClientJoin has returned, a receive is posted, the accept thread has yet to drop its count.
  lemma Receiving()
    ensures Reachable(Two(Control(true, false, 2, 8, 8, 0, {}), Pending([8], [], []), [Joined(8)], Release(Drop), Idle))
  {
    Accepted();
    var s5 := Two(Control(true, true, 1, 8, 8, 0, {}), NO_IO, [], Init(InitRelease), Idle);
    ReachableStep(s5, 0, Go);
    var s6 := Two(Control(true, false, 1, 8, 8, 0, {}), NO_IO, [], Init(Join), Idle);
    assert Step(s5, 0, Go) == s6;
    ReachableStep(s6, 0, Go);
    var s7 := Two(Control(true, false, 1, 8, 8, 0, {}), NO_IO, [Joined(8)], Recv(RecvUse), Idle);
    assert Step(s6, 0, Go) == s7;
    ReachableStep(s7, 0, Go);
    var s8 := Two(Control(true, false, 1, 8, 8, 0, {}), NO_IO, [Joined(8)], Recv(RecvRef), Idle);
    assert Step(s7, 0, Go) == s8;
    ReachableStep(s8, 0, Go);
    var s9 := Two(Control(true, false, 2, 8, 8, 0, {}), NO_IO, [Joined(8)], Recv(RecvIo), Idle);
    assert Step(s8, 0, Go) == s9;
    ReachableStep(s9, 0, Go);
    assert Step(s9, 0, Go) == Two(Control(true, false, 2, 8, 8, 0, {}), Pending([8], [], []), [Joined(8)],
        Release(Drop), Idle);
  }

  // A caller with the stale ID 7 has incremented and found the wrong SessionID.
  lemma StaleCaller()
    ensures Reachable(Two(Control(true, false, 2, 8, 8, 0, {}), Pending([8], [], []), [Joined(8)], Idle,
            Caller(CallUndo)))
  {
    Receiving();
    var io, log := Pending([8], [], []), [Joined(8)];
    var s10 := Two(Control(true, false, 2, 8, 8, 0, {}), io, log, Release(Drop), Idle);
    ReachableStep(s10, 1, Enter(Send, 7));
    var s11 := Two(Control(true, false, 3, 8, 8, 0, {}), io, log, Release(Drop), Caller(CallFlag(Send, 7)));
    assert Step(s10, 1, Enter(Send, 7)) == s11;
    ReachableStep(s11, 1, Go);
    var s12 := Two(Control(true, false, 3, 8, 8, 0, {}), io, log, Release(Drop), Caller(CallId(Send, 7)));
    assert Step(s11, 1, Go) == s12;
    ReachableStep(s12, 1, Go);
    var s13 := Two(Control(true, false, 3, 8, 8, 0, {}), io, log, Release(Drop), Caller(CallUndo));
    assert Step(s12, 1, Go) == s13;
    ReachableStep(s13, 0, Go);
    assert Step(s13, 0, Go) == Two(Control(true, false, 2, 8, 8, 0, {}), io, log, Idle, Caller(CallUndo));
  }

  // The peer closes: the completion's count is dropped, the stale caller's is the last one.
  lemma PeerCloses()
    ensures Reachable(Ended(Control(true, false, 1, 8, 8, 0, {}), Idle, Caller(CallUndo)))
  {
    StaleCaller();
    var log := [Joined(8)];
    var s14 := Two(Control(true, false, 2, 8, 8, 0, {}), Pending([8], [], []), log, Idle, Caller(CallUndo));
    ReachableStep(s14, 0, RecvDone(0, true));
    var s15 := Ended(Control(true, false, 2, 8, 8, 0, {}), Release(Drop), Caller(CallUndo));
    assert Without([8], 0) == [];
    assert Step(s14, 0, RecvDone(0, true)) == s15;
    ReachableStep(s15, 0, Go);
    assert Step(s15, 0, Go) == Ended(Control(true, false, 1, 8, 8, 0, {}), Idle, Caller(CallUndo));
  }

  lemma LastDecrement() returns (s: State)
    ensures Reachable(s) && Quiet(s) && s.sh.ctl == Control(true, false, 0, 8, 8, 0, {})
  {
    PeerCloses();
    var s16 := Ended(Control(true, false, 1, 8, 8, 0, {}), Idle, Caller(CallUndo));
    ReachableStep(s16, 1, Go);
    s := Ended(Control(true, false, 0, 8, 8, 0, {}), Idle, Idle);
    assert Step(s16, 1, Go) == s;
  }

  /** The peer closes while a stale caller holds a count: nothing is pending, every thread is idle,
      and the slot is live with count 0, outside FreeSessionStack. SessionLost says how long it
      stays there. */
  lemma LeakHappens()
    ensures exists s: State :: Reachable(s) && Quiet(s) && Stuck(s) && s.sh.ctl.freeSlots == 0
  {
    var s := LastDecrement();
    TotalNothing(s.threads);
    assert Stuck(s);
  }
}
