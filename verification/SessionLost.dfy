/** Exactly when a slot is lost: a decrement that does not look at its result takes the count to 0,
    and no caller has passed the SessionID check since. */
module SessionLost {
  import opened Session
  import opened SessionInvariant
  import opened SessionTheorems

  /** SendPacket or KillSession with the slot's own ID gets past the check. */
  predicate Passes(s: State, i: nat)
    requires i < |s.threads|
  {
    var pc := s.threads[i].pc;
    pc.Caller? && pc.caller.CallId? && pc.caller.arg == s.sh.ctl.id
  }

  ghost predicate PassStep(s: State, s': State) {
    exists i: nat, c: Choice :: i < |s.threads| && Passes(s, i) && s' == Step(s, i, c)
  }

  // The thread is idle, or a caller that has not passed.
  predicate Outside(pc: Pc) {
    pc.Idle? || (pc.Caller? && (pc.caller.CallFlag? || pc.caller.CallId? || pc.caller.CallUndo?))
  }

  /** A live slot that nobody works on: threads are idle or callers that may yet be turned away. */
  ghost predicate Stranded(s: State) {
    && !s.sh.ctl.released && s.sh.io == Pending([], [], [])
    && forall j: nat :: j < |s.threads| ==> Outside(s.threads[j].pc)
  }

  // ---- stuck means that everybody is idle ----

  lemma HoldsSomething(pc: Pc)
    requires pc != Crashed && Holds(pc).refs == Holds(pc).owns == Holds(pc).cas == 0
    ensures pc == Idle
  {
  }

  lemma {:induction false} NobodyHolds(ts: seq<Thread>)
    requires Total(ts).refs == Total(ts).owns == Total(ts).cas == 0
    requires forall j: nat :: j < |ts| ==> ts[j].pc != Crashed
    ensures forall j: nat :: j < |ts| ==> ts[j].pc == Idle
  {
    hide Holds;
    if ts != [] {
      assert Total(ts) == Plus(Holds(ts[0].pc), Total(ts[1..]));
      HoldsSomething(ts[0].pc);
      NobodyHolds(ts[1..]);
      assert forall j: nat :: 0 < j < |ts| ==> ts[j] == ts[1..][j - 1];
    }
  }

  lemma StuckIsQuiet(s: State)
    requires Inv(s) && Stuck(s)
    ensures Quiet(s) && Stranded(s)
  {
    NobodyHolds(s.threads);
  }

  lemma QuietStranded(s: State)
    requires Inv(s) && Quiet(s) && Stranded(s)
    ensures Stuck(s) && s.sh.ctl.freeSlots == 0
  {
    TotalNothing(s.threads);
  }

  // ---- nobody who is turned away changes anything ----

  ghost predicate SameSlot(h: Shared, h': Shared) {
    h' == h.(ctl := h.ctl.(refCnt := h'.ctl.refCnt))
  }

  lemma OutsideMove(h: Shared, t: Thread, c: Choice)
    requires Outside(t.pc) && !h.ctl.released && h.ctl.freeSlots == 0 && h.io == Pending([], [], [])
    requires !(t.pc.Caller? && t.pc.caller.CallId? && t.pc.caller.arg == h.ctl.id)
    ensures var m := MoveOf(h, t, c); SameSlot(h, m.sh) && Outside(m.t.pc)
  {
  }

  lemma StrandedStep(s: State, s': State)
    requires Inv(s) && Stranded(s) && Next(s, s') && !PassStep(s, s')
    ensures Stranded(s') && SameSlot(s.sh, s'.sh)
  {
    hide MoveOf, Outside;
    var i: nat, c: Choice :| i < |s.threads| && s' == Step(s, i, c);
    assert !Passes(s, i);
    OutsideMove(s.sh, s.threads[i], c);
  }

  /** A stuck slot stays as it is, live, with its ID and outside FreeSessionStack, for as long as no
      caller passes the check, however many callers are turned away; and whenever all is quiet it
      is stuck again. */
  lemma {:induction false} StuckStays(run: seq<State>, a: nat, b: nat)
    requires Run(run) && a <= b < |run| && Stuck(run[a])
    requires forall k: nat :: a <= k < b ==> !PassStep(run[k], run[k + 1])
    ensures Stranded(run[b]) && SameSlot(run[a].sh, run[b].sh) && run[b].sh.ctl.freeSlots == 0
    ensures Quiet(run[b]) ==> Stuck(run[b])
  {
    hide Next, Inv, Stuck, PassStep, Stranded;
    RunInv(run, b);
    if a == b {
      StuckIsQuiet(run[a]);
    } else {
      StuckStays(run, a, b - 1);
      RunInv(run, b - 1);
      assert Next(run[b - 1], run[b - 1 + 1]) && !PassStep(run[b - 1], run[b - 1 + 1]);
      StrandedStep(run[b - 1], run[b]);
    }
    StrandedOutside(run[b]);
    if Quiet(run[b]) {
      QuietStranded(run[b]);
    }
  }

  lemma StrandedOutside(s: State)
    requires Inv(s) && Stranded(s)
    ensures s.sh.ctl.freeSlots == 0
  {
  }

  // ---- a caller that passes makes it give the slot back ----

  lemma PassHolds(s: State, s': State)
    requires Inv(s) && PassStep(s, s')
    ensures !Stuck(s')
  {
    var i: nat, c: Choice :| i < |s.threads| && Passes(s, i) && s' == Step(s, i, c);
    OthersUnmoved(s.threads, i, s'.threads[i]);
    SplitOff(s.threads, i);
    assert s'.sh == s.sh;
  }

  /** A silent decrement to 0 before move b, and no caller past the check since. */
  ghost predicate Lost(run: seq<State>, b: nat)
    requires b < |run|
  {
    exists k: nat :: k < b && SilentStep(run[k], run[k + 1]) && NoPass(run, k + 1, b)
  }

  ghost predicate NoPass(run: seq<State>, a: nat, b: nat)
    requires b < |run|
  {
    forall p: nat :: a <= p < b ==> !PassStep(run[p], run[p + 1])
  }

  lemma {:induction false} StuckIsLost(run: seq<State>, b: nat)
    requires Run(run) && b < |run|
    ensures Stuck(run[b]) ==> Lost(run, b)
  {
    hide Next, Inv, Stuck, PassStep, SilentStep;
    if b == 0 {
      assert !Stuck(run[0]) by { StartNotStuck(run[0]); }
    } else {
      StuckIsLost(run, b - 1);
      RunInv(run, b - 1);
      assert Next(run[b - 1], run[b - 1 + 1]);
      if SilentStep(run[b - 1], run[b]) {
        assert NoPass(run, b, b);
      } else if PassStep(run[b - 1], run[b]) {
        PassHolds(run[b - 1], run[b]);
      } else if Stuck(run[b - 1]) {
        var k: nat :| k < b - 1 && SilentStep(run[k], run[k + 1]) && NoPass(run, k + 1, b - 1);
        assert NoPass(run, k + 1, b);
      } else {
        NotStuckStep(run[b - 1], run[b]);
      }
    }
  }

  lemma StartNotStuck(s: State)
    requires Start(s)
    ensures !Stuck(s)
  {
  }

  lemma LostIsStuck(run: seq<State>, b: nat)
    requires Run(run) && b < |run| && Quiet(run[b]) && Lost(run, b)
    ensures Stuck(run[b])
  {
    hide Next, Inv, Stuck, PassStep;
    var k: nat :| k < b && SilentStep(run[k], run[k + 1]) && NoPass(run, k + 1, b);
    var i: nat, c: Choice :| i < |run[k].threads| && SilentZero(run[k], i) && run[k + 1] == Step(run[k], i, c);
    RunInv(run, k);
    assert !Stuck(run[k]) by { SilentNotStuck(run[k], i); }
    StuckExactly(run[k], i, c);
    StuckStays(run, k + 1, b);
  }

  lemma SilentNotStuck(s: State, i: nat)
    requires i < |s.threads| && SilentZero(s, i)
    ensures !Stuck(s)
  {
  }

  /** Exactly when a slot is lost: with nothing pending and every thread idle it is missing from
      FreeSessionStack if and only if a silent decrement took the count to 0 and no caller has
      passed the SessionID check since. Otherwise it is there. */
  lemma LostExactly(run: seq<State>, b: nat)
    requires Run(run) && b < |run| && Quiet(run[b])
    ensures run[b].sh.ctl.freeSlots == if Lost(run, b) then 0 else 1
  {
    hide Next, Inv, Lost, Reachable;
    RunInv(run, b);
    assert Reachable(run[b]) by { ReachableAt(run, b); }
    if Lost(run, b) {
      LostIsStuck(run, b);
      StuckIsQuiet(run[b]);
      QuietStranded(run[b]);
    } else {
      StuckIsLost(run, b);
      QuietMeansReleased(run[b], 0);
    }
  }

  lemma ReachableAt(run: seq<State>, b: nat)
    requires Run(run) && b < |run|
    ensures Reachable(run[b])
  {
    var some := run[..b + 1];
    assert Run(some) && some[|some| - 1] == run[b];
  }

  // ---- and KillSession with the live ID does give it back ----

  function LastOf(run: seq<State>): State
    requires run != []
  {
    run[|run| - 1]
  }

  lemma RunOn(run: seq<State>, i: nat, c: Choice) returns (run': seq<State>)
    requires Run(run) && i < |LastOf(run).threads|
    ensures Run(run') && run < run' && LastOf(run') == Step(LastOf(run), i, c)
  {
    hide Start, Step;
    run' := run + [Step(LastOf(run), i, c)];
    assert Next(LastOf(run), LastOf(run'));
    forall k: nat | k + 1 < |run'| ensures Next(run'[k], run'[k + 1]) {
      if k + 1 < |run| {
        assert run'[k] == run[k] && run'[k + 1] == run[k + 1];
      }
    }
  }

  // Thread i, alone, on its way from the last decrement to the push on FreeSessionStack.
  ghost predicate Releasing(s: State, i: nat) {
    && i < |s.threads| && s.threads[i].pc.Release?
    && s.sh.io == Pending([], [], [])
    && (forall j: nat :: j < |s.threads| && j != i ==> s.threads[j].pc == Idle)
    && match s.threads[i].pc.rel
       case Drop => !s.sh.ctl.released && s.sh.ctl.refCnt == 1
       case Cas => !s.sh.ctl.released && s.sh.ctl.refCnt == 0
       case _ => s.sh.ctl.released
  }

  function StepsLeft(p: ReleasePc): nat {
    match p
    case Drop => 6
    case Cas => 5
    case Leave => 4
    case ReleaseId => 3
    case Drain => 2
    case FreeBuffer => 1
    case ReleasePush => 0
  }

  predicate BeforeLeave(p: ReleasePc) {
    p.Drop? || p.Cas? || p.Leave?
  }

  lemma ReleasingStep(s: State, i: nat)
    requires Releasing(s, i)
    requires MoveOf(s.sh, s.threads[i], Go).t.pc != Crashed
    ensures var s', p := Step(s, i, Go), s.threads[i].pc.rel;
      && s'.sh.log == s.sh.log + (if p.Leave? then [Left(s.sh.ctl.id)] else [])
      && (BeforeLeave(p) ==> s'.sh.ctl.id == s.sh.ctl.id)
      && (if p.ReleasePush? then Quiet(s') && s'.sh.ctl.released
          else && Releasing(s', i)
               && (BeforeLeave(s'.threads[i].pc.rel) <==> BeforeLeave(p) && !p.Leave?)
               && (StepsLeft(s'.threads[i].pc.rel) < StepsLeft(p) ||
                   (s'.threads[i].pc.rel == p && |s'.sh.snd.sendQ| < |s.sh.snd.sendQ|)))
  {
    assert ReleaseMove(s.sh, s.threads[i]) == MoveOf(s.sh, s.threads[i], Go);
  }

  lemma {:induction false} Winds(run: seq<State>, i: nat) returns (run': seq<State>)
    requires Run(run) && Releasing(LastOf(run), i)
    ensures Run(run') && run <= run' && Quiet(LastOf(run')) && LastOf(run').sh.ctl.released
    ensures var s := LastOf(run);
      LastOf(run').sh.log == s.sh.log + (if BeforeLeave(s.threads[i].pc.rel) then [Left(s.sh.ctl.id)] else [])
    decreases StepsLeft(LastOf(run).threads[i].pc.rel), |LastOf(run).sh.snd.sendQ|
  {
    hide Start, Next, Quiet, MoveOf, Inv;
    var s := LastOf(run);
    run' := RunOn(run, i, Go);
    assert MoveOf(s.sh, s.threads[i], Go).t.pc != Crashed by {
      ReachableAt(run', |run'| - 1);
      NeverCrashes(LastOf(run'), i);
    }
    ReleasingStep(s, i);
    if !s.threads[i].pc.rel.ReleasePush? {
      run' := Winds(run', i);
    }
  }

  /** From a stuck slot, one thread that calls KillSession with the slot's ID, as Stop and
      CheckHeartBeat do, makes OnClientLeave and the slot returns to FreeSessionStack. */
  lemma KillGivesBack(run: seq<State>, i: nat) returns (run': seq<State>)
    requires Run(run) && Stuck(LastOf(run)) && i < |LastOf(run).threads|
    ensures Run(run') && run < run' && Quiet(LastOf(run')) && LastOf(run').sh.ctl.freeSlots == 1
    ensures LastOf(run').sh.log == LastOf(run).sh.log + [Left(LastOf(run).sh.ctl.id)]
  {
    hide Start, Next, Inv, Step, Reachable, Releasing;
    var s := LastOf(run);
    RunInv(run, |run| - 1);
    StuckIsQuiet(s);
    KillEnters(s, i);
    run' := EnterRun(run, i);
    run' := Winds(run', i);
    ReleasedNotStuck(LastOf(run'));
    ReachableAt(run', |run'| - 1);
    QuietMeansReleased(LastOf(run'), 0);
  }

  lemma ReleasedNotStuck(s: State)
    requires s.sh.ctl.released
    ensures !Stuck(s)
  {
  }

  function AfterEnter(s: State, i: nat): State
    requires i < |s.threads|
  {
    Step(Step(Step(Step(s, i, Enter(Kill, s.sh.ctl.id)), i, Go), i, Go), i, Go)
  }

  lemma EnterRun(run: seq<State>, i: nat) returns (run': seq<State>)
    requires Run(run) && i < |LastOf(run).threads|
    ensures Run(run') && run < run' && LastOf(run') == AfterEnter(LastOf(run), i)
  {
    hide Start, Next, MoveOf;
    run' := RunOn(run, i, Enter(Kill, LastOf(run).sh.ctl.id));
    run' := RunOn(run', i, Go);
    run' := RunOn(run', i, Go);
    run' := RunOn(run', i, Go);
  }

  lemma KillEnters(s: State, i: nat)
    requires Stuck(s) && Quiet(s) && i < |s.threads|
    ensures var s' := AfterEnter(s, i);
      && Releasing(s', i) && s'.threads[i].pc == Release(Drop)
      && s'.sh.log == s.sh.log && s'.sh.ctl.id == s.sh.ctl.id
  {
    var id := s.sh.ctl.id;
    var s1 := Step(s, i, Enter(Kill, id));
    assert s1.threads[i].pc == Caller(CallFlag(Kill, id)) && s1.sh.ctl.refCnt == 1;
    var s2 := Step(s1, i, Go);
    assert s2.threads[i].pc == Caller(CallId(Kill, id)) && s2.sh == s1.sh;
    var s3 := Step(s2, i, Go);
    assert s3.threads[i].pc == Caller(KillUse(id)) && s3.sh == s1.sh;
  }
}
