/** RefCnt of one Packet through all its lives: allocated, held, sent to any number of sessions,
    given back to the pool. The references SendPacket takes are those of the session machines. */
module PacketRefs {
  import opened Session
  import opened SessionInvariant
  import opened SessionTheorems

  /** `carried` says per slot which of its references are on this packet; `own` counts the holders
      outside SendPacket: AllocPacket's and the jobs that keep it. `allocs` and `gives` count Alloc and
      Free of the pool. */
  datatype Refs = Refs(
    slots: seq<State>, carried: seq<set<nat>>,
    refCnt: int, own: nat, pooled: bool, allocs: nat, gives: nat)

  /** `mine` says that it is this packet on which SendPacket takes its reference. */
  datatype Act = Alloc | Keep | Drop | OnSlot(slot: nat, who: nat, what: Choice, mine: bool)

  ghost predicate Start(r: Refs) {
    && |r.slots| == |r.carried| && r.refCnt == 0 && r.own == 0 && r.pooled && r.allocs == r.gives == 0
    && (forall a: nat :: a < |r.slots| ==> Reachable(r.slots[a]) && r.carried[a] == {})
  }

  predicate AtTake(s: State, i: nat) {
    i < |s.threads| && s.threads[i].pc.Caller? && s.threads[i].pc.caller.SendTake?
  }

  /** Only a holder keeps, drops or sends the packet. */
  predicate Enabled(r: Refs, a: Act) {
    match a
    case Alloc => r.pooled
    case Keep => r.own > 0
    case Drop => r.own > 0
    case OnSlot(b, i, _, mine) =>
      && b < |r.slots| == |r.carried| && i < |r.slots[b].threads|
      && (mine ==> r.own > 0 && AtTake(r.slots[b], i))
  }

  // FreePacket.
  function Freed(r: Refs): Refs {
    if r.refCnt - 1 != 0 then r.(refCnt := r.refCnt - 1) else r.(refCnt := 0, pooled := true, gives := r.gives + 1)
  }

  function FreedTimes(r: Refs, k: nat): Refs
    decreases k
  {
    if k == 0 then r else FreedTimes(Freed(r), k - 1)
  }

  // The references among `carried` on which FreePacket is called in a step from s to s'. It is
  // called once for each (SessionTheorems.ReferenceInOnePlace).
  ghost function GivenBack(s: State, s': State, carried: set<nat>): set<nat> {
    set x | x in carried && s'.sh.tok.freed[x] > s.sh.tok.freed[x]
  }

  ghost function After(r: Refs, a: Act): Refs
    requires Enabled(r, a)
  {
    match a
    case Alloc => r.(refCnt := r.refCnt + 1, own := r.own + 1, pooled := false, allocs := r.allocs + 1)
    case Keep => r.(refCnt := r.refCnt + 1, own := r.own + 1)
    case Drop => Freed(r.(own := r.own - 1))
    case OnSlot(b, i, c, mine) =>
      var s := r.slots[b];
      var s' := Step(s, i, c);
      if mine then
        r.(slots := r.slots[b := s'], carried := r.carried[b := r.carried[b] + {s.sh.tok.taken}],
           refCnt := r.refCnt + 1)
      else FreedTimes(r.(slots := r.slots[b := s']), |GivenBack(s, s', r.carried[b])|)
  }

  ghost predicate Run(run: seq<Refs>, acts: seq<Act>) {
    && |run| == |acts| + 1
    && Start(run[0])
    && forall k: nat :: k < |acts| ==> Enabled(run[k], acts[k]) && run[k + 1] == After(run[k], acts[k])
  }

  // ---- references outstanding ----

  ghost function Out(s: State, carried: set<nat>): set<nat> {
    set x | x in carried && s.sh.tok.freed[x] == 0
  }

  ghost function Outs(slots: seq<State>, carried: seq<set<nat>>): nat
    requires |slots| == |carried|
  {
    if slots == [] then 0 else |Out(slots[0], carried[0])| + Outs(slots[1..], carried[1..])
  }

  lemma {:induction false} OutsChanged(slots: seq<State>, carried: seq<set<nat>>, b: nat, s: State, c: set<nat>)
    requires |slots| == |carried| && b < |slots|
    ensures Outs(slots[b := s], carried[b := c]) + |Out(slots[b], carried[b])| ==
            Outs(slots, carried) + |Out(s, c)|
  {
    hide Out;
    if b == 0 {
      assert slots[0 := s][1..] == slots[1..] && carried[0 := c][1..] == carried[1..];
    } else {
      OutsChanged(slots[1..], carried[1..], b - 1, s, c);
      assert slots[b := s][1..] == slots[1..][b - 1 := s] && carried[b := c][1..] == carried[1..][b - 1 := c];
    }
  }

  lemma {:induction false} OutsAt(slots: seq<State>, carried: seq<set<nat>>, b: nat)
    requires |slots| == |carried| && b < |slots|
    ensures Outs(slots, carried) >= |Out(slots[b], carried[b])|
  {
    if b > 0 {
      OutsAt(slots[1..], carried[1..], b - 1);
    }
  }

  lemma {:induction false} OutsNone(slots: seq<State>, carried: seq<set<nat>>)
    requires |slots| == |carried|
    ensures Outs(slots, carried) == 0 <==> forall b: nat :: b < |slots| ==> Out(slots[b], carried[b]) == {}
  {
    hide Out;
    if slots != [] {
      OutsNone(slots[1..], carried[1..]);
      assert forall b: nat :: 0 < b < |slots| ==> slots[b] == slots[1..][b - 1] && carried[b] == carried[1..][b - 1];
    }
  }

  // ---- what every step keeps ----

  /** RefCnt is the holders and the references that sessions have not given back; the packet is in the
      pool exactly at 0 and was given back once for each time it was allocated. */
  ghost predicate Inv(r: Refs) {
    && |r.slots| == |r.carried|
    && (forall b: nat :: b < |r.slots| ==> SlotOk(r.slots[b], r.carried[b]))
    && r.refCnt == r.own + Outs(r.slots, r.carried)
    && Lives(r)
  }

  ghost predicate SlotOk(s: State, carried: set<nat>) {
    Reachable(s) && forall x :: x in carried ==> x < s.sh.tok.taken
  }

  ghost predicate Lives(r: Refs) {
    (r.pooled <==> r.refCnt == 0) && r.gives + Bit(!r.pooled) == r.allocs
  }

  lemma {:induction false} FreedTimesKeeps(r: Refs, k: nat)
    requires Lives(r) && k <= r.refCnt
    ensures var f := FreedTimes(r, k);
      Lives(f) && f == r.(refCnt := r.refCnt - k, pooled := f.pooled, gives := f.gives)
    decreases k
  {
    if k > 0 {
      FreedTimesKeeps(Freed(r), k - 1);
    }
  }

  // One step of a slot: references taken and given back.
  lemma SlotStep(s: State, i: nat, c: Choice, carried: set<nat>, mine: bool)
    requires SlotOk(s, carried) && i < |s.threads| && (mine ==> AtTake(s, i))
    ensures var s' := Step(s, i, c);
      if mine then
        var more := carried + {s.sh.tok.taken};
        SlotOk(s', more) && |Out(s', more)| == |Out(s, carried)| + 1
      else
        && SlotOk(s', carried) && |Out(s, carried)| == |Out(s', carried)| + |GivenBack(s, s', carried)|
  {
    hide Reachable, Inv, MoveOf;
    var s' := Step(s, i, c);
    ReachableStep(s, i, c);
    TokenStep(s, i, c);
    forall x: nat
      ensures s'.sh.tok.freed[x] <= 1 && (s'.sh.tok.freed[x] > 0 ==> x < s'.sh.tok.taken)
      ensures s.sh.tok.freed[x] <= 1 && (s.sh.tok.freed[x] > 0 ==> x < s.sh.tok.taken)
    {
      ReferenceInOnePlace(s, x);
      ReferenceInOnePlace(s', x);
    }
    if mine {
      assert Out(s', carried + {s.sh.tok.taken}) == Out(s, carried) + {s.sh.tok.taken};
    } else {
      assert Out(s, carried) == Out(s', carried) + GivenBack(s, s', carried);
      assert Out(s', carried) !! GivenBack(s, s', carried);
    }
  }

  lemma TokenStep(s: State, i: nat, c: Choice)
    requires i < |s.threads|
    ensures var s' := Step(s, i, c);
      && s.sh.tok.taken <= s'.sh.tok.taken
      && (forall x: nat :: s.sh.tok.freed[x] <= s'.sh.tok.freed[x])
      && (AtTake(s, i) ==> s'.sh.tok == s.sh.tok.(taken := s.sh.tok.taken + 1))
  {
    match s.threads[i].pc
    case Idle => assert BeginMove(s.sh, s.threads[i], c) == MoveOf(s.sh, s.threads[i], c);
    case Init(_) => assert InitMove(s.sh, s.threads[i]) == MoveOf(s.sh, s.threads[i], c);
    case Recv(_) => assert RecvMove(s.sh, s.threads[i], c) == MoveOf(s.sh, s.threads[i], c);
    case Caller(_) => assert CallMove(s.sh, s.threads[i]) == MoveOf(s.sh, s.threads[i], c);
    case Post(_) => assert PostMove(s.sh, s.threads[i]) == MoveOf(s.sh, s.threads[i], c);
    case Turn(_) => assert TurnMove(s.sh, s.threads[i], c) == MoveOf(s.sh, s.threads[i], c);
    case Release(_) => assert ReleaseMove(s.sh, s.threads[i]) == MoveOf(s.sh, s.threads[i], c);
    case Crashed =>
  }

  lemma StepKeeps(r: Refs, a: Act)
    requires Inv(r) && Enabled(r, a)
    ensures Inv(After(r, a))
  {
    hide SlotOk, Out, Outs, Step, GivenBack;
    match a
    case OnSlot(b, i, c, mine) =>
      var s := r.slots[b];
      var s' := Step(s, i, c);
      SlotStep(s, i, c, r.carried[b], mine);
      OutsAt(r.slots, r.carried, b);
      if mine {
        OutsChanged(r.slots, r.carried, b, s', r.carried[b] + {s.sh.tok.taken});
      } else {
        OutsChanged(r.slots, r.carried, b, s', r.carried[b]);
        assert r.carried[b := r.carried[b]] == r.carried;
        FreedTimesKeeps(r.(slots := r.slots[b := s']), |GivenBack(s, s', r.carried[b])|);
      }
    case _ =>
  }

  lemma {:induction false} RunInv(run: seq<Refs>, acts: seq<Act>, k: nat)
    requires Run(run, acts) && k < |run|
    ensures Inv(run[k])
  {
    hide After, Enabled, SlotOk;
    if k == 0 {
      StartInv(run[0]);
    } else {
      RunInv(run, acts, k - 1);
      StepKeeps(run[k - 1], acts[k - 1]);
      assert run[k - 1 + 1] == run[k];
    }
  }

  lemma StartInv(r: Refs)
    requires Start(r)
    ensures Inv(r)
  {
    OutsNone(r.slots, r.carried);
  }

  // ---- the packet's life ----

  /** In every run, whatever the sessions do and however many the packet is sent to, it is in the pool
      exactly when nobody holds it, no session included, and RefCnt counts those who do. */
  lemma PooledExactly(run: seq<Refs>, acts: seq<Act>, k: nat)
    requires Run(run, acts) && k < |run|
    ensures var r := run[k];
      && |r.slots| == |r.carried|
      && r.refCnt == r.own + Outs(r.slots, r.carried)
      && (r.pooled <==> r.own == 0 && forall b: nat :: b < |r.slots| ==> Out(r.slots[b], r.carried[b]) == {})
  {
    RunInv(run, acts, k);
    OutsNone(run[k].slots, run[k].carried);
  }

  /** It goes back to the pool exactly in the steps that take RefCnt to 0, once in each, and so exactly
      once for each time it was allocated. */
  lemma GivenOnce(run: seq<Refs>, acts: seq<Act>, k: nat)
    requires Run(run, acts) && k < |acts|
    ensures run[k + 1].gives == run[k].gives + (if run[k].refCnt > 0 && run[k + 1].refCnt == 0 then 1 else 0)
    ensures run[k].gives <= run[k].allocs <= run[k].gives + 1
    ensures run[k].allocs == run[k].gives <==> run[k].pooled
  {
    hide SlotOk, Out;
    RunInv(run, acts, k);
    RunInv(run, acts, k + 1);
    AllocsOnly(run[k], acts[k]);
  }

  lemma {:induction false} FreedTimesAllocs(r: Refs, k: nat)
    ensures FreedTimes(r, k).allocs == r.allocs && FreedTimes(r, k).gives >= r.gives
    decreases k
  {
    if k > 0 {
      FreedTimesAllocs(Freed(r), k - 1);
    }
  }

  lemma AllocsOnly(r: Refs, a: Act)
    requires Enabled(r, a)
    ensures After(r, a).allocs == r.allocs + Bit(a.Alloc?) && After(r, a).gives >= r.gives
    ensures a.Alloc? ==> !After(r, a).pooled && r.pooled
  {
    match a
    case OnSlot(b, i, c, mine) =>
      if !mine {
        FreedTimesAllocs(r.(slots := r.slots[b := Step(r.slots[b], i, c)]),
                         |GivenBack(r.slots[b], Step(r.slots[b], i, c), r.carried[b])|);
      }
    case _ =>
  }

  /** While a session has it in SendQ or in SendBuffer, or a caller is about to queue it, it is not in
      the pool. */
  lemma NotPooledWhileSent(run: seq<Refs>, acts: seq<Act>, k: nat, b: nat, x: nat)
    requires Run(run, acts) && k < |run| && b < |run[k].slots| == |run[k].carried| && x in run[k].carried[b]
    requires var s := run[k].slots[b]; x in s.sh.snd.sendQ || x in s.sh.snd.sendBuffer || Hands(s.threads, x) > 0
    ensures !run[k].pooled
  {
    hide Reachable, Hands;
    PooledExactly(run, acts, k);
    RunInv(run, acts, k);
    var s := run[k].slots[b];
    assert SlotOk(s, run[k].carried[b]);
    ReferenceInOnePlace(s, x);
    assert x in Out(s, run[k].carried[b]);
  }

  /** Once every session it was sent to is quiet and not stuck, and its holders have let go, a packet
      is back in the pool. */
  lemma QuietMeansPooled(run: seq<Refs>, acts: seq<Act>, k: nat)
    requires Run(run, acts) && k < |run| && run[k].own == 0
    requires forall b: nat :: b < |run[k].slots| ==> Quiet(run[k].slots[b]) && !Stuck(run[k].slots[b])
    ensures run[k].pooled && run[k].gives == run[k].allocs
  {
    hide Reachable, Quiet, Stuck;
    RunInv(run, acts, k);
    PooledExactly(run, acts, k);
    forall b: nat | b < |run[k].slots| ensures Out(run[k].slots[b], run[k].carried[b]) == {} {
      assert SlotOk(run[k].slots[b], run[k].carried[b]);
      forall x: nat | x in run[k].carried[b] ensures run[k].slots[b].sh.tok.freed[x] == 1 {
        QuietMeansReleased(run[k].slots[b], x);
      }
    }
  }
}
