/** What every step of the session machine keeps. Threads enter only through what they hold
    together (Totals) and through what each of them knows (ThreadOk). */
module SessionInvariant {
  import opened Session

  // ---- what threads hold ----

  /** refs: counts in ReleaseArr[1]; pinned: threads whose count was taken for, or checked
      against, the live incarnation; owns: threads that own the slot while nobody else may use
      it; receives: entitled to the receive side; probing, buffering: past the SendFlag exchange
      with nothing in SendBuffer, with SendBuffer in use; filling: SendPacketCnt not yet set;
      unpassed: SendBuffer not yet given to WSASend; linking: linked a packet but not yet raised
      Size; wakes: will still post a notification or look at the queue; joins: OnClientJoin not
      yet returned; cas: between the decrement to 0 and the 128-bit exchange. */
  datatype Totals = Totals(
    refs: nat, pinned: nat, owns: nat, receives: nat, probing: nat, buffering: nat, filling: nat,
    unpassed: nat, linking: nat, wakes: nat, joins: nat, cas: nat)

  const NOTHING := Totals(0, 0, 0, 0, 0, 0, 0, 0, 0, 0, 0, 0)

  function Bit(b: bool): nat { if b then 1 else 0 }

  ghost function Holds(pc: Pc): Totals {
    match pc
    case Idle | Crashed => NOTHING
    case Init(p) =>
      if p.Join? then NOTHING.(refs := 1, pinned := 1, receives := 1, joins := 1)
      else NOTHING.(refs := Bit(p.InitRelease?), owns := 1, receives := 1)
    case Recv(p) =>
      NOTHING.(refs := 1 + Bit(p.RecvIo? || p.RecvUndo?), pinned := 1, receives := Bit(!p.RecvUndo?))
    case Caller(p) =>
      NOTHING.(refs := 1, pinned := Bit(!p.CallFlag? && !p.CallUndo?), linking := Bit(p.SendSize?),
               wakes := Bit(p.SendSize? || p.SendNotify?))
    case Post(p) =>
      NOTHING.(refs := 1 + Bit(p.PostUse? || p.PostXchg? || p.PostUndo?), pinned := 1,
               probing := Bit(p.ClearFlag?), buffering := Bit(p.FreeSent?),
               wakes := Bit(p.PostRef? || p.PostUse? || p.PostXchg?))
    case Turn(p) =>
      NOTHING.(refs := 2, pinned := 1, probing := Bit(p.PostSize? || p.PostClear?),
               buffering := Bit(p.PostDequeue? || p.PostCnt? || p.PostIo?),
               filling := Bit(p.PostDequeue? || p.PostCnt?),
               unpassed := Bit(p.PostDequeue? || p.PostCnt? || p.PostIo?), wakes := Bit(p.PostRecheck?))
    case Release(p) =>
      if p.Drop? then NOTHING.(refs := 1, pinned := 1)
      else NOTHING.(owns := Bit(!p.Cas?), cas := Bit(p.Cas?))
  }

  function Plus(a: Totals, b: Totals): Totals {
    Totals(a.refs + b.refs, a.pinned + b.pinned, a.owns + b.owns, a.receives + b.receives,
           a.probing + b.probing, a.buffering + b.buffering, a.filling + b.filling,
           a.unpassed + b.unpassed, a.linking + b.linking, a.wakes + b.wakes, a.joins + b.joins,
           a.cas + b.cas)
  }

  ghost function Total(ts: seq<Thread>): Totals {
    if ts == [] then NOTHING else Plus(Holds(ts[0].pc), Total(ts[1..]))
  }

  lemma PlusSwap(a: Totals, b: Totals, c: Totals)
    ensures Plus(a, Plus(b, c)) == Plus(b, Plus(a, c))
  {
  }

  // Everything thread i holds, and what the others hold.
  ghost function Others(ts: seq<Thread>, i: nat): Totals
    requires i < |ts|
  {
    Total(ts[..i] + ts[i + 1..])
  }

  lemma {:induction false} SplitOff(ts: seq<Thread>, i: nat)
    requires i < |ts|
    ensures Total(ts) == Plus(Holds(ts[i].pc), Others(ts, i))
  {
    if i == 0 {
      assert ts[..0] + ts[1..] == ts[1..];
    } else {
      SplitOff(ts[1..], i - 1);
      assert ts[..i] + ts[i + 1..] == [ts[0]] + (ts[1..][..i - 1] + ts[1..][i..]);
      PlusSwap(Holds(ts[0].pc), Holds(ts[i].pc), Others(ts[1..], i - 1));
    }
  }

  lemma OthersUnmoved(ts: seq<Thread>, i: nat, t: Thread)
    requires i < |ts|
    ensures Total(ts[i := t]) == Plus(Holds(t.pc), Others(ts, i))
  {
    SplitOff(ts[i := t], i);
    assert ts[i := t][..i] == ts[..i] && ts[i := t][i + 1..] == ts[i + 1..];
  }

  // Relations between the totals that hold thread by thread.
  ghost predicate Consistent(a: Totals) {
    && a.pinned <= a.refs
    && a.receives <= a.owns + a.pinned
    && a.probing + a.buffering <= a.pinned
    && a.filling <= a.unpassed <= a.buffering
    && a.linking <= a.wakes <= a.pinned
    && a.joins <= a.pinned
  }

  lemma HoldsConsistent(pc: Pc)
    ensures Consistent(Holds(pc))
  {
  }

  lemma {:induction false} TotalConsistent(ts: seq<Thread>)
    ensures Consistent(Total(ts))
  {
    if ts != [] {
      HoldsConsistent(ts[0].pc);
      TotalConsistent(ts[1..]);
      PlusConsistent(Holds(ts[0].pc), Total(ts[1..]));
    }
  }

  lemma PlusConsistent(a: Totals, b: Totals)
    requires Consistent(a) && Consistent(b)
    ensures Consistent(Plus(a, b))
  {
  }

  lemma {:induction false} TotalNothing(ts: seq<Thread>)
    requires forall j: nat :: j < |ts| ==> ts[j].pc == Idle
    ensures Total(ts) == NOTHING
  {
    if ts != [] {
      assert Holds(ts[0].pc) == NOTHING;
      TotalNothing(ts[1..]);
    }
  }

  // Callers holding reference x between IncrementRef and Enqueue.
  function Hand(pc: Pc, x: nat): nat {
    match pc
    case Caller(SendLink(_, token)) => Bit(token == x)
    case _ => 0
  }

  ghost function Hands(ts: seq<Thread>, x: nat): nat {
    if ts == [] then 0 else Hand(ts[0].pc, x) + Hands(ts[1..], x)
  }

  lemma {:induction false} HandsSplit(ts: seq<Thread>, i: nat, x: nat)
    requires i < |ts|
    ensures Hands(ts, x) == Hand(ts[i].pc, x) + Hands(ts[..i] + ts[i + 1..], x)
  {
    if i == 0 {
      assert ts[..0] + ts[1..] == ts[1..];
    } else {
      HandsSplit(ts[1..], i - 1, x);
      assert ts[..i] + ts[i + 1..] == [ts[0]] + (ts[1..][..i - 1] + ts[1..][i..]);
    }
  }

  // ---- the callback log ----

  datatype Phase = Closed(last: nat) | Open(id: nat) | Bad

  function After(p: Phase, e: Event): Phase {
    match (p, e)
    case (Closed(last), Joined(id)) => if id > last then Open(id) else Bad
    case (Open(cur), Received(id)) => if id == cur then p else Bad
    case (Open(cur), Left(id)) => if id == cur then Closed(id) else Bad
    case _ => Bad
  }

  // Joined, then Received, then at most one Left, incarnation after incarnation, IDs rising.
  function Replay(log: seq<Event>): Phase {
    if log == [] then Closed(0) else After(Replay(log[..|log| - 1]), log[|log| - 1])
  }

  // ---- the invariant: the shared memory against the totals ----

  ghost predicate CountInv(h: Shared, a: Totals) {
    && h.ctl.refCnt == |h.io.recvIo| + |h.io.sendIo| + |h.io.notes| + a.refs
    && h.ctl.freeSlots + Bit(!h.ctl.released) + a.owns == 1
    && |h.io.recvIo| + a.receives <= 1
    && (h.ctl.released ==> h.io == Pending([], [], []) && a.pinned == 0)
  }

  // A session in use whose receives all went well has one receive, pending or still to be posted.
  ghost predicate RecvInv(h: Shared, a: Totals) {
    !h.ctl.released && h.ctl.useFlag && !h.ended ==> |h.io.recvIo| + a.receives >= 1
  }

  ghost predicate IdInv(h: Shared) {
    && h.ctl.id <= h.ctl.lastId
    && (!h.ctl.released ==> h.ctl.id > 0 && (h.ctl.useFlag || h.ctl.id in h.ctl.kills))
    && (h.ctl.freeSlots > 0 ==> h.ctl.id == 0)
    && (forall x :: x in h.io.recvIo || x in h.io.sendIo || x in h.io.notes ==> x == h.ctl.id)
  }

  ghost predicate SendInv(h: Shared, a: Totals) {
    && (!h.ctl.released ==>
          && Bit(h.snd.sendFlag) == a.probing + a.buffering + |h.io.sendIo| + Bit(h.snd.failed)
          && (h.snd.sendBuffer != [] ==> a.buffering + |h.io.sendIo| + Bit(h.snd.failed) == 1)
          && (a.filling == 0 ==> h.snd.packetCnt == |h.snd.sendBuffer|))
    && (h.ctl.freeSlots > 0 ==> h.snd.sendBuffer == [])
  }

  ghost predicate QueueInv(h: Shared, a: Totals) {
    && 0 <= h.snd.size == |h.snd.sendQ| - a.linking
    && (h.ctl.freeSlots > 0 ==> h.snd.sendQ == [])
    && (!h.ctl.released ==>
          h.snd.linked == h.snd.passed + (if a.unpassed == 0 then [] else h.snd.sendBuffer) + h.snd.sendQ)
    && (!h.ctl.released && h.ctl.useFlag && h.snd.sendQ != [] && !h.snd.sendFlag ==> |h.io.notes| + a.wakes >= 1)
  }

  // How often reference x is in the queue, in SendBuffer, or given back.
  function Places(h: Shared, x: nat): nat {
    h.tok.freed[x] + multiset(h.snd.sendQ)[x] + multiset(h.snd.sendBuffer)[x]
  }

  // A reference that was taken is in exactly one place, one not yet taken in none.
  ghost predicate TokenInv(h: Shared, x: nat, hand: nat) {
    Bit(x < h.tok.taken) == Places(h, x) + hand
  }

  ghost predicate LogInv(h: Shared, a: Totals) {
    var p := Replay(h.log);
    && p != Bad
    && (p.Open? ==> p.id == h.ctl.id)
    && (p.Closed? ==> p.last <= h.ctl.lastId)
    && (h.ctl.freeSlots > 0 ==> p.Closed?)
    && (h.io.recvIo != [] ==> p.Open?)
    && (!h.ctl.released && a.joins == 0 ==> p.Open?)
  }

  ghost predicate SharedInv(h: Shared, a: Totals) {
    CountInv(h, a) && RecvInv(h, a) && IdInv(h) && SendInv(h, a) && QueueInv(h, a) && LogInv(h, a)
  }

  // ---- the invariant: what one thread knows ----

  ghost predicate ThreadOk(h: Shared, t: Thread) {
    && t.pc != Crashed
    && (Holds(t.pc).pinned > 0 ==> t.inc == h.ctl.id)
    && match t.pc
       case Init(p) => InitOk(h, t.inc, p)
       case Recv(p) => p.RecvUndo? || Replay(h.log).Open?
       case Caller(p) => p.CallFlag? || p.CallId? || p.CallUndo? || p.arg == h.ctl.id
       case Turn(p) => p.PostDequeue? ==> p.left <= h.snd.size
       case Release(p) => ReleaseOk(h, t.inc, p)
       case _ => true
  }

  // InitSession works on a slot that is empty and unnamed, and leaves a fresh incarnation.
  ghost predicate InitOk(h: Shared, inc: nat, p: InitPc) {
    && Replay(h.log).Closed?
    && Replay(h.log).last < (if p.InitUse? || p.InitId? then p.newId else h.ctl.id)
    && (if p.InitUse? || p.InitId? then h.ctl.id == 0 && 0 < p.newId <= h.ctl.lastId
        else h.ctl.id > 0 && inc == h.ctl.id)
    && (p.InitUse? || p.Join? || h.ctl.useFlag)
    && (!p.Join? ==> h.snd.sendQ == [] && h.snd.sendBuffer == [])
    && (p.InitRef? || p.InitRelease? ==>
          !h.snd.sendFlag && !h.snd.failed && h.snd.packetCnt == 0 && h.snd.linked == [] && h.snd.passed == [])
  }

  ghost predicate ReleaseOk(h: Shared, inc: nat, p: ReleasePc) {
    p.Drop? || p.Cas? ||
    (&& (if p.Leave? || p.ReleaseId? then h.ctl.id > 0 && inc == h.ctl.id else h.ctl.id == 0)
     && (if p.Leave? then Replay(h.log).Open? else Replay(h.log).Closed?)
     && h.snd.packetCnt == |h.snd.sendBuffer|
     && (p.FreeBuffer? || p.ReleasePush? ==> h.snd.sendQ == [])
     && (p.ReleasePush? ==> h.snd.sendBuffer == []))
  }

  ghost predicate Inv(s: State) {
    && SharedInv(s.sh, Total(s.threads))
    && (forall x: nat :: TokenInv(s.sh, x, Hands(s.threads, x)))
    && forall j: nat :: j < |s.threads| ==> ThreadOk(s.sh, s.threads[j])
  }
}
