/** Where the nodes of the two-tier pool are: in the callers' hands, in a thread's own list, or
    in a chunk on ChunckStack. One step is one whole call of Alloc or Free. */
module PoolLedger {
  import opened Counting

  const CHUNK := 100   // kChunkDefault

  /** `caches[i]` is the free list of thread i, front first; `chunks` is ChunckStack, top last;
      `known` are the nodes ever made; total, use, free are TotalSize, UseSize, FreeSize; `peak`
      is the most that were ever live. */
  datatype Ledger<T> = Ledger(
    caches: seq<seq<T>>, chunks: seq<seq<T>>, live: set<T>, known: set<T>,
    total: int, use: int, free: int, peak: nat)

  // ---- the two operations ----

  // The list Alloc takes its node from: the thread's own, a stacked chunk, or `made`.
  ghost function Source<T>(own: seq<T>, chunks: seq<seq<T>>, made: seq<T>): seq<T> {
    if own != [] then own else if chunks != [] then chunks[|chunks| - 1] else made
  }

  ghost function ChunksLeft<T>(own: seq<T>, chunks: seq<seq<T>>): seq<seq<T>> {
    if own != [] || chunks == [] then chunks else chunks[..|chunks| - 1]
  }

  /** Alloc's node comes from the thread's own list, then from the chunk stacked last, and from new
      nodes only when there is neither. */
  lemma SourceIs<T>(own: seq<T>, chunks: seq<seq<T>>, made: seq<T>)
    ensures var src, left := Source(own, chunks, made), ChunksLeft(own, chunks);
      && (own != [] ==> src == own && left == chunks)
      && (own == [] && chunks != [] ==> left + [src] == chunks)
      && (own == [] && chunks == [] ==> src == made && left == [])
  {
  }

  function Max(a: nat, b: nat): nat { if a < b then b else a }

  ghost function AllocStep<T>(l: Ledger<T>, i: nat, made: seq<T>): Ledger<T>
    requires i < |l.caches| && Source(l.caches[i], l.chunks, made) != []
  {
    var own, src := l.caches[i], Source(l.caches[i], l.chunks, made);
    var live := l.live + {src[0]};
    var l' := l.(caches := l.caches[i := src[1..]], chunks := ChunksLeft(own, l.chunks),
                 live := live, peak := Max(l.peak, |live|));
    if own != [] then l'
    else if l.chunks != [] then l'.(use := l.use + CHUNK, free := l.free - CHUNK)
    else l'.(use := l.use + CHUNK, total := l.total + CHUNK, known := l.known + Elements(made))
  }

  ghost function FreeStep<T>(l: Ledger<T>, i: nat, node: T): Ledger<T>
    requires i < |l.caches|
  {
    var own := [node] + l.caches[i];
    var l' := l.(live := l.live - {node});
    if |own| < CHUNK then l'.(caches := l.caches[i := own])
    else l'.(caches := l.caches[i := own[CHUNK..]], chunks := l.chunks + [own[..CHUNK]],
             use := l.use - CHUNK, free := l.free + CHUNK)
  }

  // ---- counting ----

  ghost function InLists<T>(lists: seq<seq<T>>, n: T): nat {
    if lists == [] then 0 else Times(lists[0], n) + InLists(lists[1..], n)
  }

  /** In how many places node n is. */
  ghost function Places<T>(l: Ledger<T>, n: T): nat {
    (if n in l.live then 1 else 0) + InLists(l.caches, n) + InLists(l.chunks, n)
  }

  ghost function Lengths<T>(lists: seq<seq<T>>): nat {
    if lists == [] then 0 else |lists[0]| + Lengths(lists[1..])
  }

  lemma {:induction false} Replaced<T>(lists: seq<seq<T>>, i: nat, x: seq<T>, n: T)
    requires i < |lists|
    ensures InLists(lists[i := x], n) == InLists(lists, n) - Times(lists[i], n) + Times(x, n)
    ensures Lengths(lists[i := x]) == Lengths(lists) - |lists[i]| + |x|
  {
    if i == 0 {
      assert lists[0 := x][1..] == lists[1..];
    } else {
      assert lists[i := x][1..] == lists[1..][i - 1 := x];
      Replaced(lists[1..], i - 1, x, n);
    }
  }

  lemma {:induction false} Appended<T>(lists: seq<seq<T>>, x: seq<T>, n: T)
    ensures InLists(lists + [x], n) == InLists(lists, n) + Times(x, n)
  {
    if lists == [] {
      assert lists + [x] == [x] && [x][1..] == [];
    } else {
      assert (lists + [x])[1..] == lists[1..] + [x];
      Appended(lists[1..], x, n);
    }
  }

  lemma {:induction false} OneOf<T>(lists: seq<seq<T>>, i: nat, n: T)
    requires i < |lists|
    ensures InLists(lists, n) >= Times(lists[i], n)
  {
    if i > 0 {
      OneOf(lists[1..], i - 1, n);
    }
  }

  lemma {:induction false} LengthsWithin<T>(lists: seq<seq<T>>, high: nat)
    requires forall i: nat :: i < |lists| ==> |lists[i]| <= high
    ensures Lengths(lists) <= high * |lists|
  {
    if lists != [] {
      LengthsWithin(lists[1..], high);
      assert high * |lists| == high * (|lists| - 1) + high;
    }
  }

  // ---- what every call keeps ----

  /** Every thread keeps fewer than 100 nodes, every chunk is 100 nodes, and every node ever made
      is in exactly one place, once. */
  ghost predicate Tidy<T>(l: Ledger<T>) {
    && (forall i: nat :: i < |l.caches| ==> |l.caches[i]| < CHUNK)
    && (forall k: nat :: k < |l.chunks| ==> |l.chunks[k]| == CHUNK)
    && (forall n :: n in l.known ==> Places(l, n) == 1)
    && l.live <= l.known
    && (forall i: nat, n :: i < |l.caches| && n in l.caches[i] ==> n in l.known)
    && (forall k: nat, n :: k < |l.chunks| && n in l.chunks[k] ==> n in l.known)
  }

  /** The three counters against the nodes. */
  ghost predicate Counters<T>(l: Ledger<T>) {
    && l.total == |l.known| == |l.live| + Lengths(l.caches) + CHUNK * |l.chunks|
    && l.use == |l.live| + Lengths(l.caches)
    && l.free == CHUNK * |l.chunks|
  }

  /** The pool never holds more than the callers once held at the same time, and 99 per thread. */
  ghost predicate Bounded<T>(l: Ledger<T>) {
    |l.live| <= l.peak && l.total <= l.peak + (CHUNK - 1) * |l.caches|
  }

  ghost predicate Inv<T>(l: Ledger<T>) {
    Tidy(l) && Counters(l) && Bounded(l)
  }

  // `made` is what NewNodeList returns, if it is needed: 100 nodes never seen before.
  ghost predicate Made<T>(l: Ledger<T>, i: nat, made: seq<T>)
    requires i < |l.caches|
  {
    l.caches[i] == [] && l.chunks == [] ==>
      |made| == CHUNK && (forall n :: n in made ==> Times(made, n) == 1 && n !in l.known)
  }

  lemma {:induction false} NoLengths<T>(lists: seq<seq<T>>)
    requires forall i: nat :: i < |lists| ==> lists[i] == []
    ensures Lengths(lists) == 0
  {
    if lists != [] {
      NoLengths(lists[1..]);
    }
  }

  lemma StartInv<T>(l: Ledger<T>)
    requires (forall i: nat :: i < |l.caches| ==> l.caches[i] == []) && l.chunks == [] && l.live == l.known == {}
    requires l.total == l.use == l.free == l.peak == 0
    ensures Inv(l)
  {
    NoLengths(l.caches);
  }

  // ---- Alloc ----

  lemma SourceNotLive<T>(l: Ledger<T>, i: nat, made: seq<T>)
    requires i < |l.caches| && Tidy(l) && Made(l, i, made)
    ensures var src := Source(l.caches[i], l.chunks, made);
      0 < |src| <= CHUNK && src[0] !in l.live && src[0] in AllocStep(l, i, made).known
  {
    var src := Source(l.caches[i], l.chunks, made);
    TimesIn(src, src[0]);
    if l.caches[i] != [] {
      OneOf(l.caches, i, src[0]);
      assert src[0] in l.known;
    } else if l.chunks != [] {
      OneOf(l.chunks, |l.chunks| - 1, src[0]);
      assert src[0] in l.known;
    }
  }

  /** Alloc moves nodes between places; only new nodes appear. */
  lemma AllocPlaces<T>(l: Ledger<T>, i: nat, made: seq<T>, n: T)
    requires i < |l.caches|
    requires var src := Source(l.caches[i], l.chunks, made); src != [] && src[0] !in l.live
    ensures Places(AllocStep(l, i, made), n) ==
            Places(l, n) + (if l.caches[i] == [] && l.chunks == [] then Times(made, n) else 0)
    ensures Lengths(AllocStep(l, i, made).caches) ==
            Lengths(l.caches) - |l.caches[i]| + |Source(l.caches[i], l.chunks, made)| - 1
  {
    var own, src := l.caches[i], Source(l.caches[i], l.chunks, made);
    Replaced(l.caches, i, src[1..], n);
    if own == [] && l.chunks != [] {
      assert l.chunks == ChunksLeft(own, l.chunks) + [src];
      Appended(ChunksLeft(own, l.chunks), src, n);
    }
  }

  lemma AllocKnown<T>(l: Ledger<T>, i: nat, made: seq<T>)
    requires i < |l.caches| && Tidy(l) && Made(l, i, made)
    ensures Source(l.caches[i], l.chunks, made) != []
    ensures var l' := AllocStep(l, i, made);
      && l'.live <= l'.known && l.known <= l'.known
      && (forall j: nat, n :: j < |l'.caches| && n in l'.caches[j] ==> n in l'.known)
      && (forall k: nat, n :: k < |l'.chunks| && n in l'.chunks[k] ==> n in l'.known)
  {
    SourceNotLive(l, i, made);
    var src := Source(l.caches[i], l.chunks, made);
    assert forall n :: n in src[1..] ==> n in src;
  }

  lemma AllocTidy<T>(l: Ledger<T>, i: nat, made: seq<T>)
    requires i < |l.caches| && Tidy(l) && Made(l, i, made)
    ensures Source(l.caches[i], l.chunks, made) != [] && Tidy(AllocStep(l, i, made))
  {
    SourceNotLive(l, i, made);
    AllocKnown(l, i, made);
    var l' := AllocStep(l, i, made);
    forall n | n in l'.known
      ensures Places(l', n) == 1
    {
      AllocPlaces(l, i, made, n);
      TimesIn(made, n);
      if n !in l.known {
        NowhereElse(l, n);
      }
    }
  }

  // A node never made is nowhere.
  lemma NowhereElse<T>(l: Ledger<T>, n: T)
    requires Tidy(l) && n !in l.known
    ensures Places(l, n) == 0
  {
    NotInLists(l.caches, n);
    NotInLists(l.chunks, n);
  }

  lemma {:induction false} NotInLists<T>(lists: seq<seq<T>>, n: T)
    requires forall i: nat :: i < |lists| ==> n !in lists[i]
    ensures InLists(lists, n) == 0
  {
    if lists != [] {
      TimesIn(lists[0], n);
      NotInLists(lists[1..], n);
    }
  }

  lemma {:induction false} ElementsSize<T>(list: seq<T>)
    requires forall n :: n in list ==> Times(list, n) == 1
    ensures |Elements(list)| == |list|
  {
    if list != [] {
      TimesIn(list[1..], list[0]);
      assert Elements(list) == {list[0]} + Elements(list[1..]);
      forall n | n in list[1..]
        ensures Times(list[1..], n) == 1
      {
        TimesIn(list[1..], n);
        assert n in list;
      }
      ElementsSize(list[1..]);
    }
  }

  lemma AllocCounters<T>(l: Ledger<T>, i: nat, made: seq<T>)
    requires i < |l.caches| && Inv(l) && Made(l, i, made)
    ensures Source(l.caches[i], l.chunks, made) != []
    ensures Counters(AllocStep(l, i, made)) && Bounded(AllocStep(l, i, made))
  {
    SourceNotLive(l, i, made);
    var src := Source(l.caches[i], l.chunks, made);
    AllocPlaces(l, i, made, src[0]);
    AllocTidy(l, i, made);
    LengthsWithin(AllocStep(l, i, made).caches, CHUNK - 1);
    if l.caches[i] == [] && l.chunks == [] {
      ElementsSize(made);
      assert l.known !! Elements(made);
    }
  }

  /** Alloc keeps the invariant. */
  lemma AllocKeeps<T>(l: Ledger<T>, i: nat, made: seq<T>)
    requires i < |l.caches| && Inv(l) && Made(l, i, made)
    ensures Source(l.caches[i], l.chunks, made) != [] && Inv(AllocStep(l, i, made))
  {
    AllocTidy(l, i, made);
    AllocCounters(l, i, made);
  }

  // ---- Free ----

  /** Free moves nodes between places; none appears or is lost. */
  lemma FreePlaces<T>(l: Ledger<T>, i: nat, node: T, n: T)
    requires i < |l.caches| && node in l.live && |l.caches[i]| < CHUNK
    ensures Places(FreeStep(l, i, node), n) == Places(l, n)
    ensures Lengths(FreeStep(l, i, node).caches) ==
            Lengths(l.caches) + (if |l.caches[i]| + 1 < CHUNK then 1 else 1 - CHUNK)
  {
    var own := [node] + l.caches[i];
    assert own[1..] == l.caches[i];
    if |own| < CHUNK {
      Replaced(l.caches, i, own, n);
    } else {
      assert own[..CHUNK] == own && own[CHUNK..] == [];
      Replaced(l.caches, i, own[CHUNK..], n);
      Appended(l.chunks, own[..CHUNK], n);
    }
  }

  /** Free keeps the invariant, on whichever thread the node is freed. */
  lemma FreeKeeps<T>(l: Ledger<T>, i: nat, node: T)
    requires i < |l.caches| && node in l.live && Inv(l)
    ensures Inv(FreeStep(l, i, node))
  {
    var l' := FreeStep(l, i, node);
    FreePlaces(l, i, node, node);
    forall n | n in l'.known
      ensures Places(l', n) == 1
    {
      FreePlaces(l, i, node, n);
    }
    assert |l.live - {node}| == |l.live| - 1;
    if |l.caches[i]| + 1 >= CHUNK {
      assert ([node] + l.caches[i])[CHUNK..] == [];
    }
  }

  // ---- runs ----

  datatype Call<T> = AllocCall(who: nat, made: seq<T>) | FreeCall(who: nat, node: T)

  ghost predicate Enabled<T>(l: Ledger<T>, c: Call<T>) {
    && c.who < |l.caches|
    && (c.AllocCall? ==> Made(l, c.who, c.made) && Source(l.caches[c.who], l.chunks, c.made) != [])
    && (c.FreeCall? ==> c.node in l.live)
  }

  ghost function Do<T>(l: Ledger<T>, c: Call<T>): Ledger<T>
    requires Enabled(l, c)
  {
    if c.AllocCall? then AllocStep(l, c.who, c.made) else FreeStep(l, c.who, c.node)
  }

  /** Calls of any threads, one after the other, on a pool that starts empty. */
  ghost predicate Run<T>(run: seq<Ledger<T>>, calls: seq<Call<T>>) {
    && |run| == |calls| + 1
    && (forall i: nat :: i < |run[0].caches| ==> run[0].caches[i] == []) && run[0].chunks == []
    && run[0].live == run[0].known == {} && run[0].total == run[0].use == run[0].free == run[0].peak == 0
    && forall k: nat :: k < |calls| ==> Enabled(run[k], calls[k]) && run[k + 1] == Do(run[k], calls[k])
  }

  lemma DoKeeps<T>(l: Ledger<T>, c: Call<T>)
    requires Inv(l) && Enabled(l, c)
    ensures Inv(Do(l, c)) && |Do(l, c).caches| == |l.caches|
    ensures Do(l, c).peak == Max(l.peak, |Do(l, c).live|)
  {
    if c.AllocCall? {
      AllocKeeps(l, c.who, c.made);
    } else {
      FreeKeeps(l, c.who, c.node);
    }
  }

  lemma {:induction false} RunInv<T>(run: seq<Ledger<T>>, calls: seq<Call<T>>, k: nat)
    requires Run(run, calls) && k < |run|
    ensures Inv(run[k]) && |run[k].caches| == |run[0].caches|
    ensures exists j: nat :: j <= k && |run[j].live| == run[k].peak
  {
    if k == 0 {
      StartInv(run[0]);
    } else {
      RunInv(run, calls, k - 1);
      DoKeeps(run[k - 1], calls[k - 1]);
      assert run[k - 1 + 1] == run[k];
      if run[k].peak == run[k - 1].peak {
        var j: nat :| j <= k - 1 && |run[j].live| == run[k - 1].peak;
        assert |run[j].live| == run[k].peak;
      }
    }
  }

  /** The pool never grows beyond what callers once held at one moment of the run, and 99 nodes
      for each thread. */
  lemma SpaceBound<T>(run: seq<Ledger<T>>, calls: seq<Call<T>>, k: nat)
    requires Run(run, calls) && k < |run|
    ensures exists j: nat :: j <= k && run[k].total <= |run[j].live| + 99 * |run[0].caches|
  {
    RunInv(run, calls, k);
    var j: nat :| j <= k && |run[j].live| == run[k].peak;
    assert run[k].total <= |run[j].live| + 99 * |run[0].caches|;
  }

  /** TotalSize is UseSize and FreeSize; FreeSize is 100 for each stacked chunk; UseSize is the
      live nodes and those in the threads' lists; every node ever made is in one place. */
  lemma Accounting<T>(run: seq<Ledger<T>>, calls: seq<Call<T>>, k: nat, n: T)
    requires Run(run, calls) && k < |run|
    ensures run[k].total == run[k].use + run[k].free == |run[k].known|
    ensures run[k].free == CHUNK * |run[k].chunks|
    ensures run[k].use == |run[k].live| + Lengths(run[k].caches)
    ensures n in run[k].known <==> Places(run[k], n) == 1
  {
    RunInv(run, calls, k);
    if n !in run[k].known {
      NowhereElse(run[k], n);
    }
  }
}
