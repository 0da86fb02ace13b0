/** The ticket balance of LockFreeQueue, LockFreeStack and LockFreeMemoryPool: what all threads
    weigh on the counter. */
module TicketSums {
  /** linking: linked a node, the counter not yet raised; granted: drew a ticket, the element not
      yet taken; refused: drew none, the counter not yet restored. */
  datatype Totals = Totals(linking: nat, granted: nat, refused: nat)

  function Plus(a: Totals, b: Totals): Totals {
    Totals(a.linking + b.linking, a.granted + b.granted, a.refused + b.refused)
  }

  function Sum(xs: seq<Totals>): Totals {
    if xs == [] then Totals(0, 0, 0) else Plus(xs[0], Sum(xs[1..]))
  }

  // What all but entry i weigh.
  function Rest(xs: seq<Totals>, i: nat): Totals
    requires i < |xs|
  {
    Sum(xs[..i] + xs[i + 1..])
  }

  lemma PlusSwap(a: Totals, b: Totals, c: Totals)
    ensures Plus(a, Plus(b, c)) == Plus(b, Plus(a, c))
  {
  }

  lemma {:induction false} SplitOff(xs: seq<Totals>, i: nat)
    requires i < |xs|
    ensures Sum(xs) == Plus(xs[i], Rest(xs, i))
  {
    if i == 0 {
      assert xs[..0] + xs[1..] == xs[1..];
    } else {
      var rest := xs[..i] + xs[i + 1..];
      SplitOff(xs[1..], i - 1);
      assert rest[0] == xs[0] && rest[1..] == xs[1..][..i - 1] + xs[1..][i..];
      PlusSwap(xs[0], xs[i], Rest(xs[1..], i - 1));
    }
  }

  lemma Replaced(xs: seq<Totals>, i: nat, x: Totals)
    requires i < |xs|
    ensures Sum(xs[i := x]) == Plus(x, Rest(xs, i))
  {
    SplitOff(xs[i := x], i);
    assert xs[i := x][..i] == xs[..i] && xs[i := x][i + 1..] == xs[i + 1..];
  }

  predicate Weightless(x: Totals) {
    x.linking == 0 && x.granted == 0 && x.refused == 0
  }

  lemma {:induction false} SumNothing(xs: seq<Totals>)
    requires forall k: nat :: k < |xs| ==> Weightless(xs[k])
    ensures Weightless(Sum(xs))
  {
    if xs != [] {
      SumNothing(xs[1..]);
      assert Weightless(xs[0]);
    }
  }
}
