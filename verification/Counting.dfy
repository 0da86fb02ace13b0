/** How often an element occurs in a sequence. */
module Counting {
  ghost function Times<T>(list: seq<T>, n: T): nat {
    if list == [] then 0 else (if list[0] == n then 1 else 0) + Times(list[1..], n)
  }

  lemma {:induction false} TimesSplit<T>(a: seq<T>, b: seq<T>, n: T)
    ensures Times(a + b, n) == Times(a, n) + Times(b, n)
  {
    if a == [] {
      assert a + b == b;
    } else {
      assert (a + b)[1..] == a[1..] + b;
      TimesSplit(a[1..], b, n);
    }
  }

  lemma {:induction false} TimesIn<T>(list: seq<T>, n: T)
    ensures Times(list, n) > 0 <==> n in list
  {
    if list != [] {
      TimesIn(list[1..], n);
      assert n in list <==> list[0] == n || n in list[1..];
    }
  }

  ghost predicate NoDup<T>(s: seq<T>) {
    forall k: nat, m: nat :: k < m < |s| ==> s[k] != s[m]
  }

  lemma {:induction false} TimesNoDup<T>(s: seq<T>, n: T)
    requires NoDup(s)
    ensures Times(s, n) == if n in s then 1 else 0
  {
    if s != [] {
      TimesNoDup(s[1..], n);
      assert n in s <==> s[0] == n || n in s[1..];
    }
  }

  ghost function Elements<T>(list: seq<T>): set<T> {
    set n | n in list
  }

  lemma {:induction false} ElementsNoDup<T>(s: seq<T>)
    requires NoDup(s)
    ensures |Elements(s)| == |s|
  {
    if s != [] {
      assert NoDup(s[1..]);
      ElementsNoDup(s[1..]);
      assert Elements(s) == {s[0]} + Elements(s[1..]);
      assert s[0] !in s[1..];
    }
  }
}
