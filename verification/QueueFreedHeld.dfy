/** A run in which FreeNode gets a node that a thread holds a count on. */
module QueueFreedHeld {
  import opened QueueReclaim

  lemma Reaches(n: Node, e: Event, n': Node)
    requires Reachable(n) && Enabled(n, e) && n' == Step(n, e)
    ensures Reachable(n')
  {
    var run, events :| Run(run, events) && n == run[|run| - 1];
    var run', events' := run + [n'], events + [e];
    assert Run(run', events') && run'[|run'| - 1] == n';
  }

  lemma Enqueued()
    ensures Reachable(Node(Linked, 1, false, 0, 0, [], [], [], [], [], 0, 0, 3))
  {
    var n0 := Node(InPool, 0, false, 0, 0, [], [], [], [], [], 0, 0, 0);
    assert Run([n0], []) && [n0][0] == n0;
    var n1 := Node(Private, 0, false, 1, 0, [], [], [], [], [], 0, 0, 1);
    Reaches(n0, Alloc, n1);
    var n2 := Node(Private, 1, false, 0, 1, [], [], [], [], [], 0, 0, 2);
    Reaches(n1, CountNew, n2);
    Reaches(n2, Link, Node(Linked, 1, false, 0, 0, [], [], [], [], [], 0, 0, 3));
  }

  lemma DroppedToZero()
    ensures Reachable(Node(Unlinked, 0, true, 0, 0, [], [], [], [5], [], 1, 0, 6))
  {
    Enqueued();
    var n3 := Node(Linked, 1, false, 0, 0, [], [], [], [], [], 0, 0, 3);
    var n4 := Node(Unlinked, 1, false, 0, 0, [], [3], [], [], [], 1, 0, 4);
    Reaches(n3, Unlink, n4);
    var n5 := Node(Unlinked, 1, true, 0, 0, [], [], [3], [], [], 1, 0, 5);
    Reaches(n4, SetFlag(0), n5);
    Reaches(n5, Drop(0), Node(Unlinked, 0, true, 0, 0, [], [], [], [5], [], 1, 0, 6));
  }

  /** It can be: a count taken between DecrementRef and the exchange does not stop FreeNode. */
  lemma FreedWhileHeld()
    ensures exists n: Node :: Reachable(n) && Enabled(n, Free(0)) && |n.holding| > 0 && n.refCnt > 0
  {
    DroppedToZero();
    var n6 := Node(Unlinked, 0, true, 0, 0, [], [], [], [5], [], 1, 0, 6);
    var n7 := Node(Unlinked, 1, true, 0, 0, [6], [], [], [5], [], 1, 0, 7);
    Reaches(n6, Hold, n7);
    var n8 := Node(Unlinked, 1, false, 0, 0, [6], [], [], [], [5], 1, 0, 8);
    Reaches(n7, Ask(0), n8);
    assert Enabled(n8, Free(0));
  }
}
