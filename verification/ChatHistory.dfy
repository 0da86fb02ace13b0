/** What the content thread does over a whole list of jobs, as values: who is there after each,
    what was sent, whose session was killed, and where it crashed. */
module ChatHistory {
  import opened ChatJobs
  import opened ChatView
  import opened Counting

  /** One job: the characters before and after, the calls of SendPacket and KillSession, and
      whether Logger::Crash was called. */
  datatype Handled =
    Handled(job: Job, before: View, after: View, sent: seq<Sent>, killed: seq<nat>, crash: Crash)

  /** A broadcast of what `id` says: to everyone near, once, and nothing else. */
  ghost predicate Reaches(v: View, id: nat, body: Body, around: seq<Sent>) {
    id in v && body.Say? ==>
      forall to: nat, reply: Reply {:trigger Sent(to, reply)} ::
        Times(around, Sent(to, reply)) ==
        if reply == Said(body.account, body.len) && to in v && Near(v[to], v[id].x, v[id].y) then 1 else 0
  }

  ghost predicate Did(h: Handled) {
    match h.job
    case JoinJob(id) =>
      (exists y: int :: h.after == AfterJoin(h.before, id, y)) && h.sent == [] && h.killed == [] && h.crash.Running?
    case MessageJob(id, body) =>
      && h.after == AfterMessage(h.before, id, body)
      && (exists around: seq<Sent> ::
            Reaches(h.before, id, body, around) && h.sent == Answers(h.before, id, body, around))
      && h.killed == (if Kills(h.before, id, body) then [id] else [])
      && h.crash == CrashOf(h.before, id, body)
    case LeaveJob(id) =>
      && h.after == h.before - {id} && h.sent == [] && h.killed == []
      && h.crash == if id in h.before then Running else NotExist
  }

  // The characters after the first k jobs.
  ghost function AfterJobs(hs: seq<Handled>, k: nat): View
    requires k <= |hs|
  {
    if k == 0 then map[] else hs[k - 1].after
  }

  ghost predicate Follows(hs: seq<Handled>, jobs: seq<Job>, k: nat)
    requires k < |hs| <= |jobs|
  {
    && Did(hs[k]) && hs[k].job == jobs[k] && hs[k].before == AfterJobs(hs, k)
    && (k + 1 < |hs| ==> hs[k].crash.Running?)
  }

  /** The jobs one after the other, from nobody there, up to the end or the first crash. */
  ghost predicate Ran(hs: seq<Handled>, jobs: seq<Job>) {
    |hs| <= |jobs| && forall k: nat :: k < |hs| ==> Follows(hs, jobs, k)
  }

  function AllSent(hs: seq<Handled>): seq<Sent> {
    if hs == [] then [] else AllSent(hs[..|hs| - 1]) + hs[|hs| - 1].sent
  }

  function AllKilled(hs: seq<Handled>): seq<nat> {
    if hs == [] then [] else AllKilled(hs[..|hs| - 1]) + hs[|hs| - 1].killed
  }

  lemma RanOne(hs: seq<Handled>, jobs: seq<Job>, h: Handled)
    requires Ran(hs, jobs) && |hs| < |jobs| && (hs != [] ==> hs[|hs| - 1].crash.Running?)
    requires Did(h) && h.job == jobs[|hs|] && h.before == AfterJobs(hs, |hs|)
    ensures Ran(hs + [h], jobs)
    ensures AllSent(hs + [h]) == AllSent(hs) + h.sent && AllKilled(hs + [h]) == AllKilled(hs) + h.killed
  {
    hide Did;
    var r := hs + [h];
    assert r[..|hs|] == hs;
    forall k: nat | k < |r|
      ensures Follows(r, jobs, k)
    {
      assert k < |hs| ==> Follows(hs, jobs, k);
    }
  }

  /** Whatever comes, there is a character for exactly the sessions whose join was handled and
      whose leave was not. */
  lemma {:induction false} WhoIsThere(hs: seq<Handled>, jobs: seq<Job>, n: nat)
    requires Ran(hs, jobs) && n <= |hs|
    ensures AfterJobs(hs, n).Keys == Present(jobs[..n])
  {
    if n > 0 {
      WhoIsThere(hs, jobs, n - 1);
      assert jobs[..n][..n - 1] == jobs[..n - 1];
      assert Follows(hs, jobs, n - 1);
    }
  }

  /** If the jobs of each session are in order, every character a job asks for exists. */
  lemma ExpectedNeverMissing(hs: seq<Handled>, jobs: seq<Job>, k: nat)
    requires Ran(hs, jobs) && k < |hs| && Expected(jobs)
    ensures hs[k].crash != NotExist
  {
    WhoIsThere(hs, jobs, k);
    assert Fits(Present(jobs[..k]), jobs[k]) && Follows(hs, jobs, k);
  }
}
