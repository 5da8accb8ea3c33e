/**
 The parallel resolver: workers claim jobs from a shared counter and share one cache. Its steps
 are the atomic accesses of `resolve_batch`; a run is any interleaving of the workers' steps.
 */
module ParallelResolver {
  import opened Orders
  import opened Events
  import opened Auth
  import opened AuthChain
  import opened StateRes
  import opened StateResLocal
  import opened ResolverCache

  /** Where a worker stands in its loop, and the job it holds there. */
  datatype Worker =
    | Idle
    | Claimed(job: nat)
    | Missed(job: nat)
    | Counted(job: nat)
    | Resolved(job: nat, result: StateMap)
    | Finished(job: nat, result: StateMap)
    | Stopped

  /** The shared state. `looked` records which jobs' lookups the two counters have counted. */
  datatype Pool = Pool(
    next: nat,
    workers: seq<Worker>,
    results: seq<Option<StateMap>>,
    cache: map<Key, StateMap>,
    hits: nat,
    misses: nat,
    looked: set<nat>)

  predicate Holding(w: Worker) {
    !w.Idle? && !w.Stopped?
  }

  /** The worker's lookup has been counted. */
  predicate PastLookup(w: Worker) {
    w.Counted? || w.Resolved? || w.Finished?
  }

  function KeyOf(job: Call): Key {
    InputKey(job.states)
  }

  predicate Steppable(p: Pool, jobs: seq<Call>, w: nat) {
    && w < |p.workers| && |p.results| == |jobs|
    && (Holding(p.workers[w]) ==> p.workers[w].job < |jobs|)
  }

  /** One step of worker `w`. */
  ghost function Step(p: Pool, jobs: seq<Call>, w: nat, sig: SigCheck): Pool
    requires Steppable(p, jobs, w)
  {
    match p.workers[w]
    case Idle =>
      p.(next := p.next + 1, workers := p.workers[w := if p.next < |jobs| then Claimed(p.next) else Stopped])
    case Claimed(i) =>
      if !Conflicted(jobs[i]) then p.(workers := p.workers[w := Finished(i, Unconflicted(jobs[i].states))])
      else if KeyOf(jobs[i]) in p.cache then
        p.(hits := p.hits + 1, looked := p.looked + {i},
           workers := p.workers[w := Finished(i, p.cache[KeyOf(jobs[i])])])
      else p.(workers := p.workers[w := Missed(i)])
    case Missed(i) =>
      p.(misses := p.misses + 1, looked := p.looked + {i}, workers := p.workers[w := Counted(i)])
    case Counted(i) =>
      p.(workers := p.workers[w := Resolved(i, Answer(jobs[i], sig))])
    case Resolved(i, r) =>
      p.(cache := p.cache[KeyOf(jobs[i]) := r], workers := p.workers[w := Finished(i, r)])
    case Finished(i, r) =>
      p.(results := p.results[i := Some(r)], workers := p.workers[w := Idle])
    case Stopped => p
  }

  // ---------------------------------------------------------------------------
  // What every step keeps
  // ---------------------------------------------------------------------------

  /** Of the jobs that reach the cache, those with equal keys deserve equal answers. */
  ghost predicate KeysDecide(jobs: seq<Call>, sig: SigCheck) {
    forall i, j | 0 <= i < |jobs| && 0 <= j < |jobs| && Conflicted(jobs[i]) && Conflicted(jobs[j])
                  && KeyOf(jobs[i]) == KeyOf(jobs[j]) ::
      Answer(jobs[i], sig) == Answer(jobs[j], sig)
  }

  ghost predicate CacheIsRight(cache: map<Key, StateMap>, jobs: seq<Call>, sig: SigCheck) {
    forall i | 0 <= i < |jobs| && Conflicted(jobs[i]) && KeyOf(jobs[i]) in cache ::
      cache[KeyOf(jobs[i])] == Answer(jobs[i], sig)
  }

  /** A worker holds a claimed, unanswered job, and past the lookup a conflicted one. */
  ghost predicate WorkerStands(p: Pool, jobs: seq<Call>, w: Worker) {
    && (Holding(w) ==> w.job < |jobs| && w.job < p.next && w.job < |p.results| && p.results[w.job] == None)
    && (w.Missed? || w.Counted? || w.Resolved? ==> w.job < |jobs| && Conflicted(jobs[w.job]))
    && (w.Stopped? ==> |jobs| <= p.next)
  }

  /** Any result a worker carries is its job's answer. */
  ghost predicate WorkerIsRight(jobs: seq<Call>, w: Worker, sig: SigCheck) {
    w.Resolved? || w.Finished? ==> w.job < |jobs| && w.result == Answer(jobs[w.job], sig)
  }

  /** No two workers hold the same job. */
  ghost predicate Exclusive(workers: seq<Worker>) {
    forall v, w | 0 <= v < w < |workers| && Holding(workers[v]) && Holding(workers[w]) ::
      workers[v].job != workers[w].job
  }

  ghost predicate Holds(workers: seq<Worker>, w: nat, job: nat) {
    w < |workers| && Holding(workers[w]) && workers[w].job == job
  }

  /** A claimed job is answered or in some worker's hands... */
  ghost predicate ClaimedIsHeld(p: Pool, jobs: seq<Call>) {
    && |p.results| == |jobs|
    && forall i | 0 <= i < |jobs| && i < p.next && p.results[i] == None :: exists w :: Holds(p.workers, w, i)
  }

  /** ...and an unclaimed one is neither. */
  ghost predicate UnclaimedIsOpen(p: Pool, jobs: seq<Call>) {
    |p.results| == |jobs| && forall i | p.next <= i < |jobs| :: p.results[i] == None
  }

  ghost predicate ResultsAreRight(p: Pool, jobs: seq<Call>, sig: SigCheck) {
    forall i | 0 <= i < |jobs| && i < |p.results| && p.results[i].Some? :: p.results[i].value == Answer(jobs[i], sig)
  }

  /** The counters count exactly the lookups of conflicted jobs, each once. */
  ghost predicate CountsAreRight(p: Pool, jobs: seq<Call>, before: nat) {
    && p.hits + p.misses == before + |p.looked|
    && (forall i | i in p.looked :: i < |jobs| && i < p.next && Conflicted(jobs[i]))
    && (forall i | 0 <= i < |jobs| && i < |p.results| && p.results[i].Some? && Conflicted(jobs[i]) :: i in p.looked)
    && (forall w | 0 <= w < |p.workers| && Holding(p.workers[w]) && p.workers[w].job < |jobs|
                   && Conflicted(jobs[p.workers[w].job]) ::
          PastLookup(p.workers[w]) <==> p.workers[w].job in p.looked)
  }

  /** Claims and counters, whatever the cache holds. */
  ghost predicate Tracked(p: Pool, jobs: seq<Call>, before: nat) {
    && ClaimedIsHeld(p, jobs) && UnclaimedIsOpen(p, jobs)
    && (forall w | 0 <= w < |p.workers| :: WorkerStands(p, jobs, p.workers[w]))
    && Exclusive(p.workers)
    && CountsAreRight(p, jobs, before)
  }

  /** Cache, carried results and stored results are answers. */
  ghost predicate Right(p: Pool, jobs: seq<Call>, sig: SigCheck) {
    && (forall w | 0 <= w < |p.workers| :: WorkerIsRight(jobs, p.workers[w], sig))
    && ResultsAreRight(p, jobs, sig)
    && CacheIsRight(p.cache, jobs, sig)
  }

  lemma ConflictFreeAnswer(job: Call, sig: SigCheck)
    ensures !Conflicted(job) ==> Unconflicted(job.states) == Answer(job, sig)
  {
  }

  lemma StepKeepsWorkers(p: Pool, jobs: seq<Call>, before: nat, w: nat, sig: SigCheck)
    requires Tracked(p, jobs, before) && Steppable(p, jobs, w)
    ensures forall v | 0 <= v < |p.workers| :: WorkerStands(Step(p, jobs, w, sig), jobs, Step(p, jobs, w, sig).workers[v])
    ensures Exclusive(Step(p, jobs, w, sig).workers)
  {
    hide Answer, Conflicted, InputKey, Unconflicted, ClaimedIsHeld, CountsAreRight;
    assert WorkerStands(p, jobs, p.workers[w]);
    var q := Step(p, jobs, w, sig);
    forall v | 0 <= v < |p.workers| ensures WorkerStands(q, jobs, q.workers[v]) {
      assert WorkerStands(p, jobs, p.workers[v]);
    }
  }

  lemma StepKeepsClaims(p: Pool, jobs: seq<Call>, before: nat, w: nat, sig: SigCheck)
    requires Tracked(p, jobs, before) && Steppable(p, jobs, w)
    ensures ClaimedIsHeld(Step(p, jobs, w, sig), jobs) && UnclaimedIsOpen(Step(p, jobs, w, sig), jobs)
  {
    hide Answer, Conflicted, InputKey, Unconflicted, CountsAreRight, Exclusive;
    assert WorkerStands(p, jobs, p.workers[w]);
    var q := Step(p, jobs, w, sig);
    forall i | 0 <= i < |jobs| && i < q.next && q.results[i] == None ensures exists v :: Holds(q.workers, v, i) {
      if i < p.next {
        var v :| Holds(p.workers, v, i);
        assert Holds(q.workers, v, i);
      } else {
        assert Holds(q.workers, w, i);
      }
    }
  }

  lemma StepKeepsCounts(p: Pool, jobs: seq<Call>, before: nat, w: nat, sig: SigCheck)
    requires Tracked(p, jobs, before) && Steppable(p, jobs, w)
    ensures CountsAreRight(Step(p, jobs, w, sig), jobs, before)
  {
    hide Answer, Conflicted, InputKey, Unconflicted, ClaimedIsHeld;
    assert WorkerStands(p, jobs, p.workers[w]);
    var q := Step(p, jobs, w, sig);
    forall v | 0 <= v < |q.workers| && Holding(q.workers[v]) && q.workers[v].job < |jobs| && Conflicted(jobs[q.workers[v].job])
      ensures PastLookup(q.workers[v]) <==> q.workers[v].job in q.looked
    {
      assert WorkerStands(p, jobs, p.workers[v]);
    }
  }

  lemma ResultPerJob(p: Pool, jobs: seq<Call>)
    requires ClaimedIsHeld(p, jobs)
    ensures |p.results| == |jobs|
  {
  }

  lemma SameWorkers(p: Pool, jobs: seq<Call>, w: nat, sig: SigCheck)
    requires Steppable(p, jobs, w)
    ensures |Step(p, jobs, w, sig).workers| == |p.workers|
  {
    hide Answer, Conflicted, KeyOf, Unconflicted;
  }

  /** Every worker can always step, and its step keeps claims and counters in order, whatever the jobs and the cache. */
  lemma StepKeepsTracked(p: Pool, jobs: seq<Call>, before: nat, w: nat, sig: SigCheck)
    requires Tracked(p, jobs, before) && w < |p.workers|
    ensures Steppable(p, jobs, w)
    ensures Tracked(Step(p, jobs, w, sig), jobs, before) && |Step(p, jobs, w, sig).workers| == |p.workers|
  {
    hide ClaimedIsHeld, UnclaimedIsOpen, Exclusive, CountsAreRight, Answer, Conflicted, KeyOf, Unconflicted, Step;
    assert WorkerStands(p, jobs, p.workers[w]) && |p.results| == |jobs| by {
      ResultPerJob(p, jobs);
    }
    StepKeepsWorkers(p, jobs, before, w, sig);
    StepKeepsClaims(p, jobs, before, w, sig);
    StepKeepsCounts(p, jobs, before, w, sig);
    SameWorkers(p, jobs, w, sig);
  }

  /** And if keys decide answers, every step keeps every answer right. */
  lemma StepKeepsRight(p: Pool, jobs: seq<Call>, before: nat, w: nat, sig: SigCheck)
    requires Tracked(p, jobs, before) && Steppable(p, jobs, w) && KeysDecide(jobs, sig) && Right(p, jobs, sig)
    ensures Right(Step(p, jobs, w, sig), jobs, sig)
  {
    hide Answer, Conflicted, InputKey, Unconflicted, CountsAreRight, Exclusive, ClaimedIsHeld, UnclaimedIsOpen;
    assert WorkerStands(p, jobs, p.workers[w]) && WorkerIsRight(jobs, p.workers[w], sig);
    if Holding(p.workers[w]) {
      ConflictFreeAnswer(jobs[p.workers[w].job], sig);
    }
  }

  // ---------------------------------------------------------------------------
  // Runs
  // ---------------------------------------------------------------------------

  /** Workers starting on a batch over a cache that may already hold entries. */
  function Start(jobs: seq<Call>, workers: nat, cache: map<Key, StateMap>, hits: nat, misses: nat): Pool {
    Pool(0, seq(workers, _ => Idle), seq(|jobs|, _ => None), cache, hits, misses, {})
  }

  /** The batch after the workers named by `schedule` took their steps, one each. */
  ghost predicate Reached(p: Pool, start: Pool, jobs: seq<Call>, schedule: seq<nat>, sig: SigCheck)
    decreases |schedule|
  {
    if schedule == [] then p == start
    else
      var last := schedule[|schedule| - 1];
      exists q ::
        && Reached(q, start, jobs, schedule[..|schedule| - 1], sig)
        && Steppable(q, jobs, last) && p == Step(q, jobs, last, sig)
  }

  lemma StartIsTracked(jobs: seq<Call>, workers: nat, cache: map<Key, StateMap>, hits: nat, misses: nat)
    ensures Tracked(Start(jobs, workers, cache, hits, misses), jobs, hits + misses)
  {
    hide Conflicted;
  }

  lemma {:induction false} ReachedIsTracked(
    p: Pool, start: Pool, jobs: seq<Call>, schedule: seq<nat>, before: nat, sig: SigCheck)
    requires Tracked(start, jobs, before) && Reached(p, start, jobs, schedule, sig)
    ensures Tracked(p, jobs, before) && |p.workers| == |start.workers|
    decreases |schedule|
  {
    hide Tracked, Step, Conflicted;
    if schedule != [] {
      var w := schedule[|schedule| - 1];
      var q :| && Reached(q, start, jobs, schedule[..|schedule| - 1], sig)
               && Steppable(q, jobs, w) && p == Step(q, jobs, w, sig);
      ReachedIsTracked(q, start, jobs, schedule[..|schedule| - 1], before, sig);
      StepKeepsTracked(q, jobs, before, w, sig);
    }
  }

  lemma {:induction false} ReachedIsRight(
    p: Pool, start: Pool, jobs: seq<Call>, schedule: seq<nat>, before: nat, sig: SigCheck)
    requires Tracked(start, jobs, before) && Right(start, jobs, sig) && KeysDecide(jobs, sig)
    requires Reached(p, start, jobs, schedule, sig)
    ensures Right(p, jobs, sig)
    decreases |schedule|
  {
    hide Tracked, Right, Step, KeysDecide, Conflicted;
    if schedule != [] {
      var w := schedule[|schedule| - 1];
      var q :| && Reached(q, start, jobs, schedule[..|schedule| - 1], sig)
               && Steppable(q, jobs, w) && p == Step(q, jobs, w, sig);
      ReachedIsTracked(q, start, jobs, schedule[..|schedule| - 1], before, sig);
      ReachedIsRight(q, start, jobs, schedule[..|schedule| - 1], before, sig);
      StepKeepsRight(q, jobs, before, w, sig);
    }
  }

  ghost predicate AllStopped(p: Pool) {
    forall w | 0 <= w < |p.workers| :: p.workers[w].Stopped?
  }

  function ConflictedJobs(jobs: seq<Call>): set<nat> {
    set i: nat | i < |jobs| && Conflicted(jobs[i])
  }

  /** When all workers have stopped every job is answered and the counters have grown by the conflicted ones. */
  lemma BatchAnswersEveryJob(
    jobs: seq<Call>, workers: nat, cache: map<Key, StateMap>, hits: nat, misses: nat,
    schedule: seq<nat>, p: Pool, sig: SigCheck)
    requires workers >= 1 && AllStopped(p)
    requires Reached(p, Start(jobs, workers, cache, hits, misses), jobs, schedule, sig)
    ensures |p.results| == |jobs| && forall i | 0 <= i < |jobs| :: p.results[i].Some?
    ensures p.hits + p.misses == hits + misses + |ConflictedJobs(jobs)|
  {
    hide Conflicted, Step, Reached, KeyOf;
    StartIsTracked(jobs, workers, cache, hits, misses);
    ReachedIsTracked(p, Start(jobs, workers, cache, hits, misses), jobs, schedule, hits + misses, sig);
    assert WorkerStands(p, jobs, p.workers[0]);
    forall i | 0 <= i < |jobs| ensures p.results[i].Some? {
      assert forall w :: !Holds(p.workers, w, i);
    }
    assert p.looked == ConflictedJobs(jobs);
  }

  /**
   Whatever the interleaving, when all workers have stopped every result slot holds the plain
   resolution of its own job.
   */
  lemma BatchResolvesEveryJob(
    jobs: seq<Call>, workers: nat, cache: map<Key, StateMap>, hits: nat, misses: nat,
    schedule: seq<nat>, p: Pool, sig: SigCheck)
    requires workers >= 1 && KeysDecide(jobs, sig) && CacheIsRight(cache, jobs, sig) && AllStopped(p)
    requires Reached(p, Start(jobs, workers, cache, hits, misses), jobs, schedule, sig)
    ensures |p.results| == |jobs| && forall i | 0 <= i < |jobs| :: p.results[i] == Some(Answer(jobs[i], sig))
  {
    hide Answer, Conflicted, Step, CacheIsRight, KeysDecide, Reached, KeyOf, AllStopped, Tracked;
    StartIsTracked(jobs, workers, cache, hits, misses);
    BatchAnswersEveryJob(jobs, workers, cache, hits, misses, schedule, p, sig);
    ReachedIsRight(p, Start(jobs, workers, cache, hits, misses), jobs, schedule, hits + misses, sig);
  }

  /** Any two conflicted calls over the same ids are the same request: what a caller can see to. */
  ghost predicate RequestsDecide(calls: seq<Call>) {
    forall i, j | 0 <= i < |calls| && 0 <= j < |calls| && Conflicted(calls[i]) && Conflicted(calls[j])
                  && InputIds(calls[i].states) == InputIds(calls[j].states) ::
      SameRequest(calls[i], calls[j])
  }

  lemma SameRequestsDecide(calls: seq<Call>, sig: SigCheck, i: nat, j: nat)
    requires RequestsDecide(calls) && i < |calls| && j < |calls|
    requires Conflicted(calls[i]) && Conflicted(calls[j]) && KeyOf(calls[i]) == KeyOf(calls[j])
    ensures Answer(calls[i], sig) == Answer(calls[j], sig)
  {
    hide InputKey, SameRequest, Answer, InputIds, Conflicted;
    SameKeySameIds(calls[i].states, calls[j].states);
    SameRequestSameAnswer(calls[i], calls[j], sig);
  }

  /** After any earlier calls, a batch whose requests and theirs decide resolves every job. */
  lemma BatchOfRequests(
    calls: seq<Call>, jobs: seq<Call>, workers: nat, hits: nat, misses: nat, schedule: seq<nat>, p: Pool, sig: SigCheck)
    requires workers >= 1 && RequestsDecide(calls + jobs) && AllStopped(p)
    requires Reached(p, Start(jobs, workers, CacheAfter(calls, sig).entries, hits, misses), jobs, schedule, sig)
    ensures |p.results| == |jobs| && forall i | 0 <= i < |jobs| :: p.results[i] == Some(Answer(jobs[i], sig))
  {
    hide Answer, Conflicted, Step, Reached, AllStopped, InputKey, RequestsDecide, CacheAfter;
    var all := calls + jobs;
    forall i, j | 0 <= i < |jobs| && 0 <= j < |jobs| && Conflicted(jobs[i]) && Conflicted(jobs[j])
                  && KeyOf(jobs[i]) == KeyOf(jobs[j])
      ensures Answer(jobs[i], sig) == Answer(jobs[j], sig)
    {
      assert all[|calls| + i] == jobs[i] && all[|calls| + j] == jobs[j];
      SameRequestsDecide(all, sig, |calls| + i, |calls| + j);
    }
    var cache := CacheAfter(calls, sig).entries;
    forall i | 0 <= i < |jobs| && Conflicted(jobs[i]) && KeyOf(jobs[i]) in cache
      ensures cache[KeyOf(jobs[i])] == Answer(jobs[i], sig)
    {
      CacheHoldsFirstAnswers(calls, sig, KeyOf(jobs[i]));
      FirstWithKeyIsFirst(calls, KeyOf(jobs[i]));
      var first := FirstWithKey(calls, KeyOf(jobs[i])).value;
      assert all[first] == calls[first] && all[|calls| + i] == jobs[i];
      SameRequestsDecide(all, sig, first, |calls| + i);
    }
    BatchResolvesEveryJob(jobs, workers, cache, hits, misses, schedule, p, sig);
  }

  /** At every moment of every interleaving a job has at most one holder, and none once it is answered. */
  lemma JobsAreClaimedOnce(
    jobs: seq<Call>, workers: nat, cache: map<Key, StateMap>, hits: nat, misses: nat,
    schedule: seq<nat>, p: Pool, job: nat, v: nat, w: nat, sig: SigCheck)
    requires Reached(p, Start(jobs, workers, cache, hits, misses), jobs, schedule, sig)
    requires Holds(p.workers, v, job)
    ensures job < |jobs| && |p.results| == |jobs| && p.results[job] == None
    ensures Holds(p.workers, w, job) ==> v == w
  {
    hide Answer, Conflicted, Step, Reached, KeyOf, CountsAreRight;
    StartIsTracked(jobs, workers, cache, hits, misses);
    ReachedIsTracked(p, Start(jobs, workers, cache, hits, misses), jobs, schedule, hits + misses, sig);
    assert WorkerStands(p, jobs, p.workers[v]);
  }
}
