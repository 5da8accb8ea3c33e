/** What a batch leaves in the shared cache and in the two counters, in every interleaving. */
module ParallelLaws {
  import opened Orders
  import opened Events
  import opened Auth
  import opened AuthChain
  import opened StateRes
  import opened StateResLocal
  import opened ResolverCache
  import opened ParallelResolver

  /** Some input map holds the id. */
  ghost predicate Mentions(states: set<StateMap>, id: EventId) {
    exists s, slot :: s in states && slot in s && s[slot] == id
  }

  lemma MentionsIs(states: set<StateMap>, id: EventId)
    ensures id in InputIds(states) <==> Mentions(states, id)
  {
  }

  /** Two inputs have one key exactly if they mention the same ids. */
  lemma SameKeyIff(a: set<StateMap>, b: set<StateMap>)
    ensures InputKey(a) == InputKey(b) <==> forall id :: Mentions(a, id) <==> Mentions(b, id)
  {
    hide InputKey, InputIds, Mentions;
    SameKeySameIds(a, b);
    forall id ensures id in InputIds(a) <==> Mentions(a, id) {
      MentionsIs(a, id);
    }
    forall id ensures id in InputIds(b) <==> Mentions(b, id) {
      MentionsIs(b, id);
    }
    if forall id :: Mentions(a, id) <==> Mentions(b, id) {
      assert InputIds(a) == InputIds(b);
    }
  }

  // ---------------------------------------------------------------------------
  // What every step keeps
  // ---------------------------------------------------------------------------

  ghost predicate AnswersKey(jobs: seq<Call>, key: Key, answer: StateMap, sig: SigCheck) {
    exists i :: 0 <= i < |jobs| && Conflicted(jobs[i]) && KeyOf(jobs[i]) == key && answer == Answer(jobs[i], sig)
  }

  /** Entries present at the start stay, and any other is the answer to a job with its key. */
  ghost predicate Entries(p: Pool, start: Pool, jobs: seq<Call>, sig: SigCheck) {
    && (forall key | key in start.cache :: key in p.cache && p.cache[key] == start.cache[key])
    && (forall key | key in p.cache && key !in start.cache :: AnswersKey(jobs, key, p.cache[key], sig))
  }

  /** `missed` are the jobs counted as misses: new keys, each stored by one of them or in a worker's hands. */
  ghost predicate Misses(p: Pool, start: Pool, jobs: seq<Call>, missed: set<nat>) {
    && p.misses == start.misses + |missed|
    && (forall i | i in missed :: i < |jobs| && Conflicted(jobs[i]) && KeyOf(jobs[i]) !in start.cache)
    && (forall key | key in p.cache && key !in start.cache :: exists i :: Stored(jobs, key, missed, i))
  }

  ghost predicate Stored(jobs: seq<Call>, key: Key, missed: set<nat>, i: nat) {
    i in missed && i < |jobs| && KeyOf(jobs[i]) == key
  }

  ghost predicate WorkerMisses(p: Pool, start: Pool, jobs: seq<Call>, missed: set<nat>, w: Worker) {
    && (Holding(w) ==> w.job < |jobs|)
    && (w.Claimed? || w.Missed? ==> w.job !in missed)
    && (w.Missed? ==> Conflicted(jobs[w.job]) && KeyOf(jobs[w.job]) !in start.cache)
    && (w.Counted? || w.Resolved? ==> w.job in missed)
    && (w.Finished? && Conflicted(jobs[w.job]) ==> KeyOf(jobs[w.job]) in p.cache)
  }

  ghost predicate Answered(p: Pool, jobs: seq<Call>) {
    |p.results| == |jobs| && forall i | 0 <= i < |jobs| && p.results[i].Some? && Conflicted(jobs[i]) :: KeyOf(jobs[i]) in p.cache
  }

  ghost predicate ResolvedIsAnswer(jobs: seq<Call>, w: Worker, sig: SigCheck) {
    w.Resolved? ==> w.job < |jobs| && w.result == Answer(jobs[w.job], sig)
  }

  ghost predicate Filling(p: Pool, start: Pool, jobs: seq<Call>, missed: set<nat>, sig: SigCheck) {
    && Entries(p, start, jobs, sig) && Misses(p, start, jobs, missed) && Answered(p, jobs)
    && (forall i | i in missed :: i < p.next)
    && (forall v | 0 <= v < |p.workers| :: WorkerMisses(p, start, jobs, missed, p.workers[v]) && ResolvedIsAnswer(jobs, p.workers[v], sig))
  }

  /** The jobs counted as misses after a step of worker `w`. */
  function MissedAfter(p: Pool, w: nat, missed: set<nat>): set<nat> {
    if w < |p.workers| && p.workers[w].Missed? then missed + {p.workers[w].job} else missed
  }

  lemma StepKeepsEntries(p: Pool, start: Pool, jobs: seq<Call>, missed: set<nat>, before: nat, w: nat, sig: SigCheck)
    requires Tracked(p, jobs, before) && Filling(p, start, jobs, missed, sig) && Steppable(p, jobs, w)
    ensures Entries(Step(p, jobs, w, sig), start, jobs, sig)
  {
    hide Answer, Conflicted, KeyOf, Unconflicted, Tracked, Answered;
    assert WorkerMisses(p, start, jobs, missed, p.workers[w]) && ResolvedIsAnswer(jobs, p.workers[w], sig);
    if p.workers[w].Resolved? {
      var i := p.workers[w].job;
      assert AnswersKey(jobs, KeyOf(jobs[i]), p.workers[w].result, sig);
    }
  }

  lemma StepKeepsMisses(p: Pool, start: Pool, jobs: seq<Call>, missed: set<nat>, before: nat, w: nat, sig: SigCheck)
    requires Tracked(p, jobs, before) && Filling(p, start, jobs, missed, sig) && Steppable(p, jobs, w)
    ensures Misses(Step(p, jobs, w, sig), start, jobs, MissedAfter(p, w, missed))
    ensures Answered(Step(p, jobs, w, sig), jobs)
  {
    hide Answer, Conflicted, KeyOf, Unconflicted, Tracked, Entries;
    assert WorkerMisses(p, start, jobs, missed, p.workers[w]);
    var q, m := Step(p, jobs, w, sig), MissedAfter(p, w, missed);
    forall key | key in q.cache && key !in start.cache ensures exists i :: Stored(jobs, key, m, i) {
      if key in p.cache {
        var i: nat :| Stored(jobs, key, missed, i);
        assert Stored(jobs, key, m, i);
      } else {
        assert Stored(jobs, key, m, p.workers[w].job);
      }
    }
  }

  lemma HeldStays(p: Pool, start: Pool, jobs: seq<Call>, sig: SigCheck)
    requires Entries(p, start, jobs, sig)
    ensures forall key | key in start.cache :: key in p.cache
  {
  }

  lemma StepKeepsWorkersMisses(p: Pool, start: Pool, jobs: seq<Call>, missed: set<nat>, before: nat, w: nat, sig: SigCheck)
    requires Tracked(p, jobs, before) && Filling(p, start, jobs, missed, sig) && Steppable(p, jobs, w)
    ensures var q, m := Step(p, jobs, w, sig), MissedAfter(p, w, missed);
      && (forall i | i in m :: i < q.next)
      && (forall v | 0 <= v < |q.workers| :: WorkerMisses(q, start, jobs, m, q.workers[v]) && ResolvedIsAnswer(jobs, q.workers[v], sig))
  {
    hide Answer, Conflicted, KeyOf, Unconflicted, Entries, Misses, Answered, CountsAreRight, ClaimedIsHeld, UnclaimedIsOpen;
    var q, m := Step(p, jobs, w, sig), MissedAfter(p, w, missed);
    HeldStays(p, start, jobs, sig);
    assert WorkerStands(p, jobs, p.workers[w]);
    assert WorkerMisses(p, start, jobs, missed, p.workers[w]) && ResolvedIsAnswer(jobs, p.workers[w], sig);
    forall v | 0 <= v < |q.workers| ensures WorkerMisses(q, start, jobs, m, q.workers[v]) && ResolvedIsAnswer(jobs, q.workers[v], sig) {
      assert WorkerStands(p, jobs, p.workers[v]);
      assert WorkerMisses(p, start, jobs, missed, p.workers[v]) && ResolvedIsAnswer(jobs, p.workers[v], sig);
    }
  }

  lemma {:induction false} ReachedIsFilling(
    p: Pool, start: Pool, jobs: seq<Call>, schedule: seq<nat>, before: nat, sig: SigCheck) returns (missed: set<nat>)
    requires Tracked(start, jobs, before) && Filling(start, start, jobs, {}, sig) && Reached(p, start, jobs, schedule, sig)
    ensures Filling(p, start, jobs, missed, sig) && Tracked(p, jobs, before)
    decreases |schedule|
  {
    hide Tracked, Step, Conflicted, KeyOf, Entries, Misses, Answered, WorkerMisses, ResolvedIsAnswer;
    if schedule == [] {
      missed := {};
    } else {
      var w := schedule[|schedule| - 1];
      var q :| && Reached(q, start, jobs, schedule[..|schedule| - 1], sig)
               && Steppable(q, jobs, w) && p == Step(q, jobs, w, sig);
      var sofar := ReachedIsFilling(q, start, jobs, schedule[..|schedule| - 1], before, sig);
      StepKeepsTracked(q, jobs, before, w, sig);
      StepKeepsEntries(q, start, jobs, sofar, before, w, sig);
      StepKeepsMisses(q, start, jobs, sofar, before, w, sig);
      StepKeepsWorkersMisses(q, start, jobs, sofar, before, w, sig);
      missed := MissedAfter(q, w, sofar);
    }
  }

  /** The conflicted jobs whose key is not cached, and their keys. */
  function NewJobs(jobs: seq<Call>, cache: map<Key, StateMap>): set<nat> {
    set i: nat | i < |jobs| && Conflicted(jobs[i]) && KeyOf(jobs[i]) !in cache
  }

  function NewKeys(jobs: seq<Call>, cache: map<Key, StateMap>): set<Key> {
    set i | i in NewJobs(jobs, cache) && i < |jobs| :: KeyOf(jobs[i])
  }

  /**
   When all workers have stopped, the cache holds a key exactly if it held it before or a conflicted job
   has it. What it held is untouched, and a new key has the answer to a job that has it. Every job whose
   key was held is a hit; at least one job for each new key is a miss.
   */
  lemma BatchFillsCache(
    jobs: seq<Call>, workers: nat, cache: map<Key, StateMap>, hits: nat, misses: nat, schedule: seq<nat>, p: Pool, sig: SigCheck)
    requires workers >= 1 && AllStopped(p)
    requires Reached(p, Start(jobs, workers, cache, hits, misses), jobs, schedule, sig)
    ensures p.cache.Keys == cache.Keys + NewKeys(jobs, cache)
    ensures forall key | key in cache :: key in p.cache && p.cache[key] == cache[key]
    ensures forall key | key in NewKeys(jobs, cache) :: key in p.cache && AnswersKey(jobs, key, p.cache[key], sig)
    ensures misses + |NewKeys(jobs, cache)| <= p.misses <= misses + |NewJobs(jobs, cache)|
  {
    hide Conflicted, Step, Reached, KeyOf, Answer;
    var start := Start(jobs, workers, cache, hits, misses);
    StartIsTracked(jobs, workers, cache, hits, misses);
    var missed := ReachedIsFilling(p, start, jobs, schedule, hits + misses, sig);
    BatchAnswersEveryJob(jobs, workers, cache, hits, misses, schedule, p, sig);
    forall key | key in NewKeys(jobs, cache) ensures key in p.cache && key !in cache {
    }
    forall key | key in p.cache && key !in cache ensures key in NewKeys(jobs, cache) {
      var i: nat :| Stored(jobs, key, missed, i);
      assert i in NewJobs(jobs, cache);
    }
    assert missed <= NewJobs(jobs, cache);
    SubsetIsSmaller(missed, NewJobs(jobs, cache));
    forall key | key in NewKeys(jobs, cache) ensures exists i :: Stored(jobs, key, missed, i) {
    }
    FewKeys(jobs, NewKeys(jobs, cache), missed);
  }

  lemma {:induction false} SubsetIsSmaller<T>(a: set<T>, b: set<T>)
    requires a <= b
    ensures |a| <= |b|
  {
    assert b == a + (b - a);
  }

  lemma {:induction false} FewKeys(jobs: seq<Call>, keys: set<Key>, missed: set<nat>)
    requires forall key | key in keys :: exists i :: Stored(jobs, key, missed, i)
    ensures |keys| <= |missed|
    decreases |keys|
  {
    hide KeyOf;
    if keys != {} {
      var key :| key in keys;
      var i: nat :| Stored(jobs, key, missed, i);
      forall other | other in keys - {key} ensures exists j :: Stored(jobs, other, missed - {i}, j) {
        var j: nat :| Stored(jobs, other, missed, j);
        assert Stored(jobs, other, missed - {i}, j);
      }
      FewKeys(jobs, keys - {key}, missed - {i});
    }
  }
}
