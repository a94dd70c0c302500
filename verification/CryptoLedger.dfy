/** What the pool makes of every event and every run, said of its fields and of the
    events alone (`worker.ts`): which jobs are settled, how, and what is counted. */
module CryptoLedger {
  import opened Wrappers
  import opened CryptoPool

  /** A result for the running job. */
  predicate Answers(p: Pool, ev: Event) {
    ev.FromWorker? && ev.message.Result? && p.active.Some? && p.active.value.id == ev.message.id
  }

  predicate Completes(p: Pool, ev: Event) {
    Answers(p, ev) && ev.message.ok
  }

  /** The events that end a worker. */
  predicate GivesUp(p: Pool, ev: Event) {
    match ev
    case Run(_) => false
    case FromWorker(_, m) => m.ReadyError? || (Answers(p, ev) && m.fatal)
    case WorkerError(_) => true
    case Timeout(_) => true
  }

  predicate Accepts(p: Pool, ev: Event) {
    ev.Run? && p.worker.Some? && |p.queue| < MAX_QUEUED
  }

  /** The jobs to decide about: those held, less the answered, plus the accepted. */
  function Held(p: Pool, ev: Event): seq<Job> {
    (if Answers(p, ev) then [] else ActiveJobs(p)) + p.queue + (if Accepts(p, ev) then [Job(p.nextId, ev.op)] else [])
  }

  function Answer(p: Pool, ev: Event): seq<Settled> {
    if Answers(p, ev) then [Settled(p.active.value, ev.message.ok)] else []
  }

  function FailuresBefore(p: Pool, ev: Event): nat {
    if Completes(p, ev) then 0 else p.spawnFailures
  }

  /** The answer is settled as it says and the jobs `gone` as failed; what remains
      of those held is running or waiting, in order. */
  ghost predicate Settles(p: Pool, ev: Event, r: Pool, gone: seq<Job>) {
    && r.settled == p.settled + Answer(p, ev) + Rejected(gone)
    && gone + ActiveJobs(r) + r.queue == Held(p, ev)
    && r.nextId == p.nextId + (if Accepts(p, ev) then 1 else 0)
  }

  /** Without a death only jobs that cannot be posted fail, and a job starts by
      being posted to the worker. */
  ghost predicate Proceeds(p: Pool, ev: Event, r: Pool, unposted: nat -> bool, gone: seq<Job>) {
    && (forall j :: j in gone ==> unposted(j.id))
    && (p.active.Some? && !Answers(p, ev) ==> gone == [] && r.active == p.active)
    && (if r.active.Some? && (p.active == None || Answers(p, ev)) then
          p.worker.Some? && !unposted(r.active.value.id) && r.posted == p.posted + [Post(p.worker.value, r.active.value.id)]
        else r.posted == p.posted)
    && r.worker == p.worker && r.attempts == p.attempts && r.spawnFailures == FailuresBefore(p, ev)
  }

  /** Each attempt that throws counts as one more failure; the first that does not
      is the new worker. */
  ghost predicate Respawned(attempts: nat, failures: int, r: Pool, throws: nat -> bool) {
    && attempts <= r.attempts
    && (forall k :: attempts <= k < r.attempts && r.worker != Some(k) ==> throws(k))
    && (if r.worker.Some? then
          attempts < r.attempts && r.worker == Some(r.attempts - 1) && !throws(r.attempts - 1)
          && r.spawnFailures == failures + (r.attempts - attempts)
        else r.spawnFailures == failures + (r.attempts - attempts) + 1)
  }

  /** After a death nothing is left to do. */
  ghost predicate Replaced(p: Pool, ev: Event, r: Pool, throws: nat -> bool) {
    && r.active == None && r.queue == [] && r.posted == p.posted
    && Respawned(p.attempts, FailuresBefore(p, ev), r, throws)
  }

  ghost predicate Counts(p: Pool, ev: Event, r: Pool) {
    forall op :: Counted(r.offloaded, op) ==
                   Counted(p.offloaded, op) + if Completes(p, ev) && p.active.value.op == op then 1 else 0
  }

  ghost predicate Means(p: Pool, ev: Event, r: Pool, throws: nat -> bool, unposted: nat -> bool, gone: seq<Job>) {
    && Settles(p, ev, r, gone)
    && (if GivesUp(p, ev) then Replaced(p, ev, r, throws) else Proceeds(p, ev, r, unposted, gone))
    && Counts(p, ev, r)
    && r.ready == (p.ready || (ev.FromWorker? && ev.message.Ready?))
  }

  // --- the parts ---

  ghost predicate SameButWork(p: Pool, r: Pool) {
    && r.worker == p.worker && r.attempts == p.attempts && r.nextId == p.nextId && r.spawnFailures == p.spawnFailures
    && r.ready == p.ready && r.offloaded == p.offloaded
  }

  ghost predicate Pumped(p: Pool, r: Pool, unposted: nat -> bool, n: nat) {
    && SameButWork(p, r) && n <= |p.queue|
    && r.settled == p.settled + Rejected(p.queue[..n])
    && p.queue[..n] + (if p.active.Some? then [] else ActiveJobs(r)) + r.queue == p.queue
    && (forall j :: j in p.queue[..n] ==> unposted(j.id))
    && (p.active.Some? ==> n == 0 && r.active == p.active)
    && (if r.active.Some? && p.active == None then
          p.worker.Some? && !unposted(r.active.value.id) && r.posted == p.posted + [Post(p.worker.value, r.active.value.id)]
        else r.posted == p.posted)
  }

  lemma FirstOfMany(job: Job, queue: seq<Job>, n: nat, active: seq<Job>, left: seq<Job>)
    requires queue != [] && queue[0] == job && n < |queue| && queue[1..][..n] + active + left == queue[1..]
    ensures queue[..n + 1] == [job] + queue[1..][..n] && queue[..n + 1] + active + left == queue
  {
    assert ([job] + queue[1..][..n]) + active + left == [job] + (queue[1..][..n] + active + left);
  }

  lemma RejectedMore(before: seq<Settled>, job: Job, jobs: seq<Job>)
    ensures before + [Settled(job, false)] + Rejected(jobs) == before + Rejected([job] + jobs)
  {
    assert Rejected([job] + jobs) == [Settled(job, false)] + Rejected(jobs);
  }

  /** One job more cannot be posted. */
  lemma PumpedOneMore(p: Pool, r: Pool, unposted: nat -> bool, n: nat)
    requires p.active == None && p.worker.Some? && p.queue != [] && unposted(p.queue[0].id)
    requires Pumped(p.(queue := p.queue[1..], settled := p.settled + [Settled(p.queue[0], false)]), r, unposted, n)
    ensures Pumped(p, r, unposted, n + 1)
  {
    FirstOfMany(p.queue[0], p.queue, n, ActiveJobs(r), r.queue);
    RejectedMore(p.settled, p.queue[0], p.queue[1..][..n]);
  }

  lemma {:induction false} PumpMeans(p: Pool, unposted: nat -> bool) returns (n: nat)
    ensures Pumped(p, Pump(p, unposted), unposted, n)
    decreases |p.queue|
  {
    n := 0;
    assert p.queue[..0] == [] && p.settled + Rejected([]) == p.settled;
    if p.active.None? && p.worker.Some? && p.queue != [] {
      var job := p.queue[0];
      if unposted(job.id) {
        var q := p.(queue := p.queue[1..], settled := p.settled + [Settled(job, false)]);
        n := PumpMeans(q, unposted);
        PumpedOneMore(p, Pump(q, unposted), unposted, n);
        n := n + 1;
      } else {
        assert [] + [job] + p.queue[1..] == p.queue;
      }
    }
  }

  lemma {:induction false} SpawnMeans(p: Pool, throws: nat -> bool)
    requires p.spawnFailures <= MAX_FAILURES && p.worker == None && p.active == None && p.queue == []
    ensures var r := Spawn(p, throws);
            && Respawned(p.attempts, p.spawnFailures - 1, r, throws)
            && r.active == None && r.queue == [] && r.settled == p.settled && r.posted == p.posted
            && r.nextId == p.nextId && r.ready == p.ready && r.offloaded == p.offloaded
    decreases 4 - p.spawnFailures
  {
    var q := p.(attempts := p.attempts + 1);
    if throws(p.attempts) && Killed(q).spawnFailures <= MAX_FAILURES {
      SpawnMeans(Killed(q), throws);
      assert Killed(q).settled == p.settled;
    }
  }

  lemma DieMeans(p: Pool, throws: nat -> bool)
    ensures var r := Die(p, throws);
            && Respawned(p.attempts, p.spawnFailures, r, throws)
            && r.active == None && r.queue == [] && r.settled == p.settled + Rejected(ActiveJobs(p) + p.queue)
            && r.posted == p.posted && r.nextId == p.nextId && r.ready == p.ready && r.offloaded == p.offloaded
  {
    if Killed(p).spawnFailures <= MAX_FAILURES {
      SpawnMeans(Killed(p), throws);
    }
  }

  ghost predicate Explained(p: Pool, ev: Event, r: Pool, throws: nat -> bool, unposted: nat -> bool) {
    exists gone :: Means(p, ev, r, throws, unposted, gone)
  }

  lemma DeathMeans(p: Pool, ev: Event, throws: nat -> bool, unposted: nat -> bool)
    requires GivesUp(p, ev) && !Answers(p, ev)
    ensures Explained(p, ev, After(p, ev, throws, unposted), throws, unposted)
  {
    DieMeans(p, throws);
    assert Means(p, ev, Die(p, throws), throws, unposted, ActiveJobs(p) + p.queue);
  }

  /** A free or busy worker turns to what waits. */
  lemma PumpedIs(p: Pool, q: Pool, r: Pool, ev: Event, throws: nat -> bool, unposted: nat -> bool, n: nat)
    requires Pumped(q, r, unposted, n) && !GivesUp(p, ev) && !(ev.FromWorker? && ev.message.Ready?)
    requires q.worker == p.worker && q.attempts == p.attempts && q.posted == p.posted && q.ready == p.ready
    requires q.active == (if Answers(p, ev) then None else p.active) && q.spawnFailures == FailuresBefore(p, ev)
    requires q.settled == p.settled + Answer(p, ev) && ActiveJobs(q) + q.queue == Held(p, ev) && Counts(p, ev, q)
    requires q.nextId == p.nextId + if Accepts(p, ev) then 1 else 0
    ensures Explained(p, ev, r, throws, unposted)
  {
    var gone := q.queue[..n];
    assert gone + ActiveJobs(r) + r.queue == Held(p, ev);
    assert Settles(p, ev, r, gone) && Proceeds(p, ev, r, unposted, gone);
    assert Means(p, ev, r, throws, unposted, gone);
  }

  lemma AcceptMeans(p: Pool, ev: Event, throws: nat -> bool, unposted: nat -> bool)
    requires Accepts(p, ev)
    ensures Explained(p, ev, After(p, ev, throws, unposted), throws, unposted)
  {
    var q := p.(nextId := p.nextId + 1, queue := p.queue + [Job(p.nextId, ev.op)]);
    var n := PumpMeans(q, unposted);
    assert q.settled == p.settled + Answer(p, ev);
    assert ActiveJobs(q) + q.queue == Held(p, ev);
    PumpedIs(p, q, Pump(q, unposted), ev, throws, unposted, n);
  }

  lemma NothingMeans(p: Pool, ev: Event, throws: nat -> bool, unposted: nat -> bool)
    requires (ev.Run? && !Accepts(p, ev)) || (ev.FromWorker? && ev.message.Ready?)
    ensures Explained(p, ev, After(p, ev, throws, unposted), throws, unposted)
  {
    assert p.settled + [] + Rejected([]) == p.settled;
    assert Means(p, ev, After(p, ev, throws, unposted), throws, unposted, []);
  }

  lemma FatalMeans(p: Pool, ev: Event, throws: nat -> bool, unposted: nat -> bool)
    requires Answers(p, ev) && ev.message.fatal
    ensures Explained(p, ev, After(p, ev, throws, unposted), throws, unposted)
  {
    var q := Answered(p, p.active.value, ev.message.ok);
    assert ActiveJobs(q) + q.queue == p.queue;
    DieMeans(q, throws);
    assert Means(p, ev, Die(q, throws), throws, unposted, p.queue);
  }

  lemma ResultMeans(p: Pool, ev: Event, throws: nat -> bool, unposted: nat -> bool)
    requires ev.FromWorker? && ev.message.Result? && !(Answers(p, ev) && ev.message.fatal)
    ensures Explained(p, ev, After(p, ev, throws, unposted), throws, unposted)
  {
    var q := if Answers(p, ev) then Answered(p, p.active.value, ev.message.ok) else p;
    var n := PumpMeans(q, unposted);
    assert q.settled == p.settled + Answer(p, ev);
    assert ActiveJobs(q) + q.queue == Held(p, ev);
    PumpedIs(p, q, Pump(q, unposted), ev, throws, unposted, n);
  }

  /** What every event does, in any state of the pool: which jobs end, how each
      ends, what is posted, what a death costs and what is counted. */
  lemma StepMeans(p: Pool, ev: Event, throws: nat -> bool, unposted: nat -> bool)
    ensures exists gone :: Means(p, ev, After(p, ev, throws, unposted), throws, unposted, gone)
  {
    assert Explained(p, ev, After(p, ev, throws, unposted), throws, unposted) by {
      if GivesUp(p, ev) && !Answers(p, ev) {
        DeathMeans(p, ev, throws, unposted);
      } else if GivesUp(p, ev) {
        FatalMeans(p, ev, throws, unposted);
      } else if Accepts(p, ev) {
        AcceptMeans(p, ev, throws, unposted);
      } else if ev.FromWorker? && ev.message.Result? {
        ResultMeans(p, ev, throws, unposted);
      } else {
        NothingMeans(p, ev, throws, unposted);
      }
    }
  }

  /** The pool starts with the first of four attempts that does not throw; when all
      four throw it is dead from the start. */
  lemma StartMeans(throws: nat -> bool)
    ensures var r := Start(throws);
            && (r.worker == None <==> throws(0) && throws(1) && throws(2) && throws(3))
            && (r.worker.Some? ==> r.worker.value < 4 && !throws(r.worker.value) && r.spawnFailures == r.worker.value
                                   && forall k :: 0 <= k < r.worker.value ==> throws(k))
            && r.settled == [] && r.active == None && r.queue == [] && r.nextId == 1 && r.offloaded == map[]
  {
    var p := Pool(None, 0, 1, None, [], 0, false, map[], {}, [], []);
    SpawnMeans(p, throws);
    StartIsGood(throws);
  }

  // --- runs ---

  /** The run's first `i` events hold an `ok` result for `job` while it ran. */
  ghost predicate WasCompleted(pools: seq<Pool>, steps: seq<Step>, i: nat, job: Job)
    requires |pools| == |steps| + 1 && i <= |steps|
  {
    exists k :: 0 <= k < i && Completes(pools[k], steps[k].event) && pools[k].active.value == job
  }

  /** How many of the first `i` events are `ok` results for running jobs of `op`. */
  ghost function Completions(pools: seq<Pool>, steps: seq<Step>, i: nat, op: string): nat
    requires |pools| == |steps| + 1 && i <= |steps|
  {
    if i == 0 then 0
    else Completions(pools, steps, i - 1, op)
         + if Completes(pools[i - 1], steps[i - 1].event) && pools[i - 1].active.value.op == op then 1 else 0
  }

  lemma StepSettlesOk(p: Pool, ev: Event, throws: nat -> bool, unposted: nat -> bool, job: Job)
    ensures Settled(job, true) in After(p, ev, throws, unposted).settled
            <==> Settled(job, true) in p.settled || (Completes(p, ev) && p.active.value == job)
  {
    StepMeans(p, ev, throws, unposted);
    var gone :| Means(p, ev, After(p, ev, throws, unposted), throws, unposted, gone);
    assert Settled(job, true) !in Rejected(gone);
  }

  lemma StepCounts(p: Pool, ev: Event, throws: nat -> bool, unposted: nat -> bool, op: string)
    ensures Counted(After(p, ev, throws, unposted).offloaded, op) ==
              Counted(p.offloaded, op) + if Completes(p, ev) && p.active.value.op == op then 1 else 0
  {
    StepMeans(p, ev, throws, unposted);
  }

  lemma {:induction false} CompletedAre(pools: seq<Pool>, steps: seq<Step>, throws: nat -> bool, i: nat, job: Job)
    requires IsRun(pools, steps, throws) && i < |pools|
    ensures Settled(job, true) in pools[i].settled <==> WasCompleted(pools, steps, i, job)
  {
    if i == 0 {
      StartMeans(throws);
    } else {
      var s := steps[i - 1];
      CompletedAre(pools, steps, throws, i - 1, job);
      StepSettlesOk(pools[i - 1], s.event, s.throws, s.unposted, job);
      if WasCompleted(pools, steps, i - 1, job) {
        var k :| 0 <= k < i - 1 && Completes(pools[k], steps[k].event) && pools[k].active.value == job;
        assert 0 <= k < i;
      }
    }
  }

  lemma {:induction false} CountedAre(pools: seq<Pool>, steps: seq<Step>, throws: nat -> bool, i: nat, op: string)
    requires IsRun(pools, steps, throws) && i < |pools|
    ensures Counted(pools[i].offloaded, op) == Completions(pools, steps, i, op)
  {
    if i == 0 {
      StartMeans(throws);
    } else {
      CountedAre(pools, steps, throws, i - 1, op);
      StepCounts(pools[i - 1], steps[i - 1].event, steps[i - 1].throws, steps[i - 1].unposted, op);
    }
  }

  /** A job is settled as completed exactly when an `ok` result for it came while it
      was the running one, and the statistics are the number of these results. */
  lemma CompletedExactly(pools: seq<Pool>, steps: seq<Step>, throws: nat -> bool, i: nat)
    requires IsRun(pools, steps, throws) && i < |pools|
    ensures forall job :: Settled(job, true) in pools[i].settled <==> WasCompleted(pools, steps, i, job)
    ensures forall op :: Counted(pools[i].offloaded, op) == Completions(pools, steps, i, op)
  {
    forall job ensures Settled(job, true) in pools[i].settled <==> WasCompleted(pools, steps, i, job) {
      CompletedAre(pools, steps, throws, i, job);
    }
    forall op ensures Counted(pools[i].offloaded, op) == Completions(pools, steps, i, op) {
      CountedAre(pools, steps, throws, i, op);
    }
  }

  /** Why a job fails: the worker says so, the worker is given up on, or the job
      cannot be posted. */
  ghost predicate LetDown(p: Pool, s: Step, job: Job) {
    || (Answers(p, s.event) && !s.event.message.ok && p.active.value == job)
    || (job in Held(p, s.event) && (GivesUp(p, s.event) || s.unposted(job.id)))
  }

  /** A job settled as failed was let down, at a moment it was held. */
  lemma {:induction false} FailedOnlyIf(pools: seq<Pool>, steps: seq<Step>, throws: nat -> bool, i: nat, job: Job)
    requires IsRun(pools, steps, throws) && i < |pools| && Settled(job, false) in pools[i].settled
    ensures exists k :: 0 <= k < i && LetDown(pools[k], steps[k], job)
  {
    if i == 0 {
      StartMeans(throws);
    } else {
      var p, s := pools[i - 1], steps[i - 1];
      if Settled(job, false) in p.settled {
        FailedOnlyIf(pools, steps, throws, i - 1, job);
      } else {
        StepMeans(p, s.event, s.throws, s.unposted);
        var gone :| Means(p, s.event, pools[i], s.throws, s.unposted, gone);
        if job in gone {
          assert job in gone + ActiveJobs(pools[i]) + pools[i].queue;
          assert job in Held(p, s.event);
        } else {
          assert Settled(job, false) !in Rejected(gone);
        }
        assert LetDown(p, s, job);
      }
    }
  }

  /** A job answered with a failure, or held when its worker is given up on, is
      settled as failed at once. */
  lemma FailedAtOnce(p: Pool, ev: Event, throws: nat -> bool, unposted: nat -> bool, job: Job)
    requires (Answers(p, ev) && !ev.message.ok && p.active.value == job) || (GivesUp(p, ev) && job in Held(p, ev))
    ensures Settled(job, false) in After(p, ev, throws, unposted).settled
  {
    StepMeans(p, ev, throws, unposted);
    var gone :| Means(p, ev, After(p, ev, throws, unposted), throws, unposted, gone);
    if Answers(p, ev) && p.active.value == job && !ev.message.ok {
      assert Settled(job, false) in Answer(p, ev);
    } else {
      assert gone + [] + [] == Held(p, ev);
      assert job in gone;
      var k :| 0 <= k < |gone| && gone[k] == job;
      assert Rejected(gone)[k] == Settled(job, false);
    }
  }
}
