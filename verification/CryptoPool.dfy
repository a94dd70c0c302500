/** The one-worker pool of offloaded crypto operations (`worker.ts`).

    Whether constructing a worker throws, and whether a job can be posted, is up to
    the platform: `throws` decides by attempt, `unposted` by job. */
module CryptoPool {
  import opened Wrappers

  const MAX_QUEUED := 8
  const MAX_FAILURES := 3

  datatype Job = Job(id: nat, op: string)

  datatype Settled = Settled(job: Job, ok: bool)

  /** What was posted to which worker. */
  datatype Post = Post(worker: nat, id: nat)

  datatype Pool = Pool(
    worker: Option<nat>,      // the attempt that made it
    attempts: nat,
    nextId: nat,
    active: Option<Job>,
    queue: seq<Job>,
    spawnFailures: nat,
    ready: bool,
    offloaded: map<string, nat>,
    timers: set<nat>,         // jobs with an armed deadline
    posted: seq<Post>,
    settled: seq<Settled>)

  datatype Message =
    | Ready
    | ReadyError
    | Result(id: nat, ok: bool, fatal: bool)

  datatype Event =
    | Run(op: string)
    | FromWorker(worker: nat, message: Message)
    | WorkerError(worker: nat)  // onerror, onmessageerror
    | Timeout(id: nat)

  function ActiveJobs(p: Pool): seq<Job> {
    match p.active case None => [] case Some(j) => [j]
  }

  function Rejected(jobs: seq<Job>): (ss: seq<Settled>)
    ensures |ss| == |jobs| && forall i :: 0 <= i < |ss| ==> ss[i] == Settled(jobs[i], false)
  {
    seq(|jobs|, i requires 0 <= i < |jobs| => Settled(jobs[i], false))
  }

  function Disarmed(p: Pool): set<nat> {
    match p.active case None => p.timers case Some(j) => p.timers - {j.id}
  }

  /** `die`, up to the respawn: everything waiting falls back to the inline path. */
  function Killed(p: Pool): Pool {
    p.(timers := Disarmed(p), settled := p.settled + Rejected(ActiveJobs(p) + p.queue),
       active := None, queue := [], worker := None, spawnFailures := p.spawnFailures + 1)
  }

  function Spawn(p: Pool, throws: nat -> bool): Pool
    requires p.spawnFailures <= MAX_FAILURES
    decreases 4 - p.spawnFailures, 1
  {
    var q := p.(attempts := p.attempts + 1);
    if throws(p.attempts) then Die(q, throws) else q.(worker := Some(p.attempts))
  }

  function Die(p: Pool, throws: nat -> bool): Pool
    decreases 4 - p.spawnFailures, 0
  {
    var q := Killed(p);
    if q.spawnFailures > MAX_FAILURES then q else Spawn(q, throws)
  }

  function Pump(p: Pool, unposted: nat -> bool): Pool
    decreases |p.queue|
  {
    if p.active.Some? || p.worker == None || p.queue == [] then p
    else
      var job := p.queue[0];
      var q := p.(queue := p.queue[1..]);
      if unposted(job.id) then Pump(q.(settled := q.settled + [Settled(job, false)]), unposted)
      else q.(active := Some(job), timers := q.timers + {job.id}, posted := q.posted + [Post(p.worker.value, job.id)])
  }

  /** `run`: refused when dead or full, else queued. */
  function Running(p: Pool, op: string, unposted: nat -> bool): Pool {
    if p.worker == None || |p.queue| >= MAX_QUEUED then p
    else Pump(p.(nextId := p.nextId + 1, queue := p.queue + [Job(p.nextId, op)]), unposted)
  }

  function Counted(m: map<string, nat>, op: string): nat {
    if op in m then m[op] else 0
  }

  /** A result of the running job. */
  function Answered(p: Pool, job: Job, ok: bool): Pool {
    var q := p.(timers := p.timers - {job.id}, active := None, settled := p.settled + [Settled(job, ok)]);
    if ok then q.(spawnFailures := 0, offloaded := p.offloaded[job.op := Counted(p.offloaded, job.op) + 1]) else q
  }

  /** `onmessage`.  It does not look at which worker speaks. */
  function Hearing(p: Pool, m: Message, throws: nat -> bool, unposted: nat -> bool): Pool {
    match m
    case Ready => p.(ready := true)
    case ReadyError => Die(p, throws)
    case Result(id, ok, fatal) =>
      if p.active.Some? && p.active.value.id == id then
        var q := Answered(p, p.active.value, ok);
        if fatal then Die(q, throws) else Pump(q, unposted)
      else Pump(p, unposted)
  }

  /** Workers answer only what was posted to them; cleared timers do not fire. */
  predicate Enabled(p: Pool, ev: Event) {
    match ev
    case Run(_) => true
    case FromWorker(w, m) => w < p.attempts && (m.Result? ==> Post(w, m.id) in p.posted)
    case WorkerError(w) => w < p.attempts
    case Timeout(id) => id in p.timers
  }

  function After(p: Pool, ev: Event, throws: nat -> bool, unposted: nat -> bool): Pool {
    match ev
    case Run(op) => Running(p, op, unposted)
    case FromWorker(_, m) => Hearing(p, m, throws, unposted)
    case WorkerError(_) => Die(p, throws)
    case Timeout(_) => Die(p, throws)
  }

  function Start(throws: nat -> bool): Pool {
    Spawn(Pool(None, 0, 1, None, [], 0, false, map[], {}, [], []), throws)
  }

  // --- the invariant ---

  function Jobs(ss: seq<Settled>): (js: seq<Job>)
    ensures |js| == |ss| && forall i :: 0 <= i < |ss| ==> js[i] == ss[i].job
  {
    seq(|ss|, i requires 0 <= i < |ss| => ss[i].job)
  }

  /** Accepted jobs in the order they were accepted: settled, running, waiting. */
  function All(p: Pool): seq<Job> {
    Jobs(p.settled) + ActiveJobs(p) + p.queue
  }

  function CountOk(ss: seq<Settled>, op: string): nat {
    if ss == [] then 0
    else CountOk(ss[..|ss| - 1], op) + if ss[|ss| - 1].ok && ss[|ss| - 1].job.op == op then 1 else 0
  }

  /** Every accepted job is exactly one of settled, active, queued: the three
      together list the ids 1, 2, 3, ... once each, in order. */
  ghost predicate Conserved(p: Pool) {
    && |All(p)| == p.nextId - 1
    && forall i :: 0 <= i < |All(p)| ==> All(p)[i].id == i + 1
  }

  ghost predicate Scheduled(p: Pool) {
    && |p.queue| <= MAX_QUEUED
    && (p.active == None ==> p.queue == [])
    && (p.worker == None ==> p.active == None)
    && (p.worker == None <==> p.spawnFailures > MAX_FAILURES)
    && p.timers == (match p.active case None => {} case Some(j) => {j.id})
    && (p.worker.Some? ==> p.worker.value < p.attempts)
  }

  /** Jobs are posted in the order they were accepted, each to one worker. */
  ghost predicate InOrder(p: Pool) {
    && (forall i, j :: 0 <= i < j < |p.posted| ==> p.posted[i].id < p.posted[j].id)
    && (forall i :: 0 <= i < |p.posted| ==>
          p.posted[i].id <= |p.settled| + |ActiveJobs(p)| && p.posted[i].worker < p.attempts)
    && (p.active.Some? ==> p.worker.Some? && p.posted != [] && p.posted[|p.posted| - 1] == Post(p.worker.value, p.active.value.id))
  }

  ghost predicate Good(p: Pool) {
    && Conserved(p) && Scheduled(p) && InOrder(p)
    && forall op :: Counted(p.offloaded, op) == CountOk(p.settled, op)
  }

  // --- proofs of the parts ---

  lemma CountAppend(ss: seq<Settled>, s: Settled, op: string)
    ensures CountOk(ss + [s], op) == CountOk(ss, op) + if s.ok && s.job.op == op then 1 else 0
  {
    assert (ss + [s])[..|ss|] == ss;
  }

  lemma {:induction false} CountRejected(ss: seq<Settled>, jobs: seq<Job>, op: string)
    ensures CountOk(ss + Rejected(jobs), op) == CountOk(ss, op)
  {
    if jobs == [] {
      assert ss + Rejected(jobs) == ss;
    } else {
      var front := jobs[..|jobs| - 1];
      CountRejected(ss, front, op);
      assert ss + Rejected(jobs) == (ss + Rejected(front)) + [Settled(jobs[|jobs| - 1], false)];
      CountAppend(ss + Rejected(front), Settled(jobs[|jobs| - 1], false), op);
    }
  }

  /** What `Good` says between a kill and the respawn. */
  ghost predicate Between(p: Pool) {
    && Conserved(p) && InOrder(p) && p.active == None && p.queue == [] && p.worker == None && p.timers == {}
    && forall op :: Counted(p.offloaded, op) == CountOk(p.settled, op)
  }

  lemma KilledIsBetween(p: Pool)
    requires Conserved(p) && InOrder(p) && p.timers == (match p.active case None => {} case Some(j) => {j.id})
    requires forall op :: Counted(p.offloaded, op) == CountOk(p.settled, op)
    ensures Between(Killed(p))
  {
    var q := Killed(p);
    assert All(q) == All(p);
    forall op ensures Counted(q.offloaded, op) == CountOk(q.settled, op) {
      CountRejected(p.settled, ActiveJobs(p) + p.queue, op);
    }
  }

  lemma {:induction false} SpawnIsGood(p: Pool, throws: nat -> bool)
    requires Between(p) && p.spawnFailures <= MAX_FAILURES
    ensures Good(Spawn(p, throws))
    ensures Spawn(p, throws).settled == p.settled && Spawn(p, throws).nextId == p.nextId
    decreases 4 - p.spawnFailures
  {
    var q := p.(attempts := p.attempts + 1);
    assert All(q) == All(p);
    if throws(p.attempts) {
      KilledIsBetween(q);
      assert Killed(q).settled == q.settled;
      if Killed(q).spawnFailures <= MAX_FAILURES {
        SpawnIsGood(Killed(q), throws);
      }
    } else {
      assert All(q.(worker := Some(p.attempts))) == All(p);
    }
  }

  lemma DieIsGood(p: Pool, throws: nat -> bool)
    requires Conserved(p) && InOrder(p) && p.timers == (match p.active case None => {} case Some(j) => {j.id})
    requires forall op :: Counted(p.offloaded, op) == CountOk(p.settled, op)
    ensures Good(Die(p, throws)) && Die(p, throws).active == None
    ensures Die(p, throws).settled == p.settled + Rejected(ActiveJobs(p) + p.queue) && Die(p, throws).nextId == p.nextId
  {
    KilledIsBetween(p);
    if Killed(p).spawnFailures <= MAX_FAILURES {
      SpawnIsGood(Killed(p), throws);
      SpawnIdle(Killed(p), throws);
    }
  }

  lemma {:induction false} SpawnIdle(p: Pool, throws: nat -> bool)
    requires p.spawnFailures <= MAX_FAILURES && p.active == None
    ensures Spawn(p, throws).active == None
    decreases 4 - p.spawnFailures
  {
    var q := p.(attempts := p.attempts + 1);
    if throws(p.attempts) && Killed(q).spawnFailures <= MAX_FAILURES {
      SpawnIdle(Killed(q), throws);
    }
  }

  /** `Good` but for the running slot, which may be free while jobs wait. */
  ghost predicate Free(p: Pool) {
    && Conserved(p) && InOrder(p) && |p.queue| <= MAX_QUEUED + 1
    && (p.worker == None ==> p.active == None && p.queue == [])
    && (p.worker == None <==> p.spawnFailures > MAX_FAILURES)
    && p.timers == (match p.active case None => {} case Some(j) => {j.id})
    && (p.worker.Some? ==> p.worker.value < p.attempts)
    && (forall op :: Counted(p.offloaded, op) == CountOk(p.settled, op))
  }

  /** The first waiting job is settled because it cannot be posted. */
  lemma UnpostedIsFree(p: Pool)
    requires Free(p) && p.active == None && p.queue != []
    ensures Free(p.(queue := p.queue[1..], settled := p.settled + [Settled(p.queue[0], false)]))
  {
    var r := p.(queue := p.queue[1..], settled := p.settled + [Settled(p.queue[0], false)]);
    assert All(r) == All(p);
    forall op ensures Counted(r.offloaded, op) == CountOk(r.settled, op) {
      CountAppend(p.settled, Settled(p.queue[0], false), op);
    }
  }

  /** It is posted, and runs. */
  lemma PostedIsGood(p: Pool)
    requires Free(p) && p.active == None && p.worker.Some? && p.queue != []
    ensures var job := p.queue[0];
            Good(p.(queue := p.queue[1..], active := Some(job), timers := p.timers + {job.id},
                    posted := p.posted + [Post(p.worker.value, job.id)]))
  {
    var job := p.queue[0];
    var r := p.(queue := p.queue[1..], active := Some(job), timers := p.timers + {job.id},
                posted := p.posted + [Post(p.worker.value, job.id)]);
    assert All(p)[|p.settled|] == job;
    assert All(r) == All(p);
  }

  lemma {:induction false} PumpIsGood(p: Pool, unposted: nat -> bool)
    requires Free(p) && (p.active.Some? ==> |p.queue| <= MAX_QUEUED)
    ensures Good(Pump(p, unposted))
    ensures p.settled <= Pump(p, unposted).settled && Pump(p, unposted).nextId == p.nextId
    decreases |p.queue|
  {
    if p.active.None? && p.worker.Some? && p.queue != [] {
      if unposted(p.queue[0].id) {
        UnpostedIsFree(p);
        PumpIsGood(p.(queue := p.queue[1..], settled := p.settled + [Settled(p.queue[0], false)]), unposted);
      } else {
        PostedIsGood(p);
      }
    }
  }

  lemma AnsweredIsFree(p: Pool, ok: bool)
    requires Good(p) && p.active.Some?
    ensures Free(Answered(p, p.active.value, ok)) && Answered(p, p.active.value, ok).active == None
  {
    var job := p.active.value;
    var q := Answered(p, job, ok);
    assert All(q) == All(p);
    forall op ensures Counted(q.offloaded, op) == CountOk(q.settled, op) {
      CountAppend(p.settled, Settled(job, ok), op);
    }
  }

  lemma AcceptedIsFree(p: Pool, op: string)
    requires Good(p) && p.worker.Some? && |p.queue| < MAX_QUEUED
    ensures Free(p.(nextId := p.nextId + 1, queue := p.queue + [Job(p.nextId, op)]))
  {
    var q := p.(nextId := p.nextId + 1, queue := p.queue + [Job(p.nextId, op)]);
    assert All(q) == All(p) + [Job(p.nextId, op)];
  }

  lemma AnswerIsGood(p: Pool, ok: bool, fatal: bool, throws: nat -> bool, unposted: nat -> bool)
    requires Good(p) && p.active.Some?
    ensures var q := Answered(p, p.active.value, ok);
            var r := if fatal then Die(q, throws) else Pump(q, unposted);
            Good(r) && p.settled <= r.settled
  {
    AnsweredIsFree(p, ok);
    var q := Answered(p, p.active.value, ok);
    if fatal {
      DieIsGood(q, throws);
    } else {
      PumpIsGood(q, unposted);
    }
  }

  lemma RunningIsGood(p: Pool, op: string, unposted: nat -> bool)
    requires Good(p)
    ensures Good(Running(p, op, unposted)) && p.settled <= Running(p, op, unposted).settled
  {
    if p.worker.Some? && |p.queue| < MAX_QUEUED {
      AcceptedIsFree(p, op);
      var q := p.(nextId := p.nextId + 1, queue := p.queue + [Job(p.nextId, op)]);
      PumpIsGood(q, unposted);
      assert Running(p, op, unposted) == Pump(q, unposted);
    }
  }

  lemma HearingIsGood(p: Pool, m: Message, throws: nat -> bool, unposted: nat -> bool)
    requires Good(p) && m.Result?
    ensures Good(Hearing(p, m, throws, unposted)) && p.settled <= Hearing(p, m, throws, unposted).settled
  {
    if p.active.Some? && p.active.value.id == m.id {
      AnswerIsGood(p, m.ok, m.fatal, throws, unposted);
    }
  }

  lemma StepIsGood(p: Pool, ev: Event, throws: nat -> bool, unposted: nat -> bool)
    requires Good(p) && Enabled(p, ev)
    ensures Good(After(p, ev, throws, unposted))
    ensures p.settled <= After(p, ev, throws, unposted).settled
  {
    match ev
    case Run(op) => RunningIsGood(p, op, unposted);
    case WorkerError(_) => DieIsGood(p, throws);
    case Timeout(_) => DieIsGood(p, throws);
    case FromWorker(_, m) =>
      if m.ReadyError? {
        DieIsGood(p, throws);
      } else if m.Ready? {
        assert All(p.(ready := true)) == All(p);
      } else {
        HearingIsGood(p, m, throws, unposted);
      }
  }

  lemma StartIsGood(throws: nat -> bool)
    ensures Good(Start(throws))
  {
    SpawnIsGood(Pool(None, 0, 1, None, [], 0, false, map[], {}, [], []), throws);
  }

  // --- runs ---

  datatype Step = Step(event: Event, throws: nat -> bool, unposted: nat -> bool)

  ghost predicate IsRun(pools: seq<Pool>, steps: seq<Step>, throws: nat -> bool) {
    && |pools| == |steps| + 1 && pools[0] == Start(throws)
    && forall i :: 0 <= i < |steps| ==>
         Enabled(pools[i], steps[i].event)
         && pools[i + 1] == After(pools[i], steps[i].event, steps[i].throws, steps[i].unposted)
  }

  /** Over every run: jobs are conserved and settle at most once, at most eight
      wait, a waiting job implies a running one, the running one has the only
      deadline, posts are in order, and the statistics count the completed ones. */
  lemma {:induction false} RunIsGood(pools: seq<Pool>, steps: seq<Step>, throws: nat -> bool, i: nat)
    requires IsRun(pools, steps, throws) && i < |pools|
    ensures Good(pools[i])
  {
    if i == 0 {
      StartIsGood(throws);
    } else {
      RunIsGood(pools, steps, throws, i - 1);
      StepIsGood(pools[i - 1], steps[i - 1].event, steps[i - 1].throws, steps[i - 1].unposted);
    }
  }

  lemma EachJobInOnePlace(p: Pool, id: nat)
    requires Good(p) && 1 <= id < p.nextId
    ensures (exists i :: 0 <= i < |p.settled| && p.settled[i].job.id == id)
            || (p.active.Some? && p.active.value.id == id)
            || exists i :: 0 <= i < |p.queue| && p.queue[i].id == id
    ensures forall i, j :: 0 <= i < j < |p.settled| ==> p.settled[i].job.id != p.settled[j].job.id
    ensures forall i :: 0 <= i < |p.settled| ==>
              !(p.active.Some? && p.active.value.id == p.settled[i].job.id)
              && forall j :: 0 <= j < |p.queue| ==> p.queue[j].id != p.settled[i].job.id
  {
    var all, n := All(p), |p.settled|;
    assert all[id - 1].id == id;
    if id <= n {
      assert p.settled[id - 1].job == all[id - 1];
    } else if id > n + |ActiveJobs(p)| {
      assert p.queue[id - 1 - n - |ActiveJobs(p)|] == all[id - 1];
    }
    forall i | 0 <= i < n ensures p.settled[i].job.id == i + 1 {
      assert all[i] == p.settled[i].job;
    }
    forall j | 0 <= j < |p.queue| ensures p.queue[j].id == n + |ActiveJobs(p)| + j + 1 {
      assert all[n + |ActiveJobs(p)| + j] == p.queue[j];
    }
    assert p.active.Some? ==> all[n] == p.active.value;
  }

  /** A dead pool stays dead, holds nothing, and refuses. */
  lemma DeathIsAbsorbing(p: Pool, ev: Event, throws: nat -> bool, unposted: nat -> bool)
    requires Good(p) && p.worker == None && Enabled(p, ev)
    ensures var r := After(p, ev, throws, unposted);
            r.worker == None && r.settled == p.settled && r.nextId == p.nextId && r.posted == p.posted
  {
    assert Rejected([]) == [];
    assert ActiveJobs(p) + p.queue == [];
    assert p.settled + [] == p.settled;
  }

  /** A result of a worker that was given up on changes nothing at all, whoever
      runs now. */
  lemma LateResultIsIgnored(p: Pool, w: nat, m: Message, throws: nat -> bool, unposted: nat -> bool)
    requires Good(p) && m.Result? && Enabled(p, FromWorker(w, m)) && p.worker != Some(w)
    ensures After(p, FromWorker(w, m), throws, unposted) == p
  {
  }

  lemma {:induction false} SpawnIsNew(p: Pool, throws: nat -> bool)
    requires p.spawnFailures <= MAX_FAILURES && p.worker == None
    ensures var r := Spawn(p, throws); r.worker.Some? ==> r.worker.value >= p.attempts
    decreases 4 - p.spawnFailures
  {
    var q := p.(attempts := p.attempts + 1);
    if throws(p.attempts) && Killed(q).spawnFailures <= MAX_FAILURES {
      SpawnIsNew(Killed(q), throws);
    }
  }

  lemma {:induction false} DieCounts(p: Pool, throws: nat -> bool)
    ensures Die(p, throws).spawnFailures > p.spawnFailures
    decreases 4 - p.spawnFailures
  {
    var q := Killed(p);
    if q.spawnFailures <= MAX_FAILURES && throws(q.attempts) {
      DieCounts(q.(attempts := q.attempts + 1), throws);
    }
  }

  /** Exactly which words of a worker already given up on count, whether the pool
      is busy, idle or dead: a result and a successful handshake change nothing but the handshake
      flag; a failed handshake and an error event are taken for the successor's,
      which is replaced, with everything it had to do rejected. */
  lemma LateEventsExactly(p: Pool, w: nat, ev: Event, throws: nat -> bool, unposted: nat -> bool)
    requires Good(p) && p.worker != Some(w) && Enabled(p, ev)
    requires ev == WorkerError(w) || (ev.FromWorker? && ev.worker == w)
    ensures var r := After(p, ev, throws, unposted);
            && (r.(ready := p.ready) == p <==> ev.FromWorker? && !ev.message.ReadyError?)
            && (ev.WorkerError? || ev.message.ReadyError? ==>
                  (p.worker.Some? ==> r.worker != p.worker) && r.settled == p.settled + Rejected(ActiveJobs(p) + p.queue))
  {
    if ev.FromWorker? && ev.message.Result? {
      LateResultIsIgnored(p, w, ev.message, throws, unposted);
    } else if ev.WorkerError? || ev.message.ReadyError? {
      DieCounts(p, throws);
      DieIsGood(p, throws);
      if Killed(p).spawnFailures <= MAX_FAILURES {
        SpawnIsNew(Killed(p), throws);
      }
    }
  }

  function Unsettled(p: Pool): nat {
    |ActiveJobs(p)| + |p.queue|
  }

  /** A matching result, a deadline or a worker failure leaves strictly fewer
      unsettled jobs. */
  lemma SettlingShrinks(p: Pool, ev: Event, throws: nat -> bool, unposted: nat -> bool)
    requires Good(p) && Enabled(p, ev) && p.active.Some?
    requires match ev
             case Run(_) => false
             case FromWorker(w, m) => m.ReadyError? || (m.Result? && m.id == p.active.value.id)
             case _ => true
    ensures Unsettled(After(p, ev, throws, unposted)) < Unsettled(p)
  {
    StepIsGood(p, ev, throws, unposted);
    var r := After(p, ev, throws, unposted);
    if ev.FromWorker? && ev.message.Result? {
      AnsweredIsFree(p, ev.message.ok);
      var q := Answered(p, p.active.value, ev.message.ok);
      DieIsGood(q, throws);
      PumpIsGood(q, unposted);
      assert q.settled <= r.settled && r.nextId == p.nextId;
    } else {
      DieIsGood(p, throws);
    }
    assert |All(p)| == |All(r)|;
  }

  // --- the object ---

  class CryptoWorkerPool {
    var worker: Option<nat>
    var attempts: nat
    var nextId: nat
    var active: Option<Job>
    var queue: seq<Job>
    var spawnFailures: nat
    var ready: bool
    var offloaded: map<string, nat>
    var timers: set<nat>
    var posted: seq<Post>
    var settled: seq<Settled>

    ghost function St(): Pool
      reads this
    {
      Pool(worker, attempts, nextId, active, queue, spawnFailures, ready, offloaded, timers, posted, settled)
    }

    ghost predicate Valid()
      reads this
    {
      Good(St())
    }

    constructor (throws: nat -> bool)
      ensures Valid() && St() == Start(throws)
    {
      worker, attempts, nextId, active, queue, spawnFailures := None, 0, 1, None, [], 0;
      ready, offloaded, timers, posted, settled := false, map[], {}, [], [];
      new;
      StartIsGood(throws);
      SpawnWorker(throws);
    }

    /** `spawn`: retried by `die` until the failures run out. */
    method SpawnWorker(throws: nat -> bool)
      requires spawnFailures <= MAX_FAILURES
      modifies this
      ensures St() == Spawn(old(St()), throws)
      decreases 4 - spawnFailures, 1
    {
      var attempt := attempts;
      attempts := attempts + 1;
      if throws(attempt) {
        DieNow(throws);
      } else {
        worker := Some(attempt);
      }
    }

    method DieNow(throws: nat -> bool)
      modifies this
      ensures St() == Die(old(St()), throws)
      decreases 4 - spawnFailures, 0
    {
      RejectAll();
      worker := None;
      spawnFailures := spawnFailures + 1;
      if spawnFailures > MAX_FAILURES {
        return;
      }
      SpawnWorker(throws);
    }

    method RejectAll()
      modifies `timers, `settled, `active, `queue
      ensures active == None && queue == [] && timers == Disarmed(old(St()))
      ensures settled == old(settled) + Rejected(old(ActiveJobs(St())) + old(queue))
    {
      var jobs := queue;
      if active.Some? {
        timers := timers - {active.value.id};
        jobs := [active.value] + queue;
      }
      var i := 0;
      while i < |jobs|
        invariant 0 <= i <= |jobs| && settled == old(settled) + Rejected(jobs)[..i]
        invariant timers == Disarmed(old(St()))
      {
        settled := settled + [Settled(jobs[i], false)];
        i := i + 1;
      }
      assert Rejected(jobs)[..i] == Rejected(jobs);
      assert jobs == old(ActiveJobs(St())) + old(queue);
      active, queue := None, [];
    }

    /** `pump`: a job that cannot be posted is settled and the next one is tried. */
    method PumpNext(unposted: nat -> bool)
      modifies `active, `queue, `timers, `posted, `settled
      ensures St() == Pump(old(St()), unposted)
      decreases |queue|
    {
      if active.Some? || worker == None || queue == [] {
        return;
      }
      var job := queue[0];
      queue := queue[1..];
      if unposted(job.id) {
        settled := settled + [Settled(job, false)];
        PumpNext(unposted);
      } else {
        active := Some(job);
        timers := timers + {job.id};
        posted := posted + [Post(worker.value, job.id)];
      }
    }

    /** `run`: `None` when the promise is rejected at once. */
    method RunOp(op: string, unposted: nat -> bool) returns (id: Option<nat>)
      requires Valid()
      modifies this
      ensures Valid() && St() == Running(old(St()), op, unposted)
      ensures id == if old(worker) == None || |old(queue)| >= MAX_QUEUED then None else Some(old(nextId))
    {
      ghost var before := St();
      if worker == None || |queue| >= MAX_QUEUED {
        return None;
      }
      var accepted := Accept(op);
      id := Some(accepted);
      PumpNext(unposted);
      RunningIsGood(before, op, unposted);
    }

    method Accept(op: string) returns (id: nat)
      modifies `nextId, `queue
      ensures id == old(nextId) && St() == old(St()).(nextId := id + 1, queue := old(queue) + [Job(id, op)])
    {
      id := nextId;
      nextId := nextId + 1;
      queue := queue + [Job(id, op)];
    }

    method SettleActive(ok: bool)
      requires active.Some?
      modifies `active, `timers, `settled, `spawnFailures, `offloaded
      ensures St() == Answered(old(St()), old(active).value, ok)
      ensures settled == old(settled) + [Settled(old(active).value, ok)]
      ensures forall op :: Counted(offloaded, op) ==
                             Counted(old(offloaded), op) + if ok && op == old(active).value.op then 1 else 0
    {
      var job := active.value;
      timers := timers - {job.id};
      active := None;
      if ok {
        spawnFailures := 0;
        offloaded := offloaded[job.op := (if job.op in offloaded then offloaded[job.op] else 0) + 1];
      }
      settled := settled + [Settled(job, ok)];
    }

    method OnMessage(w: nat, m: Message, throws: nat -> bool, unposted: nat -> bool)
      requires Valid() && Enabled(St(), FromWorker(w, m))
      modifies this
      ensures Valid() && St() == After(old(St()), FromWorker(w, m), throws, unposted)
    {
      StepIsGood(St(), FromWorker(w, m), throws, unposted);
      match m
      case Ready => ready := true;
      case ReadyError => DieNow(throws);
      case Result(id, ok, fatal) =>
        if active.Some? && active.value.id == id {
          SettleActive(ok);
          if fatal {
            DieNow(throws);
            return;
          }
        }
        PumpNext(unposted);
    }

    method OnError(w: nat, throws: nat -> bool)
      requires Valid() && w < attempts
      modifies this
      ensures Valid() && St() == Die(old(St()), throws)
    {
      DieIsGood(St(), throws);
      DieNow(throws);
    }

    method OnTimeout(id: nat, throws: nat -> bool)
      requires Valid() && id in timers
      modifies this
      ensures Valid() && St() == Die(old(St()), throws)
      ensures old(active).Some? && old(active).value.id == id
    {
      DieIsGood(St(), throws);
      DieNow(throws);
    }
  }
}
