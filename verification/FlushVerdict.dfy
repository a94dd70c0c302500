/** `flush_pending`: two counters read while the flusher and clients go on. */
module FlushVerdict {
  import opened Wrappers
  import opened Paths
  import opened MemFs
  import opened Mirror
  import opened MirrorSafety

  const POLLS: nat := 1500
  const TWO32: nat := 0x1_0000_0000

  /** The 32-bit lost counter as a caller sees it. */
  function LostCount(lost: nat): nat {
    lost % TWO32
  }

  /** The counters at one instant. */
  datatype Reading = Reading(inflight: nat, lost: nat)

  ghost predicate DrainedAt(seen: seq<Reading>, i: int) {
    0 <= i < POLLS <= |seen| && seen[i].inflight == 0 && forall j :: 0 <= j < i ==> seen[j].inflight != 0
  }

  /** No counter ran over 32 bits. */
  ghost predicate CountersFit(seen: seq<Reading>) {
    forall i, j :: 0 <= i < |seen| && 0 <= j < |seen| ==> seen[i].inflight + seen[j].lost < TWO32
  }

  /** `seen[i]` is what poll `i` reads, `seen[POLLS]` what is there after the last
      sleep.  Zero is returned exactly when some poll saw nothing in flight and the
      loss counter then stood no higher than the baseline. */
  method FlushPending(enabled: bool, seen: seq<Reading>, failedSince: nat)
    returns (notDurable: nat, progress: seq<(nat, nat)>)
    requires |seen| == POLLS + 1
    ensures !enabled ==> notDurable == 0 && progress == []
    ensures enabled && CountersFit(seen) ==>
              (notDurable == 0 <==> exists i :: DrainedAt(seen, i) && seen[i].lost <= failedSince)
    ensures enabled && CountersFit(seen) && (exists i :: DrainedAt(seen, i)) ==>
              exists i :: DrainedAt(seen, i) && |progress| == i + 1 &&
                notDurable == (if seen[i].lost <= failedSince then 0 else seen[i].lost - failedSince)
    ensures |progress| <= POLLS
    ensures forall i :: 0 <= i < |progress| ==> progress[i] == (seen[i].inflight, seen[0].inflight)
  {
    notDurable, progress := 0, [];
    if !enabled {
      return;
    }
    var stillQueued, initial, now := 0, 0, POLLS;
    for poll := 0 to POLLS
      invariant now == POLLS && |progress| == poll
      invariant forall j :: 0 <= j < poll ==> seen[j].inflight != 0 && progress[j] == (seen[j].inflight, seen[0].inflight)
      invariant poll > 0 ==> initial == seen[0].inflight && stillQueued == seen[poll - 1].inflight
    {
      stillQueued := seen[poll].inflight;
      if poll == 0 {
        initial := stillQueued;
      }
      progress := progress + [(stillQueued, initial)];
      if stillQueued == 0 {
        now := poll;
        break;
      }
    }
    assert now < POLLS ==> DrainedAt(seen, now);
    var count := LostCount(seen[now].lost);
    var failed := if count > failedSince then count - failedSince else 0;
    notDurable := (failed + stillQueued) % TWO32;
  }

  /** The verdict: the polls read a run that goes on from the baseline `at`, the
      caller passed the loss counter as it stood there, and the answer was zero.
      Then there was a poll at which every file marked dirty since the baseline
      was byte-equal in OPFS, whatever ran in between. */
  lemma ZeroMeansDurable(boot: State, es: seq<Event>, at: World, polls: seq<World>, runs: seq<seq<Event>>, seen: seq<Reading>)
    requires Booted(boot) && Reaches(World(boot, NOTHING), es, at)
    requires |polls| == |runs| == |seen| == POLLS + 1
    requires forall i :: 0 <= i <= POLLS ==> Reaches(at.(h := at.h.(marked := {})), runs[i], polls[i])
    requires forall i :: 0 <= i <= POLLS ==> seen[i].inflight == polls[i].s.inflight && seen[i].lost == polls[i].s.lost
    requires exists i :: DrainedAt(seen, i) && seen[i].lost <= at.s.lost
    ensures exists i :: 0 <= i < POLLS && polls[i].s.inflight == 0 &&
              forall p :: p in polls[i].h.marked && IsFile(polls[i].s.mem, p) && !IsConfig(p) ==>
                p in polls[i].s.disk && polls[i].s.disk[p] == polls[i].s.mem[p]
  {
    var i :| DrainedAt(seen, i) && seen[i].lost <= at.s.lost;
    var w := polls[i];
    BootedIsSafe(boot);
    RunKeepsSafe(World(boot, NOTHING), es, at);
    RunKeepsLossCounted(at.(h := at.h.(marked := {})), runs[i], w, at.s.lost);
    forall p | p in w.h.marked && IsFile(w.s.mem, p) && !IsConfig(p)
      ensures p in w.s.disk && w.s.disk[p] == w.s.mem[p]
    {
      NothingInFlight(boot, es, at, runs[i], w, p);
    }
  }

  /** What the polls read is a run that goes on from `at`. */
  ghost predicate ReadsRun(boot: State, es: seq<Event>, at: World, polls: seq<World>, runs: seq<seq<Event>>, seen: seq<Reading>) {
    && Booted(boot) && Reaches(World(boot, NOTHING), es, at)
    && |polls| == |runs| == |seen| == POLLS + 1
    && (forall i :: 0 <= i <= POLLS ==> Reaches(at.(h := at.h.(marked := {})), runs[i], polls[i]))
    && (forall i :: 0 <= i <= POLLS ==> seen[i].inflight == polls[i].s.inflight && seen[i].lost == polls[i].s.lost)
  }

  /** Everything marked dirty since the baseline is byte-equal in OPFS. */
  ghost predicate AllDurable(w: World) {
    forall p :: p in w.h.marked && IsFile(w.s.mem, p) && !IsConfig(p) ==> p in w.s.disk && w.s.disk[p] == w.s.mem[p]
  }

  lemma LossesOnlyGrow(boot: State, es: seq<Event>, at: World, polls: seq<World>, runs: seq<seq<Event>>, seen: seq<Reading>, i: nat)
    requires ReadsRun(boot, es, at, polls, runs, seen) && i <= POLLS
    ensures seen[i].lost >= at.s.lost
  {
    BootedIsSafe(boot);
    RunKeepsSafe(World(boot, NOTHING), es, at);
    RunKeepsLossCounted(at.(h := at.h.(marked := {})), runs[i], polls[i], at.s.lost);
  }

  lemma BaselineFits(boot: State, es: seq<Event>, at: World, polls: seq<World>, runs: seq<seq<Event>>, seen: seq<Reading>)
    requires ReadsRun(boot, es, at, polls, runs, seen) && CountersFit(seen)
    ensures LostCount(at.s.lost) == at.s.lost && forall i :: DrainedAt(seen, i) ==> seen[i].lost >= at.s.lost
  {
    LossesOnlyGrow(boot, es, at, polls, runs, seen, 0);
    assert seen[0].inflight + seen[0].lost < TWO32;
    forall i | DrainedAt(seen, i) ensures seen[i].lost >= at.s.lost {
      LossesOnlyGrow(boot, es, at, polls, runs, seen, i);
    }
  }

  lemma ZeroIsDurable(boot: State, es: seq<Event>, at: World, polls: seq<World>, runs: seq<seq<Event>>, seen: seq<Reading>)
    requires ReadsRun(boot, es, at, polls, runs, seen) && exists i :: DrainedAt(seen, i) && seen[i].lost <= at.s.lost
    ensures exists i :: 0 <= i < POLLS && polls[i].s.inflight == 0 && AllDurable(polls[i])
  {
    ZeroMeansDurable(boot, es, at, polls, runs, seen);
  }

  /** The loss counter read at a barrier, and `flush_pending` with it: zero comes
      back exactly when a poll found nothing in flight and nothing lost since the
      barrier, and then all that was written since was durable at that poll. */
  method FlushSince(ghost boot: State, ghost es: seq<Event>, ghost at: World, ghost polls: seq<World>, ghost runs: seq<seq<Event>>,
                    lost: nat, seen: seq<Reading>)
    returns (notDurable: nat)
    requires ReadsRun(boot, es, at, polls, runs, seen) && CountersFit(seen) && lost == at.s.lost
    ensures notDurable == 0 <==> exists i :: DrainedAt(seen, i) && seen[i].lost == lost
    ensures notDurable == 0 ==> exists i :: 0 <= i < POLLS && polls[i].s.inflight == 0 && AllDurable(polls[i])
  {
    BaselineFits(boot, es, at, polls, runs, seen);
    var progress;
    notDurable, progress := FlushPending(true, seen, LostCount(lost));
    if notDurable == 0 {
      ZeroIsDurable(boot, es, at, polls, runs, seen);
    }
  }
}
