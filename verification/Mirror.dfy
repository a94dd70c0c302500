/** The write-through protocol between the in-memory tree and OPFS (`opfs.rs`).

    A state is what the worker's globals and the OPFS directory hold between two
    stretches of uninterrupted code.  An event is one such stretch: a client
    mutation, or the flusher resumed after one `await`, with the environment's
    answer.  The two config files' bytes are not part of `disk`: they live behind
    sync access handles (`Commit.dfy`). */
module Mirror {
  import opened Wrappers
  import opened Paths
  import opened MemFs
  import opened Durability
  import SyncAccess

  const ACCOUNTS_TOML: Path := ["accounts", "accounts.toml"]
  const ACCOUNTS_TOML_BAK: Path := ["accounts", "accounts.toml.bak"]

  predicate IsConfig(p: Path) {
    p == ACCOUNTS_TOML || p == ACCOUNTS_TOML_BAK
  }

  /** What the flusher is suspended on for its path. */
  datatype Phase =
    | Busy(snap: Snapshot, done: nat) // `done` directory or file handles obtained
    | Config                          // inside reconcile_config
    | Asleep                          // backing off before the next attempt

  datatype Active = Active(path: Path, attempt: nat, phase: Phase)

  datatype State = State(
    mem: Tree,
    disk: Tree,
    queue: seq<Path>,
    pending: set<Path>,
    active: Option<Active>,
    inflight: int,
    lost: nat)

  /** The environment's answer to one awaited OPFS call. */
  datatype Io =
    | Granted
    | Refused
    | Torn(written: nat)        // sah_write stopped after `written` bytes
    | Unflushed                  // all bytes in place, truncate or flush failed
    | Removed(gone: set<Path>)   // a recursive removal that took only these subtrees

  datatype Event =
    | Client(m: Mutation, configOk: bool) // configOk: the held handles took a config write
    | Dequeue
    | Resume(io: Io)
    | Wake

  // --- marking ---

  function MarkDirty(s: State, p: Path, configOk: bool): State {
    if p == ACCOUNTS_TOML && configOk then s
    else if p in s.pending then s
    else s.(pending := s.pending + {p}, queue := s.queue + [p], inflight := s.inflight + 1)
  }

  function MarkAll(s: State, ps: seq<Path>, configOk: bool): State
    decreases |ps|
  {
    if ps == [] then s else MarkAll(MarkDirty(s, ps[0], configOk), ps[1..], configOk)
  }

  lemma MarkOne(s: State, p: Path, configOk: bool)
    ensures MarkAll(s, [p], configOk) == MarkDirty(s, p, configOk)
  {
    assert [p][1..] == [];
    assert MarkAll(MarkDirty(s, p, configOk), [], configOk) == MarkDirty(s, p, configOk);
  }

  // --- one reconcile attempt ---

  function OnDisk(disk: Tree, p: Path): Bytes {
    if IsFile(disk, p) then disk[p].data else []
  }

  function WithoutSubtrees(t: Tree, gone: set<Path>): Tree {
    map k | k in t && (forall g :: g in gone ==> !Under(g, k)) :: t[k]
  }

  /** The attempt is over: done, asleep before the next one, or given up. */
  function Finish(s: State, a: Active, ok: bool): State {
    match NextStep(ok, a.attempt)
    case Done => s.(active := None, inflight := s.inflight - 1)
    case Retry(_) => s.(active := Some(a.(phase := Asleep)))
    case Permanent => s.(active := None, inflight := s.inflight - 1, lost := s.lost + 1)
  }

  /** Starts `reconcile` and runs it up to its first await. */
  function Begin(s: State, p: Path, attempt: nat): State {
    var a := Active(p, attempt, Config);
    if IsConfig(p) then s.(active := Some(a))
    else
      var snap := TakeSnapshot(s.mem, p);
      // "/" has no file name: only a directory snapshot of it can succeed
      if p == [] then Finish(s, a, snap.DirSnap?)
      else s.(active := Some(a.(phase := Busy(snap, 0))))
  }

  function Advance(s: State, a: Active): State
    requires a.phase.Busy?
  {
    s.(active := Some(a.(phase := a.phase.(done := a.phase.done + 1))))
  }

  /** One `getDirectoryHandle(create)` for the next prefix of the path. */
  function MakeDir(s: State, a: Active, io: Io): State
    requires a.phase.Busy? && a.phase.done < |a.path|
  {
    var d := a.path[..a.phase.done + 1];
    if io != Granted || IsFile(s.disk, d) then Finish(s, a, false)
    else
      var s' := s.(disk := if d in s.disk then s.disk else s.disk[d := Dir]);
      if a.phase.snap.DirSnap? && a.phase.done + 1 == |a.path| then Finish(s', a, true)
      else Advance(s', a)
  }

  function StoreFile(s: State, a: Active, io: Io): State
    requires a.phase.Busy? && a.phase.snap.FileSnap?
  {
    var p, data := a.path, a.phase.snap.data;
    match io
    case Granted => Finish(s.(disk := s.disk[p := File(data)]), a, true)
    case Torn(n) => Finish(s.(disk := s.disk[p := File(SyncAccess.Torn(data, OnDisk(s.disk, p), n))]), a, false)
    case Unflushed => Finish(s.(disk := s.disk[p := File(data)]), a, false)
    case _ => Finish(s, a, false)
  }

  /** The flusher resumed with the answer to the OPFS call it awaited. */
  function Step(s: State, a: Active, io: Io): State
    requires a.path != []
  {
    match a.phase
    case Config => Finish(s, a, io == Granted)
    case Asleep => s
    case Busy(snap, n) =>
      match snap
      case FileSnap(data) =>
        if n < |a.path| - 1 then MakeDir(s, a, io)
        else if n == |a.path| - 1 then
          // getFileHandle(create): materializes an empty file
          if io != Granted || (a.path in s.disk && s.disk[a.path].Dir?) then Finish(s, a, false)
          else Advance(s.(disk := if a.path in s.disk then s.disk else s.disk[a.path := File([])]), a)
        else StoreFile(s, a, io)
      case DirSnap =>
        if n < |a.path| then MakeDir(s, a, io) else s
      case Missing =>
        if n < |a.path| - 1 then
          // walk without creating; any failure reads as "already gone"
          var d := a.path[..n + 1];
          if io == Granted && d in s.disk && s.disk[d].Dir? then Advance(s, a) else Finish(s, a, true)
        else
          // the recursive removal's own error is ignored
          var gone := match io case Granted => {a.path} case Removed(g) => g case _ => {};
          Finish(s.(disk := WithoutSubtrees(s.disk, set g | g in gone && Under(a.path, g))), a, true)
  }

  // --- events ---

  ghost predicate Enabled(s: State, e: Event) {
    match e
    case Client(m, _) => Legal(s.mem, m)
    case Dequeue => s.active.None? && s.queue != []
    case Resume(_) => s.active.Some? && !s.active.value.phase.Asleep?
    case Wake => s.active.Some? && s.active.value.phase.Asleep?
  }

  function Dequeued(s: State): State
    requires s.queue != []
  {
    var p := s.queue[0];
    Begin(s.(queue := s.queue[1..], pending := s.pending - {p}), p, 1)
  }

  ghost function Mutated(s: State, m: Mutation, configOk: bool): State
    requires WellFormed(s.mem, m)
  {
    var effect := Apply(s.mem, m);
    MarkAll(s.(mem := effect.tree), effect.marks, configOk)
  }

  ghost function After(s: State, e: Event): State
    requires Enabled(s, e)
  {
    match e
    case Client(m, configOk) => Mutated(s, m, configOk)
    case Dequeue => Dequeued(s)
    case Resume(io) => if s.active.value.path == [] then s else Step(s, s.active.value, io)
    case Wake => Begin(s, s.active.value.path, s.active.value.attempt + 1)
  }

  ghost predicate Plays(s: State, es: seq<Event>, s': State)
    decreases |es|
  {
    if es == [] then s == s' else Enabled(s, es[0]) && Plays(After(s, es[0]), es[1..], s')
  }

  lemma {:induction false} PlaysThen(s: State, es: seq<Event>, s': State, e: Event)
    requires Plays(s, es, s') && Enabled(s', e)
    ensures Plays(s, es + [e], After(s', e))
    decreases |es|
  {
    if es == [] {
      assert es + [e] == [e] && [e][1..] == [];
      assert Plays(After(s, e), [], After(s, e));
    } else {
      assert (es + [e])[1..] == es[1..] + [e];
      PlaysThen(After(s, es[0]), es[1..], s', e);
    }
  }

  lemma {:induction false} PlaysConcat(s: State, es: seq<Event>, s': State, es': seq<Event>, s'': State)
    requires Plays(s, es, s') && Plays(s', es', s'')
    ensures Plays(s, es + es', s'')
    decreases |es|
  {
    if es == [] {
      assert es + es' == es';
    } else {
      assert (es + es')[1..] == es[1..] + es';
      PlaysConcat(After(s, es[0]), es[1..], s', es', s'');
    }
  }

  // --- accounting ---

  ghost predicate Distinct(q: seq<Path>) {
    forall i, j :: 0 <= i < j < |q| ==> q[i] != q[j]
  }

  ghost predicate Accounted(s: State) {
    && Distinct(s.queue)
    && (forall p :: p in s.pending <==> p in s.queue)
    && s.inflight == |s.queue| + (if s.active.Some? then 1 else 0)
  }

  ghost predicate PhaseOk(s: State) {
    s.active.Some? ==>
      var a := s.active.value;
      && 1 <= a.attempt <= MAX_ATTEMPTS
      && match a.phase
         case Asleep => a.attempt < MAX_ATTEMPTS
         case Config => IsConfig(a.path)
         case Busy(snap, n) =>
           && a.path != [] && !IsConfig(a.path)
           && match snap
              case FileSnap(_) => n <= |a.path|
              case DirSnap => n < |a.path|
              case Missing => n < |a.path|
  }

  lemma {:induction false} MarkAllAccounts(s: State, ps: seq<Path>, configOk: bool)
    requires Accounted(s)
    ensures var s' := MarkAll(s, ps, configOk);
            && Accounted(s')
            && s'.mem == s.mem && s'.disk == s.disk && s'.active == s.active && s'.lost == s.lost
            && s.queue <= s'.queue
            && s.pending <= s'.pending <= s.pending + (set p | p in ps)
            && (forall p :: p in ps && (p != ACCOUNTS_TOML || !configOk) ==> p in s'.pending)
    decreases |ps|
  {
    if ps != [] {
      var s1 := MarkDirty(s, ps[0], configOk);
      assert forall p :: p in s1.queue <==> p in s.queue || (s1 != s && p == ps[0]);
      MarkAllAccounts(s1, ps[1..], configOk);
      assert ps == [ps[0]] + ps[1..];
    }
  }

  lemma StepPhase(s: State, a: Active, io: Io)
    requires s.active == Some(a) && PhaseOk(s) && a.path != [] && !a.phase.Asleep?
    ensures PhaseOk(Step(s, a, io))
  {
  }

  lemma StepAccounts(s: State, a: Active, io: Io)
    requires Accounted(s) && PhaseOk(s) && s.active == Some(a) && a.path != [] && !a.phase.Asleep?
    ensures var s' := Step(s, a, io);
            && Accounted(s') && PhaseOk(s')
            && s'.mem == s.mem && s'.queue == s.queue && s'.pending == s.pending
  {
    StepPhase(s, a, io);
  }

  lemma DequeueAccounts(s: State)
    requires Accounted(s) && s.active.None? && s.queue != []
    ensures Accounted(Dequeued(s)) && PhaseOk(Dequeued(s))
  {
    var p, rest := s.queue[0], s.queue[1..];
    assert s.queue == [p] + rest;
    assert forall i :: 0 <= i < |rest| ==> rest[i] == s.queue[i + 1];
  }

  /** `INFLIGHT` counts exactly the queued paths plus the one being worked on,
      the dedupe set is the queue, and no path gets more than four attempts. */
  lemma AfterAccounted(s: State, e: Event)
    requires Accounted(s) && PhaseOk(s) && Enabled(s, e)
    ensures Accounted(After(s, e)) && PhaseOk(After(s, e))
  {
    match e
    case Client(m, configOk) =>
      MarkAllAccounts(s.(mem := Apply(s.mem, m).tree), Apply(s.mem, m).marks, configOk);
    case Dequeue =>
      DequeueAccounts(s);
    case Resume(io) =>
      if s.active.value.path != [] {
        StepAccounts(s, s.active.value, io);
      }
    case Wake =>
  }

  // --- the queue drains ---

  /** (queued, attempts left, awaits left in this attempt), ordered lexicographically. */
  datatype Rank = Rank(queued: nat, attempts: nat, awaits: nat)

  function RankOf(s: State): Rank
    requires s.active.Some? ==> s.active.value.attempt <= MAX_ATTEMPTS
  {
    match s.active
    case None => Rank(|s.queue|, 0, 0)
    case Some(a) =>
      Rank(|s.queue|, MAX_ATTEMPTS - a.attempt,
           match a.phase
           case Asleep => 0
           case Config => 2
           case Busy(_, n) => if n <= |a.path| then 2 + |a.path| - n else 2)
  }

  ghost predicate Below(a: Rank, b: Rank) {
    || a.queued < b.queued
    || (a.queued == b.queued && a.attempts < b.attempts)
    || (a.queued == b.queued && a.attempts == b.attempts && a.awaits < b.awaits)
  }

  /** Every flusher step, whatever OPFS answers, brings the drain closer. */
  lemma FlusherDescends(s: State, e: Event)
    requires Accounted(s) && PhaseOk(s) && Enabled(s, e) && !e.Client?
    ensures PhaseOk(After(s, e)) && Below(RankOf(After(s, e)), RankOf(s))
  {
    AfterAccounted(s, e);
  }

  /** As long as a write-through is outstanding some flusher step can run. */
  lemma NeverStuck(s: State)
    requires Accounted(s)
    ensures s.inflight != 0 <==> exists e: Event :: !e.Client? && Enabled(s, e)
  {
    if s.active.Some? {
      assert Enabled(s, if s.active.value.phase.Asleep? then Wake else Resume(Granted));
    } else if s.queue != [] {
      assert Enabled(s, Dequeue);
    }
  }
}
