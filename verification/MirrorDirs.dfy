/** Directories in OPFS: which ones the mirror promises, over every run. */
module MirrorDirs {
  import opened Wrappers
  import opened Paths
  import opened MemFs
  import opened Durability
  import opened Mirror
  import opened MirrorSafety
  import opened MirrorConvergence

  ghost predicate IsDir(t: Tree, p: Path) {
    p in t && t[p].Dir?
  }

  /** The directories that were in the tree at boot, or were marked dirty as
      directories, and have been in the tree ever since. */
  ghost function KeptNext(s: State, kept: set<Path>, e: Event): set<Path>
    requires Enabled(s, e)
  {
    match e
    case Client(m, _) =>
      var effect := Apply(s.mem, m);
      set d | d in kept + (set p | p in effect.marks) && d != [] && IsDir(effect.tree, d)
    case _ => kept
  }

  ghost function Kept(w: World, kept: set<Path>, es: seq<Event>, w': World): set<Path>
    requires Reaches(w, es, w')
    decreases |es|
  {
    if es == [] then kept else Kept(StepWorld(w, es[0]), KeptNext(w.s, kept, es[0]), es[1..], w')
  }

  /** A snapshot that is no longer true of a directory has it queued again. */
  ghost predicate StaleDirIsQueued(s: State, kept: set<Path>) {
    (s.active.Some? && s.active.value.phase.Busy?) ==>
      var a := s.active.value;
      match a.phase.snap
      case Missing => forall d :: d in kept && Under(a.path, d) && !IsConfig(d) ==> d in s.pending
      case FileSnap(_) => a.path in kept ==> a.path in s.pending
      case DirSnap => true
  }

  ghost predicate DirsSafe(s: State, h: History, kept: set<Path>) {
    && StaleDirIsQueued(s, kept)
    && forall d :: d in kept ==>
         && d != [] && IsDir(s.mem, d)
         && (IsConfig(d) || IsDir(s.disk, d) || Outstanding(s, d) || d in h.given)
  }

  /** A reconcile of a directory that ends in success has made it. */
  lemma SuccessMakesDir(s: State, a: Active, io: Io)
    requires PhaseOk(s) && s.active == Some(a) && a.phase.Busy? && a.phase.snap.DirSnap?
    requires Step(s, a, io).active.None? && Step(s, a, io).lost == s.lost
    ensures IsDir(Step(s, a, io).disk, a.path)
  {
    assert a.path[..|a.path|] == a.path;
  }

  lemma StepKeepsDir(s: State, a: Active, io: Io, d: Path)
    requires OnDiskOk(s) && PhaseOk(s) && s.active == Some(a) && a.path != [] && !a.phase.Asleep?
    requires IsDir(s.disk, d)
    requires a.phase.Busy? && a.phase.snap.Missing? ==> !Under(a.path, d)
    ensures IsDir(Step(s, a, io).disk, d)
  {
    if a.phase.Busy? && a.phase.snap.Missing? && a.phase.done == |a.path| - 1 {
      forall g | Under(a.path, g) ensures !Under(g, d) {
        Transitive(a.path, g, d);
      }
    }
  }

  lemma ResumeKeepsDirs(s: State, h: History, kept: set<Path>, io: Io)
    requires Safe(s, h) && DirsSafe(s, h, kept) && Enabled(s, Resume(io)) && s.active.value.path != []
    ensures DirsSafe(After(s, Resume(io)), NextHistory(s, h, Resume(io)), kept)
  {
    var a := s.active.value;
    var s', h' := After(s, Resume(io)), NextHistory(s, h, Resume(io));
    StepAccounts(s, a, io);
    forall d | d in kept && !IsConfig(d) ensures IsDir(s'.disk, d) || Outstanding(s', d) || d in h'.given {
      if IsDir(s.disk, d) && !(a.phase.Busy? && a.phase.snap.Missing? && Under(a.path, d)) {
        StepKeepsDir(s, a, io, d);
      } else if d == a.path && s'.active.None? && s'.lost == s.lost && a.phase.Busy? && a.phase.snap.DirSnap? {
        SuccessMakesDir(s, a, io);
      }
    }
  }

  lemma ClientKeepsDirs(s: State, h: History, kept: set<Path>, m: Mutation, configOk: bool)
    requires Safe(s, h) && DirsSafe(s, h, kept) && Legal(s.mem, m)
    ensures var e := Client(m, configOk); DirsSafe(After(s, e), NextHistory(s, h, e), KeptNext(s, kept, e))
  {
    var effect := Apply(s.mem, m);
    MarkAllAccounts(s.(mem := effect.tree), effect.marks, configOk);
  }

  lemma StepKeepsDirs(w: World, kept: set<Path>, e: Event)
    requires Safe(w.s, w.h) && DirsSafe(w.s, w.h, kept) && Enabled(w.s, e)
    ensures DirsSafe(StepWorld(w, e).s, StepWorld(w, e).h, KeptNext(w.s, kept, e))
  {
    match e
    case Client(m, configOk) => ClientKeepsDirs(w.s, w.h, kept, m, configOk);
    case Resume(io) =>
      if w.s.active.value.path != [] {
        ResumeKeepsDirs(w.s, w.h, kept, io);
      }
    case _ =>
      if e.Dequeue? {
        DequeueAccounts(w.s);
      }
  }

  lemma {:induction false} RunKeepsDirs(w: World, kept: set<Path>, es: seq<Event>, w': World)
    requires Safe(w.s, w.h) && DirsSafe(w.s, w.h, kept) && Reaches(w, es, w')
    ensures DirsSafe(w'.s, w'.h, Kept(w, kept, es, w'))
    decreases |es|
  {
    if es != [] {
      StepKeepsSafe(w, es[0]);
      StepKeepsDirs(w, kept, es[0]);
      RunKeepsDirs(StepWorld(w, es[0]), KeptNext(w.s, kept, es[0]), es[1..], w');
    }
  }

  function DirsOf(t: Tree): set<Path> {
    set d | d in t && t[d].Dir?
  }

  /** At every moment of every run from boot: a directory that was there at boot
      or was marked, and has been in the tree since, is a directory of OPFS,
      queued, being worked on, or was given up at its last reconcile. */
  lemma DirInclusion(boot: State, es: seq<Event>, w: World, d: Path)
    requires Booted(boot) && Reaches(World(boot, NOTHING), es, w)
    requires d in Kept(World(boot, NOTHING), DirsOf(boot.mem), es, w) && !IsConfig(d)
    ensures IsDir(w.s.disk, d) || d in w.s.pending || Working(w.s, d) || d in w.h.given
  {
    BootedIsSafe(boot);
    RunKeepsDirs(World(boot, NOTHING), DirsOf(boot.mem), es, w);
  }

  /** So once drained without a loss every such directory is there after a reload. */
  lemma DrainedDirs(boot: State, es: seq<Event>, w: World, d: Path)
    requires Booted(boot) && Reaches(World(boot, NOTHING), es, w)
    requires d in Kept(World(boot, NOTHING), DirsOf(boot.mem), es, w) && !IsConfig(d)
    requires w.s.inflight == 0 && w.s.lost == boot.lost
    ensures IsDir(w.s.disk, d)
  {
    BootedIsSafe(boot);
    RunKeepsSafe(World(boot, NOTHING), es, w);
    RunCountsLosses(World(boot, NOTHING), es, w);
    DirInclusion(boot, es, w, d);
  }

  /** What a loss-free drain can still leave out of OPFS: only directories that nobody
      marked and below which there is nothing that was, no file and no marked
      directory. */
  lemma OnlyBareDirsAreMissing(boot: State, es: seq<Event>, w: World, d: Path)
    requires Booted(boot) && Reaches(World(boot, NOTHING), es, w)
    requires w.s.inflight == 0 && w.s.lost == boot.lost
    requires IsDir(w.s.mem, d) && d != [] && !IsConfig(d) && !IsDir(w.s.disk, d)
    ensures d !in Kept(World(boot, NOTHING), DirsOf(boot.mem), es, w)
    ensures forall k :: k in w.s.mem && Under(d, k) && !IsConfig(k) ==>
              w.s.mem[k].Dir? && k !in Kept(World(boot, NOTHING), DirsOf(boot.mem), es, w)
  {
    BootedIsSafe(boot);
    RunKeepsSafe(World(boot, NOTHING), es, w);
    RunCountsLosses(World(boot, NOTHING), es, w);
    forall k | k in w.s.mem && Under(d, k) && !IsConfig(k)
      ensures w.s.mem[k].Dir? && k !in Kept(World(boot, NOTHING), DirsOf(boot.mem), es, w)
    {
      if w.s.mem[k].File? {
        MirrorInclusion(boot, es, w, k);
      } else if k in Kept(World(boot, NOTHING), DirsOf(boot.mem), es, w) {
        DrainedDirs(boot, es, w, k);
      }
    }
  }

  // --- a directory nobody marked ---

  const FILE: Path := ["d", "x"]

  const D: Path := ["d"]

  lemma WriteThenRemove(s: State, data: Bytes)
    requires s == State(map[], map[], [], {}, None, 0, 0)
    ensures var e1, e2 := Client(Write(FILE, data), true), Client(RemoveNode(FILE), true);
            && Enabled(s, e1) && Enabled(After(s, e1), e2)
            && After(After(s, e1), e2) == State(map[D := Dir], map[], [FILE], {FILE}, None, 1, 0)
  {
    assert FILE[..1] == D && Ancestors(FILE) == {D};
    var t: Tree := map[D := Dir, FILE := File(data)];
    MarkOne(s.(mem := t), FILE, true);
    assert WithDirs(map[], Ancestors(FILE))[FILE := File(data)] == t;
    var s1 := After(s, Client(Write(FILE, data), true));
    assert s1 == State(t, map[], [FILE], {FILE}, None, 1, 0);
    assert t - {FILE} == map[D := Dir];
    MarkOne(s1.(mem := map[D := Dir]), FILE, true);
  }

  lemma FlushRemoved(s: State)
    requires s == State(map[D := Dir], map[], [FILE], {FILE}, None, 1, 0)
    ensures Enabled(s, Dequeue) && Enabled(After(s, Dequeue), Resume(Granted))
    ensures After(After(s, Dequeue), Resume(Granted)) == s.(queue := [], pending := {}, inflight := 0)
  {
    assert After(s, Dequeue) == s.(queue := [], pending := {}, active := Some(Active(FILE, 1, Busy(Missing, 0))));
  }

  /** A directory that only came about as the parent of a file is not marked: when
      the file is gone before the flusher gets to it, the directory stays in the
      tree, and OPFS never has it. */
  lemma UnmarkedParentIsLost(data: Bytes)
    ensures exists boot: State, es: seq<Event>, w: World ::
              && Booted(boot) && Reaches(World(boot, NOTHING), es, w)
              && w.s.inflight == 0 && w.s.lost == boot.lost && IsDir(w.s.mem, D) && D !in w.s.disk
  {
    var boot := State(map[], map[], [], {}, None, 0, 0);
    var e1, e2 := Client(Write(FILE, data), true), Client(RemoveNode(FILE), true);
    WriteThenRemove(boot, data);
    FlushRemoved(After(After(boot, e1), e2));
    FourSteps(World(boot, NOTHING), e1, e2, Dequeue, Resume(Granted));
  }
}
