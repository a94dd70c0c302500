/** Nothing the client wrote is silently missing from OPFS, over every run. */
module MirrorSafety {
  import opened Wrappers
  import opened Paths
  import opened MemFs
  import opened Durability
  import opened Mirror

  /** What a run has done so far, kept beside the state; nothing reads it.
      `marked`: paths marked dirty.  `given`: paths whose last reconcile was given
      up.  `removed`: removals still to be mirrored below which nothing was
      created since.  `tainted`: removals overtaken by a creation or refused by
      OPFS, and paths ever given up. */
  datatype History = History(marked: set<Path>, given: set<Path>, removed: set<Path>, tainted: set<Path>)

  const NOTHING := History({}, {}, {}, {})

  ghost predicate Working(s: State, p: Path) {
    s.active.Some? && s.active.value.path == p
  }

  ghost predicate Outstanding(s: State, p: Path) {
    p in s.pending || Working(s, p)
  }

  /** The path a flusher step works on. */
  function Subject(s: State, e: Event): Path {
    if e.Dequeue? && s.queue != [] then s.queue[0]
    else if s.active.Some? then s.active.value.path
    else []
  }

  function RemovalRoots(m: Mutation, effect: Effect): set<Path> {
    if effect.marks == [] then {}
    else match m
      case RemoveTree(p) => {p}
      case RemoveNode(p) => {p}
      case Rename(from, _, _) => {from}
      case _ => {}
  }

  ghost predicate Bare(t: Tree, root: Path) {
    forall k :: k in t ==> !Under(root, k)
  }

  /** A removal step that may have left something below its path. */
  predicate LeavesBehind(s: State, e: Event) {
    && e.Resume? && s.active.Some?
    && match s.active.value.phase
       case Busy(snap, _) => snap.Missing? && e.io != Granted
       case Config => true
       case Asleep => false
  }

  ghost function NextHistory(s: State, h: History, e: Event): History
    requires Enabled(s, e)
  {
    var s' := After(s, e);
    match e
    case Client(m, _) =>
      var effect := Apply(s.mem, m);
      var roots := h.removed + RemovalRoots(m, effect);
      var removed := set q | q in roots && Bare(s'.mem, q) && Outstanding(s', q);
      h.(marked := h.marked + (set p | p in effect.marks), removed := removed, tainted := h.tainted + (roots - removed))
    case _ =>
      var p := Subject(s, e);
      var removed := set q | q in h.removed && Outstanding(s', q);
      var over := s'.active.None?;
      var gaveUp := s'.lost > s.lost;
      h.(given := if gaveUp then h.given + {p} else if over then h.given - {p} else h.given,
         removed := removed,
         tainted := if gaveUp || LeavesBehind(s, e) then h.tainted + {p} else h.tainted)
  }

  // --- the invariant ---

  /** A real directory tree: every ancestor of an entry is a directory. */
  ghost predicate DiskTree(t: Tree) {
    && [] !in t
    && forall p, q :: p in t && Under(q, p) && q != [] && q != p ==> q in t && t[q].Dir?
  }

  /** What the flusher already obtained for its path is there. */
  ghost predicate Prepared(s: State) {
    (s.active.Some? && s.active.value.phase.Busy?) ==>
      var a := s.active.value;
      && (forall i :: 1 <= i <= a.phase.done && i < |a.path| ==> a.path[..i] in s.disk && s.disk[a.path[..i]].Dir?)
      && (a.phase.snap.FileSnap? && a.phase.done == |a.path| ==> IsFile(s.disk, a.path))
  }

  /** An active snapshot that is no longer true has its paths queued again. */
  ghost predicate StaleIsQueued(s: State) {
    (s.active.Some? && s.active.value.phase.Busy?) ==>
      var a := s.active.value;
      match a.phase.snap
      case Missing => forall p :: IsFile(s.mem, p) && Under(a.path, p) && !IsConfig(p) ==> p in s.pending
      case FileSnap(data) => IsFile(s.mem, a.path) ==> s.mem[a.path].data == data || a.path in s.pending
      case DirSnap => IsFile(s.mem, a.path) ==> a.path in s.pending
  }

  ghost predicate Mirrored(s: State, p: Path) {
    IsFile(s.mem, p) ==> p in s.disk && s.disk[p] == s.mem[p]
  }

  ghost predicate Included(s: State, h: History) {
    forall p :: IsFile(s.mem, p) && !IsConfig(p) ==>
      Mirrored(s, p) || Outstanding(s, p) || p in h.given
  }

  ghost predicate Safe(s: State, h: History) {
    Closed(s.mem) && Accounted(s) && PhaseOk(s) && DiskTree(s.disk) && Prepared(s) && StaleIsQueued(s) && Included(s, h)
  }

  /** The boot state: the tree was just hydrated from OPFS. */
  ghost predicate Booted(s: State) {
    DiskTree(s.disk) && s.mem == s.disk && s.queue == [] && s.pending == {} && s.active == None && s.inflight == 0
  }

  lemma BootedIsSafe(s: State)
    requires Booted(s)
    ensures Safe(s, NOTHING)
  {
  }

  // --- client mutations ---

  /** A file that is new or changed after a mutation was marked dirty. */
  lemma ChangedIsMarked(t: Tree, m: Mutation, p: Path)
    requires Legal(t, m)
    requires IsFile(Apply(t, m).tree, p) && !(p in t && t[p] == Apply(t, m).tree[p])
    ensures p in Apply(t, m).marks
  {
    if m.Rename? && m.order != [] {
      var (order, from, to) := (m.order, m.from, m.to);
      RenameKeys(t, order, from, to, p);
      RenameMovesSubtree(t, order, from, to);
      if p !in Targets(order, from, to) {
        RenameValues(t, order, from, to, p);
      }
    }
  }

  lemma ClientKeepsSafe(s: State, h: History, m: Mutation, configOk: bool)
    requires Safe(s, h) && Legal(s.mem, m)
    ensures Safe(After(s, Client(m, configOk)), NextHistory(s, h, Client(m, configOk)))
  {
    var effect := Apply(s.mem, m);
    var s' := After(s, Client(m, configOk));
    AfterAccounted(s, Client(m, configOk));
    MarkAllAccounts(s.(mem := effect.tree), effect.marks, configOk);
    ApplyKeepsClosed(s.mem, m);
    forall p | IsFile(s'.mem, p) && !(p in s.mem && s.mem[p] == s'.mem[p]) && !IsConfig(p)
      ensures p in s'.pending
    {
      ChangedIsMarked(s.mem, m, p);
    }
  }

  // --- flusher steps ---

  ghost predicate OnDiskOk(s: State) {
    DiskTree(s.disk) && Prepared(s)
  }

  lemma MakeDirKeepsDisk(s: State, a: Active, io: Io)
    requires OnDiskOk(s) && s.active == Some(a) && a.phase.Busy? && a.phase.done < |a.path|
    requires a.phase.snap.FileSnap? ==> a.phase.done < |a.path| - 1
    ensures OnDiskOk(MakeDir(s, a, io))
    ensures forall p :: IsFile(s.disk, p) ==> p in MakeDir(s, a, io).disk && MakeDir(s, a, io).disk[p] == s.disk[p]
    ensures forall p :: IsFile(MakeDir(s, a, io).disk, p) ==> IsFile(s.disk, p)
  {
    var n := a.phase.done;
    var d := a.path[..n + 1];
    forall q | Under(q, d) && q != [] && q != d
      ensures q in s.disk && s.disk[q].Dir?
    {
      assert q == a.path[..|q|];
    }
  }

  lemma StepKeepsDisk(s: State, a: Active, io: Io)
    requires OnDiskOk(s) && PhaseOk(s) && s.active == Some(a) && a.path != []
    ensures OnDiskOk(Step(s, a, io))
  {
    if a.phase.Busy? {
      var n := a.phase.done;
      match a.phase.snap
      case FileSnap(data) =>
        if n < |a.path| - 1 {
          MakeDirKeepsDisk(s, a, io);
        } else {
          forall q | Under(q, a.path) && q != [] && q != a.path
            ensures q in s.disk && s.disk[q].Dir?
          {
            assert q == a.path[..|q|];
          }
        }
      case DirSnap =>
        MakeDirKeepsDisk(s, a, io);
      case Missing =>
        if n == |a.path| - 1 {
          RemovalKeepsTree(s.disk, match io case Granted => {a.path} case Removed(g) => g case _ => {}, a.path);
        }
    }
  }

  lemma RemovalKeepsTree(t: Tree, gone: set<Path>, root: Path)
    requires DiskTree(t)
    ensures DiskTree(WithoutSubtrees(t, set g | g in gone && Under(root, g)))
  {
    var cut := set g | g in gone && Under(root, g);
    forall p, q | p in WithoutSubtrees(t, cut) && Under(q, p) && q != []
      ensures forall g :: g in cut ==> !Under(g, q)
    {
      forall g | g in cut && Under(g, q) ensures false {
        Transitive(g, q, p);
      }
    }
  }

  lemma Transitive(a: Path, b: Path, c: Path)
    ensures Under(a, b) && Under(b, c) ==> Under(a, c)
  {
  }

  lemma StepKeepsMirrored(s: State, h: History, a: Active, io: Io, p: Path)
    requires Safe(s, h) && s.active == Some(a) && a.path != [] && !a.phase.Asleep?
    requires IsFile(s.mem, p) && !IsConfig(p)
    ensures var s' := Step(s, a, io);
            || Mirrored(s', p) || Outstanding(s', p)
            || (if s'.lost > s.lost then p == a.path || p in h.given
                else if s'.active.None? then p in h.given - {a.path}
                else p in h.given)
  {
    if a.phase.Busy? {
      if a.phase.done < |a.path| && !a.phase.snap.Missing? && !(a.phase.snap.FileSnap? && a.phase.done == |a.path| - 1) {
        MakeDirKeepsDisk(s, a, io);
      }
      if a.phase.snap.Missing? && a.phase.done == |a.path| - 1 && !Under(a.path, p) {
        forall g | Under(a.path, g) && Under(g, p) ensures false {
          Transitive(a.path, g, p);
        }
      }
    }
  }

  lemma StepKeepsStale(s: State, a: Active, io: Io)
    requires StaleIsQueued(s) && PhaseOk(s) && s.active == Some(a) && a.path != [] && !a.phase.Asleep?
    ensures StaleIsQueued(Step(s, a, io))
  {
  }

  /** Every flusher step, with every answer OPFS may give, keeps the invariant. */
  lemma FlusherKeepsSafe(s: State, h: History, e: Event)
    requires Safe(s, h) && Enabled(s, e) && !e.Client?
    ensures Safe(After(s, e), NextHistory(s, h, e))
  {
    AfterAccounted(s, e);
    if e.Resume? && s.active.value.path != [] {
      var a := s.active.value;
      StepKeepsDisk(s, a, e.io);
      StepKeepsStale(s, a, e.io);
      StepAccounts(s, a, e.io);
      forall p | IsFile(s.mem, p) && !IsConfig(p)
        ensures var s' := After(s, e); Mirrored(s', p) || Outstanding(s', p) || p in NextHistory(s, h, e).given
      {
        StepKeepsMirrored(s, h, a, e.io, p);
      }
    }
  }

  // --- runs ---

  datatype World = World(s: State, h: History)

  ghost function StepWorld(w: World, e: Event): World
    requires Enabled(w.s, e)
  {
    World(After(w.s, e), NextHistory(w.s, w.h, e))
  }

  /** `w'` is reached from `w` by `es`: any interleaving of client mutations with
      flusher steps, any answers. */
  ghost predicate Reaches(w: World, es: seq<Event>, w': World)
    decreases |es|
  {
    if es == [] then w == w'
    else Enabled(w.s, es[0]) && Reaches(StepWorld(w, es[0]), es[1..], w')
  }

  lemma StepKeepsSafe(w: World, e: Event)
    requires Safe(w.s, w.h) && Enabled(w.s, e)
    ensures Safe(StepWorld(w, e).s, StepWorld(w, e).h)
  {
    if e.Client? {
      ClientKeepsSafe(w.s, w.h, e.m, e.configOk);
    } else {
      FlusherKeepsSafe(w.s, w.h, e);
    }
  }

  lemma {:induction false} RunKeepsSafe(w: World, es: seq<Event>, w': World)
    requires Safe(w.s, w.h) && Reaches(w, es, w')
    ensures Safe(w'.s, w'.h)
    decreases |es|
  {
    if es != [] {
      StepKeepsSafe(w, es[0]);
      RunKeepsSafe(StepWorld(w, es[0]), es[1..], w');
    }
  }

  /** Mirror inclusion: at every moment of every run from boot, each memfs file
      outside the config pair is byte-equal in OPFS, queued, being written, or was
      given up at its last reconcile. */
  lemma MirrorInclusion(boot: State, es: seq<Event>, w: World, p: Path)
    requires Booted(boot) && Reaches(World(boot, NOTHING), es, w)
    requires IsFile(w.s.mem, p) && !IsConfig(p)
    ensures (p in w.s.disk && w.s.disk[p] == w.s.mem[p]) || p in w.s.pending || Working(w.s, p) || p in w.h.given
  {
    BootedIsSafe(boot);
    RunKeepsSafe(World(boot, NOTHING), es, w);
  }

  // --- the flush verdict ---

  /** Since the counter stood at `base`, a marked path that was given up is counted. */
  ghost predicate LossCounted(w: World, base: nat) {
    && w.s.lost >= base
    && forall p :: p in w.h.marked && p in w.h.given ==> Outstanding(w.s, p) || w.s.lost > base || IsConfig(p)
  }

  lemma StepKeepsLossCounted(w: World, e: Event, base: nat)
    requires Safe(w.s, w.h) && Enabled(w.s, e) && LossCounted(w, base)
    ensures LossCounted(StepWorld(w, e), base)
  {
    if e.Client? {
      var effect := Apply(w.s.mem, e.m);
      MarkAllAccounts(w.s.(mem := effect.tree), effect.marks, e.configOk);
    } else if e.Resume? && w.s.active.value.path != [] {
      StepAccounts(w.s, w.s.active.value, e.io);
    }
  }

  lemma {:induction false} RunKeepsLossCounted(w: World, es: seq<Event>, w': World, base: nat)
    requires Safe(w.s, w.h) && LossCounted(w, base) && Reaches(w, es, w')
    ensures LossCounted(w', base)
    decreases |es|
  {
    if es != [] {
      StepKeepsLossCounted(w, es[0], base);
      StepKeepsSafe(w, es[0]);
      RunKeepsLossCounted(StepWorld(w, es[0]), es[1..], w', base);
    }
  }

  /** When nothing is in flight and the loss counter has not moved since the
      baseline, every file marked dirty since then is durable as it stands. */
  lemma NothingInFlight(boot: State, es: seq<Event>, at: World, es': seq<Event>, w: World, p: Path)
    requires Booted(boot) && Reaches(World(boot, NOTHING), es, at)
    requires Reaches(at.(h := at.h.(marked := {})), es', w) // marks counted from the baseline on
    requires w.s.inflight == 0 && w.s.lost == at.s.lost
    requires p in w.h.marked && IsFile(w.s.mem, p) && !IsConfig(p)
    ensures p in w.s.disk && w.s.disk[p] == w.s.mem[p]
  {
    BootedIsSafe(boot);
    RunKeepsSafe(World(boot, NOTHING), es, at);
    var base := at.(h := at.h.(marked := {}));
    assert LossCounted(base, at.s.lost);
    RunKeepsLossCounted(base, es', w, at.s.lost);
    RunKeepsSafe(base, es', w);
  }
}
