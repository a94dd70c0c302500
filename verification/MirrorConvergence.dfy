/** What OPFS still holds after a drain that the memfs does not. */
module MirrorConvergence {
  import opened Wrappers
  import opened Paths
  import opened MemFs
  import opened Mirror
  import opened MirrorSafety

  /** Some removal at or above `k` is still to be mirrored, or was overtaken. */
  ghost predicate Explained(h: History, k: Path) {
    exists q :: q in h.removed + h.tainted && Under(q, k)
  }

  /** A file or directory OPFS has and the memfs lacks, or a file where the memfs
      has a directory. */
  ghost predicate Extra(s: State, k: Path) {
    k in s.disk && !IsConfig(k) && (k !in s.mem || (s.disk[k].File? && s.mem[k].Dir?))
  }

  ghost predicate ExtrasCovered(s: State, h: History) {
    forall k :: Extra(s, k) ==> Outstanding(s, k) || Explained(h, k)
  }

  /** A removal still to be mirrored has nothing below it, and once it is being
      worked on it is worked on as a removal. */
  ghost predicate RemovalsStand(s: State, h: History) {
    forall q :: q in h.removed ==>
      && Bare(s.mem, q) && Outstanding(s, q)
      && (q !in s.pending && s.active.value.phase.Busy? ==> s.active.value.phase.snap.Missing?)
  }

  /** What is about to be created and is gone by now will be removed again. */
  ghost predicate StaleCovered(s: State, h: History) {
    (s.active.Some? && s.active.value.phase.Busy? && !s.active.value.phase.snap.Missing?) ==>
      var p := s.active.value.path;
      && (s.active.value.phase.snap.FileSnap? ==> IsFile(s.mem, p) || p in s.pending || Explained(h, p))
      && forall q :: Under(q, p) && q != [] && !IsConfig(q) ==> q in s.mem || q in s.pending || Explained(h, q)
  }

  ghost predicate Converging(s: State, h: History) {
    ExtrasCovered(s, h) && RemovalsStand(s, h) && StaleCovered(s, h)
  }

  // --- client mutations ---

  /** What vanishes, or stops being a file, is marked or lies below a removal root. */
  lemma GoneIsMarkedOrRemoved(t: Tree, m: Mutation, k: Path)
    requires Legal(t, m) && k in t && (k !in Apply(t, m).tree || (t[k].File? && Apply(t, m).tree[k].Dir?))
    ensures k in Apply(t, m).marks || exists q :: q in RemovalRoots(m, Apply(t, m)) && Under(q, k)
  {
    match m
    case Rename(from, to, order) =>
      RenameMovesSubtree(t, order, from, to);
      RenameKeys(t, order, from, to, k);
      if k in Targets(order, from, to) || Under(from, k) {
        assert from in RemovalRoots(m, Apply(t, m));
      } else {
        RenameValues(t, order, from, to, k);
      }
    case RemoveTree(p) => assert Under(p, k) && p in RemovalRoots(m, Apply(t, m));
    case RemoveNode(p) => assert k == p && Under(p, k);
    case _ =>
  }

  ghost predicate Vanishes(t: Tree, r: Tree, k: Path) {
    k in t && (k !in r || (t[k].File? && r[k].Dir?))
  }

  /** A mutation forgets no removal, adds no extra, and marks or covers what goes. */
  lemma ClientCovers(s: State, h: History, m: Mutation, configOk: bool)
    requires Safe(s, h) && Legal(s.mem, m)
    ensures var s', h' := After(s, Client(m, configOk)), NextHistory(s, h, Client(m, configOk));
            && s'.disk == s.disk && s'.active == s.active && s.pending <= s'.pending
            && (forall k :: Explained(h, k) ==> Explained(h', k))
            && (forall k :: Vanishes(s.mem, s'.mem, k) && !IsConfig(k) ==> k in s'.pending || Explained(h', k))
  {
    var e := Client(m, configOk);
    var effect := Apply(s.mem, m);
    var s', h' := After(s, e), NextHistory(s, h, e);
    MarkAllAccounts(s.(mem := effect.tree), effect.marks, configOk);
    assert h.removed + h.tainted + RemovalRoots(m, effect) == h'.removed + h'.tainted;
    forall k | Vanishes(s.mem, s'.mem, k) && !IsConfig(k)
      ensures k in s'.pending || Explained(h', k)
    {
      GoneIsMarkedOrRemoved(s.mem, m, k);
    }
    forall k | Explained(h, k) ensures Explained(h', k) {
      var q :| q in h.removed + h.tainted && Under(q, k);
      assert q in h'.removed + h'.tainted;
    }
  }

  lemma ClientKeepsStanding(s: State, h: History, m: Mutation, configOk: bool)
    requires Safe(s, h) && RemovalsStand(s, h) && Legal(s.mem, m)
    ensures var e := Client(m, configOk); RemovalsStand(After(s, e), NextHistory(s, h, e))
  {
    var effect := Apply(s.mem, m);
    MarkAllAccounts(s.(mem := effect.tree), effect.marks, configOk);
  }

  lemma ClientKeepsConverging(s: State, h: History, m: Mutation, configOk: bool)
    requires Safe(s, h) && Converging(s, h) && Legal(s.mem, m)
    ensures var e := Client(m, configOk); Converging(After(s, e), NextHistory(s, h, e))
  {
    var s', h' := After(s, Client(m, configOk)), NextHistory(s, h, Client(m, configOk));
    ClientCovers(s, h, m, configOk);
    ClientKeepsStanding(s, h, m, configOk);
    forall k | Extra(s', k) ensures Outstanding(s', k) || Explained(h', k) {
      assert Extra(s, k) || Vanishes(s.mem, s'.mem, k);
    }
    if s'.active.Some? && s'.active.value.phase.Busy? && s'.active.value.phase.snap.FileSnap? {
      var p := s'.active.value.path;
      assert IsFile(s.mem, p) ==> IsFile(s'.mem, p) || Vanishes(s.mem, s'.mem, p);
    }
  }

  // --- flusher steps ---

  /** A removal OPFS granted leaves nothing at or below its path. */
  lemma GrantedRemovalClears(s: State, a: Active, k: Path)
    requires OnDiskOk(s) && PhaseOk(s) && s.active == Some(a) && a.phase.Busy? && a.phase.snap.Missing?
    requires Under(a.path, k) && Step(s, a, Granted).active.None?
    ensures k !in Step(s, a, Granted).disk
  {
    if a.phase.done < |a.path| - 1 {
      var d := a.path[..a.phase.done + 1];
      Transitive(d, a.path, k);
    } else {
      assert a.path in set g | g in {a.path} && Under(a.path, g);
    }
  }

  /** Besides its own path a step makes only directories on the way there. */
  lemma StepMakesNothingElse(s: State, a: Active, io: Io, k: Path)
    requires OnDiskOk(s) && PhaseOk(s) && s.active == Some(a) && a.path != [] && !a.phase.Asleep?
    requires k in Step(s, a, io).disk && k != a.path
    ensures (k in s.disk && s.disk[k] == Step(s, a, io).disk[k])
            || (a.phase.Busy? && !a.phase.snap.Missing? && Under(k, a.path) && k != [] && Step(s, a, io).disk[k].Dir?)
  {
  }

  /** The path worked on stays accounted for when its attempt is over. */
  lemma SubjectCovered(s: State, h: History, io: Io)
    requires Safe(s, h) && Converging(s, h) && Enabled(s, Resume(io)) && s.active.value.path != []
    requires var s' := After(s, Resume(io)); s'.active.None? && Extra(s', s.active.value.path)
    ensures var h' := NextHistory(s, h, Resume(io));
            s.active.value.path in s.pending || Explained(h', s.active.value.path)
  {
    var a := s.active.value;
    var s', h' := After(s, Resume(io)), NextHistory(s, h, Resume(io));
    StepAccounts(s, a, io);
    if s'.lost == s.lost && a.phase.Busy? {
      match a.phase.snap
      case Missing =>
        if io == Granted {
          GrantedRemovalClears(s, a, a.path);
        } else {
          assert a.path in h'.tainted && Under(a.path, a.path);
        }
      case FileSnap(_) =>
        if a.path !in s.pending {
          var q :| q in h.removed + h.tainted && Under(q, a.path);
          assert q in h'.removed + h'.tainted;
        }
      case DirSnap =>
    } else {
      assert a.path in h'.tainted && Under(a.path, a.path);
    }
  }

  lemma ExplainedSurvives(s: State, h: History, io: Io, k: Path)
    requires Safe(s, h) && Converging(s, h) && Enabled(s, Resume(io)) && s.active.value.path != []
    requires Explained(h, k) && k in After(s, Resume(io)).disk
    ensures Explained(NextHistory(s, h, Resume(io)), k)
  {
    var a := s.active.value;
    var s', h' := After(s, Resume(io)), NextHistory(s, h, Resume(io));
    StepAccounts(s, a, io);
    var q :| q in h.removed + h.tainted && Under(q, k);
    if q !in h'.removed + h'.tainted {
      assert q == a.path && s'.active.None?;
      if io == Granted && a.phase.Busy? {
        GrantedRemovalClears(s, a, k);
      }
    }
  }

  lemma ResumeCovers(s: State, h: History, io: Io, k: Path)
    requires Safe(s, h) && Converging(s, h) && Enabled(s, Resume(io)) && s.active.value.path != []
    requires Extra(After(s, Resume(io)), k)
    ensures var s', h' := After(s, Resume(io)), NextHistory(s, h, Resume(io)); Outstanding(s', k) || Explained(h', k)
  {
    var a := s.active.value;
    StepAccounts(s, a, io);
    if k == a.path {
      if After(s, Resume(io)).active.None? {
        SubjectCovered(s, h, io);
      }
    } else {
      StepMakesNothingElse(s, a, io, k);
      if !Outstanding(s, k) {
        assert Explained(h, k);
        ExplainedSurvives(s, h, io, k);
      }
    }
  }

  lemma ResumeKeepsConverging(s: State, h: History, io: Io)
    requires Safe(s, h) && Converging(s, h) && Enabled(s, Resume(io)) && s.active.value.path != []
    ensures Converging(After(s, Resume(io)), NextHistory(s, h, Resume(io)))
  {
    var a := s.active.value;
    var s', h' := After(s, Resume(io)), NextHistory(s, h, Resume(io));
    StepAccounts(s, a, io);
    forall k | Extra(s', k) ensures Outstanding(s', k) || Explained(h', k) {
      ResumeCovers(s, h, io, k);
    }
    if s'.active.Some? {
      forall q | Explained(h, q) ensures Explained(h', q) {
        var g :| g in h.removed + h.tainted && Under(g, q);
        assert g in h'.removed + h'.tainted;
      }
    }
  }

  lemma BeginKeepsConverging(s: State, h: History, e: Event)
    requires Safe(s, h) && Converging(s, h) && Enabled(s, e) && (e.Dequeue? || e.Wake?)
    ensures Converging(After(s, e), NextHistory(s, h, e))
  {
    var s', h' := After(s, e), NextHistory(s, h, e);
    var p := Subject(s, e);
    if e.Dequeue? {
      DequeueAccounts(s);
    }
    forall q | q in h.removed + h.tainted ensures q in h'.removed + h'.tainted {
      if q == p == [] {
        assert [] in s.mem ==> !Bare(s.mem, []);
      }
    }
    forall k | Explained(h, k) ensures Explained(h', k) {
      var q :| q in h.removed + h.tainted && Under(q, k);
      assert q in h'.removed + h'.tainted;
    }
    assert forall q :: q in h'.removed && q == p ==> p !in s.mem by {
      assert forall q :: q in s.mem && Bare(s.mem, q) ==> !Under(q, q);
    }
  }

  lemma StepKeepsConverging(w: World, e: Event)
    requires Safe(w.s, w.h) && Converging(w.s, w.h) && Enabled(w.s, e)
    ensures Converging(StepWorld(w, e).s, StepWorld(w, e).h)
  {
    match e
    case Client(m, configOk) => ClientKeepsConverging(w.s, w.h, m, configOk);
    case Resume(io) => ResumeKeepsConverging(w.s, w.h, io);
    case _ => BeginKeepsConverging(w.s, w.h, e);
  }

  lemma {:induction false} RunKeepsConverging(w: World, es: seq<Event>, w': World)
    requires Safe(w.s, w.h) && Converging(w.s, w.h) && Reaches(w, es, w')
    ensures Safe(w'.s, w'.h) && Converging(w'.s, w'.h)
    decreases |es|
  {
    if es != [] {
      StepKeepsSafe(w, es[0]);
      StepKeepsConverging(w, es[0]);
      RunKeepsConverging(StepWorld(w, es[0]), es[1..], w');
    }
  }

  /** Drained, anything OPFS has beyond the memfs lies at or below a removal that
      was overtaken by a creation, refused by OPFS, or a path once given up. */
  lemma ExtrasLieBelowTainted(boot: State, es: seq<Event>, w: World, k: Path)
    requires Booted(boot) && Reaches(World(boot, NOTHING), es, w)
    requires w.s.inflight == 0 && Extra(w.s, k)
    ensures exists q :: q in w.h.tainted && Under(q, k)
  {
    BootedIsSafe(boot);
    RunKeepsConverging(World(boot, NOTHING), es, w);
    assert w.s.queue == [] && w.s.active.None?;
    var q :| q in w.h.removed + w.h.tainted && Under(q, k);
  }

  /** Exact convergence: after a drain without losses, refused removals or
      overtaken removals, OPFS and the memfs hold the same files, and OPFS has no
      directory that the memfs lacks. */
  lemma DrainedEqual(boot: State, es: seq<Event>, w: World, k: Path)
    requires Booted(boot) && Reaches(World(boot, NOTHING), es, w)
    requires w.s.inflight == 0 && w.s.lost == boot.lost && w.h.tainted == {} && !IsConfig(k)
    ensures k in w.s.disk ==> k in w.s.mem
    ensures IsFile(w.s.disk, k) <==> IsFile(w.s.mem, k)
    ensures IsFile(w.s.mem, k) ==> w.s.disk[k] == w.s.mem[k]
  {
    BootedIsSafe(boot);
    RunKeepsConverging(World(boot, NOTHING), es, w);
    if Extra(w.s, k) {
      ExtrasLieBelowTainted(boot, es, w, k);
    }
    RunCountsLosses(World(boot, NOTHING), es, w);
  }

  lemma {:induction false} RunCountsLosses(w: World, es: seq<Event>, w': World)
    requires Safe(w.s, w.h) && Reaches(w, es, w')
    ensures w'.s.lost >= w.s.lost
    ensures w'.s.lost == w.s.lost ==> w'.h.given <= w.h.given
    decreases |es|
  {
    if es != [] {
      var w1 := StepWorld(w, es[0]);
      if es[0].Client? {
        var effect := Apply(w.s.mem, es[0].m);
        MarkAllAccounts(w.s.(mem := effect.tree), effect.marks, es[0].configOk);
      } else if es[0].Resume? && w.s.active.value.path != [] {
        StepAccounts(w.s, w.s.active.value, es[0].io);
      }
      StepKeepsSafe(w, es[0]);
      RunCountsLosses(w1, es[1..], w');
    }
  }

  /** Nothing is created at or below a removal that is still to be mirrored, the
      config pair is not removed, OPFS grants removals, and nothing is given up. */
  ghost predicate Clean(w: World, e: Event)
    requires Enabled(w.s, e)
  {
    match e
    case Client(m, _) =>
      forall q :: q in w.h.removed + RemovalRoots(m, Apply(w.s.mem, m)) ==>
        Bare(After(w.s, e).mem, q) && !IsConfig(q)
    case _ => !LeavesBehind(w.s, e) && After(w.s, e).lost == w.s.lost
  }

  ghost predicate CleanRun(w: World, es: seq<Event>, w': World)
    requires Reaches(w, es, w')
    decreases |es|
  {
    es == [] || (Clean(w, es[0]) && CleanRun(StepWorld(w, es[0]), es[1..], w'))
  }

  lemma CleanStepUntainted(w: World, e: Event)
    requires Safe(w.s, w.h) && Converging(w.s, w.h) && Enabled(w.s, e) && Clean(w, e)
    ensures StepWorld(w, e).h.tainted == w.h.tainted && StepWorld(w, e).s.lost == w.s.lost
  {
    if e.Client? {
      var effect := Apply(w.s.mem, e.m);
      MarkAllAccounts(w.s.(mem := effect.tree), effect.marks, e.configOk);
      assert forall q :: q in RemovalRoots(e.m, effect) ==> q in effect.marks;
    }
  }

  lemma {:induction false} CleanRunUntainted(w: World, es: seq<Event>, w': World)
    requires Safe(w.s, w.h) && Converging(w.s, w.h) && Reaches(w, es, w') && CleanRun(w, es, w')
    ensures w'.h.tainted == w.h.tainted && w'.s.lost == w.s.lost
    decreases |es|
  {
    if es != [] {
      CleanStepUntainted(w, es[0]);
      StepKeepsSafe(w, es[0]);
      StepKeepsConverging(w, es[0]);
      CleanRunUntainted(StepWorld(w, es[0]), es[1..], w');
    }
  }

  /** A clean run that drains leaves OPFS and the memfs with the same files. */
  lemma CleanDrainConverges(boot: State, es: seq<Event>, w: World)
    requires Booted(boot) && Reaches(World(boot, NOTHING), es, w) && CleanRun(World(boot, NOTHING), es, w)
    requires w.s.inflight == 0
    ensures forall k :: !IsConfig(k) ==>
              && (k in w.s.disk ==> k in w.s.mem)
              && (IsFile(w.s.disk, k) <==> IsFile(w.s.mem, k))
              && (IsFile(w.s.mem, k) ==> w.s.disk[k] == w.s.mem[k])
  {
    BootedIsSafe(boot);
    CleanRunUntainted(World(boot, NOTHING), es, w);
    forall k | !IsConfig(k)
      ensures k in w.s.disk ==> k in w.s.mem
      ensures IsFile(w.s.disk, k) <==> IsFile(w.s.mem, k)
      ensures IsFile(w.s.mem, k) ==> w.s.disk[k] == w.s.mem[k]
    {
      DrainedEqual(boot, es, w, k);
    }
  }

  // --- the hypothesis is needed ---

  lemma FourSteps(w: World, e1: Event, e2: Event, e3: Event, e4: Event)
    requires Enabled(w.s, e1) && Enabled(After(w.s, e1), e2) && Enabled(After(After(w.s, e1), e2), e3)
    requires Enabled(After(After(After(w.s, e1), e2), e3), e4)
    ensures exists w' :: Reaches(w, [e1, e2, e3, e4], w') && w'.s == After(After(After(After(w.s, e1), e2), e3), e4)
  {
    var w1 := StepWorld(w, e1);
    var w2 := StepWorld(w1, e2);
    var w3 := StepWorld(w2, e3);
    var w4 := StepWorld(w3, e4);
    assert Reaches(w4, [], w4);
    assert [e4][1..] == [] && Reaches(w3, [e4], w4);
    assert [e3, e4][1..] == [e4] && Reaches(w2, [e3, e4], w4);
    assert [e2, e3, e4][1..] == [e3, e4] && Reaches(w1, [e2, e3, e4], w4);
    assert [e1, e2, e3, e4][1..] == [e2, e3, e4] && Reaches(w, [e1, e2, e3, e4], w4);
  }

  const D: Path := ["d"]
  const X: Path := ["d", "x"]

  function StaleTree(data: Bytes): Tree {
    map[D := Dir, X := File(data)]
  }

  lemma StaleTreeIsTree(data: Bytes)
    ensures DiskTree(StaleTree(data)) && D in Subtree(StaleTree(data), D)
    ensures WithoutSubtree(StaleTree(data), D) == map[]
  {
    var t := StaleTree(data);
    forall p, q | p in t && Under(q, p) && q != [] && q != p ensures q in t && t[q].Dir? {
      assert p == X && |q| == 1 && q == X[..1];
    }
    assert X[..1] == D;
  }

  lemma RemoveThenRecreate(s: State)
    requires s.queue == [] && s.pending == {} && s.active == None && s.inflight == 0
    requires D in Subtree(s.mem, D) && WithoutSubtree(s.mem, D) == map[]
    ensures var e1, e2 := Client(RemoveTree(D), true), Client(CreateDir(D), true);
            && Enabled(s, e1) && Enabled(After(s, e1), e2)
            && After(After(s, e1), e2) == State(map[D := Dir], s.disk, [D], {D}, None, 1, s.lost)
  {
    var e1 := Client(RemoveTree(D), true);
    var bare := s.(mem := map[]);
    MarkOne(bare, D, true);
    var s1 := After(s, e1);
    assert s1 == State(map[], s.disk, [D], {D}, None, 1, s.lost);
    assert Ancestors(D) == {};
    var made := s1.(mem := map[D := Dir]);
    MarkOne(made, D, true);
  }

  lemma FlushRecreated(s: State)
    requires s.queue == [D] && s.pending == {D} && s.active == None && s.inflight == 1
    requires s.mem == map[D := Dir] && D in s.disk && s.disk[D].Dir?
    ensures Enabled(s, Dequeue) && Enabled(After(s, Dequeue), Resume(Granted))
    ensures After(After(s, Dequeue), Resume(Granted)) == s.(queue := [], pending := {}, inflight := 0)
  {
    assert D[..1] == D;
    assert After(s, Dequeue) == s.(queue := [], pending := {}, active := Some(Active(D, 1, Busy(DirSnap, 0))));
  }

  /** Removing a directory and re-creating it before the flusher gets there
      leaves its old file in OPFS: no loss, no refusal, and a reload brings the
      removed file back. */
  lemma RecreatedDirKeepsChildren(data: Bytes)
    ensures exists boot: State, es: seq<Event>, w: World ::
              && Booted(boot) && Reaches(World(boot, NOTHING), es, w)
              && w.s.inflight == 0 && w.s.lost == boot.lost
              && IsFile(w.s.disk, X) && X !in w.s.mem
  {
    var boot := State(StaleTree(data), StaleTree(data), [], {}, None, 0, 0);
    StaleTreeIsTree(data);
    RemoveThenRecreate(boot);
    var e1, e2 := Client(RemoveTree(D), true), Client(CreateDir(D), true);
    FlushRecreated(After(After(boot, e1), e2));
    FourSteps(World(boot, NOTHING), e1, e2, Dequeue, Resume(Granted));
  }
}
