/** What one answer of OPFS does to the write-through it was awaited by: to the
    mirror, to the attempt, to the counters (`opfs.rs`, `durability.rs`). */
module MirrorProgress {
  import opened Wrappers
  import opened Paths
  import opened MemFs
  import opened Mirror

  function At(t: Tree, k: Path): Option<Node> {
    if k in t then Some(t[k]) else None
  }

  predicate IsDirAt(t: Tree, k: Path) {
    k in t && t[k].Dir?
  }

  predicate IsFileAt(t: Tree, k: Path) {
    k in t && t[k].File?
  }

  /** The next handle the attempt asks for. */
  function Asked(a: Active): Path
    requires a.phase.Busy?
  {
    if a.phase.done < |a.path| then a.path[..a.phase.done + 1] else a.path
  }

  predicate Working(s: State, a: Active) {
    s.active == Some(a) && PhaseIs(a) && a.path != [] && !a.phase.Asleep?
  }

  predicate PhaseIs(a: Active) {
    && 1 <= a.attempt <= 4
    && (a.phase.Busy? ==> if a.phase.snap.FileSnap? then a.phase.done <= |a.path| else a.phase.done < |a.path|)
  }

  /** The answers that make the attempt fail; a removal never fails. */
  predicate Fails(disk: Tree, a: Active, io: Io) {
    match a.phase
    case Asleep => false
    case Config => io != Granted
    case Busy(Missing, _) => false
    case Busy(FileSnap(_), n) =>
      || io != Granted
      || (n < |a.path| - 1 && IsFileAt(disk, Asked(a))) || (n == |a.path| - 1 && IsDirAt(disk, Asked(a)))
    case Busy(DirSnap, _) => io != Granted || IsFileAt(disk, Asked(a))
  }

  /** The answer that completes the attempt: the last one, or, on the way to a
      removal, one that finds the path gone already. */
  predicate Completes(disk: Tree, a: Active, io: Io) {
    match a.phase
    case Asleep => false
    case Config => true
    case Busy(FileSnap(_), n) => n == |a.path|
    case Busy(DirSnap, n) => n == |a.path| - 1
    case Busy(Missing, n) => n == |a.path| - 1 || io != Granted || !IsDirAt(disk, Asked(a))
  }

  /** The attempt failed: the path sleeps until its next one, or after the fourth is
      given up and counted as lost. */
  ghost predicate Failed(s: State, a: Active, r: State) {
    if a.attempt < 4 then r.active == Some(a.(phase := Asleep)) && r.inflight == s.inflight && r.lost == s.lost
    else r.active == None && r.inflight == s.inflight - 1 && r.lost == s.lost + 1
  }

  ghost predicate Succeeded(s: State, r: State) {
    r.active == None && r.inflight == s.inflight - 1 && r.lost == s.lost
  }

  ghost predicate Continued(s: State, a: Active, r: State)
    requires a.phase.Busy?
  {
    && r.active == Some(a.(phase := Busy(a.phase.snap, a.phase.done + 1)))
    && r.inflight == s.inflight && r.lost == s.lost
  }

  /** A write that stopped after `n` bytes: those are new, the others as they were. */
  ghost predicate TornOver(data: Bytes, prior: Bytes, n: nat, now: Bytes) {
    var done := if n <= |data| then n else |data|;
    && |now| == (if done <= |prior| then |prior| else done)
    && forall i :: 0 <= i < |now| ==> now[i] == if i < done then data[i] else prior[i]
  }

  /** What the answer leaves of the mirror, path by path. */
  ghost predicate Leaves(disk: Tree, a: Active, io: Io, r: Tree) {
    match a.phase
    case Busy(FileSnap(data), n) =>
      if n < |a.path| then
        forall k :: At(r, k) ==
                    if k == Asked(a) && k !in disk && io == Granted then Some(if n == |a.path| - 1 then File([]) else Dir)
                    else At(disk, k)
      else
        && (forall k :: k != a.path ==> At(r, k) == At(disk, k))
        && (match io
            case Granted => At(r, a.path) == Some(File(data))
            case Unflushed => At(r, a.path) == Some(File(data))
            case Torn(m) => IsFileAt(r, a.path) && TornOver(data, if IsFileAt(disk, a.path) then disk[a.path].data else [], m, r[a.path].data)
            case _ => At(r, a.path) == At(disk, a.path))
    case Busy(DirSnap, _) =>
      forall k :: At(r, k) == if k == Asked(a) && k !in disk && io == Granted then Some(Dir) else At(disk, k)
    case Busy(Missing, n) =>
      forall k :: At(r, k) == if n == |a.path| - 1 && Taken(a.path, io, k) then None else At(disk, k)
    case _ => r == disk
  }

  /** The removal of `p` took `k`. */
  ghost predicate Taken(p: Path, io: Io, k: Path) {
    match io
    case Granted => Under(p, k)
    case Removed(gone) => exists g :: g in gone && Under(p, g) && Under(g, k)
    case _ => false
  }

  ghost predicate AttemptMeans(s: State, a: Active, io: Io, r: State) {
    && r.mem == s.mem && r.queue == s.queue && r.pending == s.pending
    && Leaves(s.disk, a, io, r.disk)
    && (if Fails(s.disk, a, io) then Failed(s, a, r)
        else if Completes(s.disk, a, io) then Succeeded(s, r)
        else a.phase.Busy? && Continued(s, a, r))
  }

  lemma MakeDirMeans(s: State, a: Active, io: Io)
    requires Working(s, a) && a.phase.Busy? && !a.phase.snap.Missing?
    requires a.phase.done < if a.phase.snap.FileSnap? then |a.path| - 1 else |a.path|
    ensures AttemptMeans(s, a, io, MakeDir(s, a, io))
  {
  }

  lemma TornIs(data: Bytes, prior: Bytes, n: nat)
    ensures TornOver(data, prior, n, SyncAccess.Torn(data, prior, n))
  {
  }

  lemma StoreMeans(s: State, a: Active, io: Io)
    requires Working(s, a) && a.phase.Busy? && a.phase.snap.FileSnap? && a.phase.done == |a.path|
    ensures AttemptMeans(s, a, io, StoreFile(s, a, io))
  {
    if io.Torn? {
      TornIs(a.phase.snap.data, OnDisk(s.disk, a.path), io.written);
    }
  }

  /** The file's own handle. */
  lemma OpenMeans(s: State, a: Active, io: Io)
    requires Working(s, a) && a.phase.Busy? && a.phase.snap.FileSnap? && a.phase.done == |a.path| - 1
    ensures AttemptMeans(s, a, io, Step(s, a, io))
  {
    assert a.path[..|a.path|] == a.path;
  }

  lemma RemoveMeans(s: State, a: Active, io: Io)
    requires Working(s, a) && a.phase.Busy? && a.phase.snap.Missing?
    ensures AttemptMeans(s, a, io, Step(s, a, io))
  {
    if a.phase.done == |a.path| - 1 {
      var r := Step(s, a, io);
      forall k ensures At(r.disk, k) == if Taken(a.path, io, k) then None else At(s.disk, k) {
      }
    }
  }

  /** What each answer does: whether the attempt fails, ends or goes on, what failing
      costs, and what is in the mirror then. */
  lemma AttemptExactly(s: State, a: Active, io: Io)
    requires Working(s, a)
    ensures AttemptMeans(s, a, io, Step(s, a, io))
  {
    match a.phase
    case Config =>
    case Busy(Missing, _) => RemoveMeans(s, a, io);
    case Busy(DirSnap, _) => MakeDirMeans(s, a, io);
    case Busy(FileSnap(_), n) =>
      if n < |a.path| - 1 {
        MakeDirMeans(s, a, io);
      } else if n == |a.path| {
        StoreMeans(s, a, io);
      } else {
        OpenMeans(s, a, io);
      }
  }

  // --- a granting platform ---

  /** Nothing of the other kind is in the way in the mirror. */
  predicate NoConflict(disk: Tree, p: Path, snap: Snapshot) {
    match snap
    case FileSnap(_) => (forall n :: 0 < n < |p| ==> !IsFileAt(disk, p[..n])) && !IsDirAt(disk, p)
    case DirSnap => forall n :: 0 < n <= |p| ==> !IsFileAt(disk, p[..n])
    case Missing => true
  }

  /** A platform that grants everything, and a mirror without such conflicts: no
      attempt ever fails, so nothing is lost. */
  lemma GrantedNeverFails(s: State, a: Active)
    requires Working(s, a) && (a.phase.Busy? ==> NoConflict(s.disk, a.path, a.phase.snap))
    ensures var r := Step(s, a, Granted);
            && r.lost == s.lost
            && (Succeeded(s, r) || (a.phase.Busy? && Continued(s, a, r) && NoConflict(r.disk, a.path, a.phase.snap)))
  {
    AttemptExactly(s, a, Granted);
    var r := Step(s, a, Granted);
    if a.phase.Busy? && Continued(s, a, r) {
      forall n | 0 < n <= |a.path| && (a.phase.snap.FileSnap? ==> n < |a.path|)
        ensures IsFileAt(r.disk, a.path[..n]) ==> IsFileAt(s.disk, a.path[..n]) || a.phase.snap.Missing?
      {
        assert At(r.disk, a.path[..n]) == At(s.disk, a.path[..n]) || a.path[..n] == Asked(a);
      }
      assert At(r.disk, a.path) == At(s.disk, a.path) || a.path == Asked(a);
    }
  }

  // --- taking a path up ---

  ghost predicate SnapshotIs(mem: Tree, p: Path, snap: Snapshot) {
    match snap
    case FileSnap(data) => At(mem, p) == Some(File(data))
    case DirSnap => IsDirAt(mem, p)
    case Missing => At(mem, p) == None
  }

  /** The path's attempt begins with what the tree holds of it now. */
  ghost predicate Begun(s: State, p: Path, attempt: nat, r: State) {
    && r.mem == s.mem && r.disk == s.disk
    && (p != [] ==>
          && r.active.Some? && r.active.value.path == p && r.active.value.attempt == attempt
          && r.inflight == s.inflight && r.lost == s.lost
          && if IsConfig(p) then r.active.value.phase.Config?
             else r.active.value.phase.Busy? && r.active.value.phase.done == 0 && SnapshotIs(s.mem, p, r.active.value.phase.snap))
  }

  /** The oldest path is taken first; a path that slept is tried once more, with what
      the tree holds by then. */
  lemma TakesOldest(s: State)
    requires s.queue != []
    ensures var r := Dequeued(s);
            Begun(s, s.queue[0], 1, r) && r.queue == s.queue[1..] && r.pending == s.pending - {s.queue[0]}
  {
  }

  lemma WakesAgain(s: State)
    requires s.active.Some? && s.active.value.phase.Asleep?
    ensures var r := After(s, Wake);
            Begun(s, s.active.value.path, s.active.value.attempt + 1, r) && r.queue == s.queue && r.pending == s.pending
  {
  }

  /** What a mutation queues: each path it marks that is not queued already, but for
      the account list when the held handles took it. */
  lemma {:induction false} MarkedExactly(s: State, ps: seq<Path>, configOk: bool, p: Path)
    requires Accounted(s)
    ensures p in MarkAll(s, ps, configOk).queue <==>
              p in s.queue || (p in ps && !(p == ["accounts", "accounts.toml"] && configOk))
    decreases |ps|
  {
    if ps != [] {
      var s1 := MarkDirty(s, ps[0], configOk);
      MarkOne(s, ps[0], configOk);
      MarkAllAccounts(s, [ps[0]], configOk);
      MarkedExactly(s1, ps[1..], configOk, p);
      assert ps == [ps[0]] + ps[1..];
    }
  }
}
