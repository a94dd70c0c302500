/** Why the mirror theorems rule out clobbering renames: one leaves a file without
    its directory, and mirroring the directory's absence takes the file along. */
module MirrorClobber {
  import opened Wrappers
  import opened Paths
  import opened MemFs
  import opened Durability
  import opened Mirror
  import opened MirrorSafety

  const A: Path := ["a"]
  const B: Path := ["a", "b"]
  const BB: Path := ["a", "b", "b"]
  const BBC: Path := ["a", "b", "b", "c"]
  const BBCX: Path := ["a", "b", "b", "c", "x"]
  const BC: Path := ["a", "b", "c"]
  const BCX: Path := ["a", "b", "c", "x"]
  const C: Path := ["a", "c"]

  function Before(data: Bytes): Tree {
    map[A := Dir, B := Dir, BB := Dir, BBC := Dir, BBCX := File(data), BC := Dir]
  }

  /** `/a/b/c` is gone, `/a/b/c/x` is there. */
  function Orphaned(data: Bytes): Tree {
    map[A := Dir, B := Dir, BCX := File(data), C := Dir]
  }

  /** The keys under `/a/b`, in the map's order. */
  const ORDER: seq<Path> := [B, BB, BBC, BBCX, BC]

  lemma KeysAreUnder()
    ensures forall k :: k in [B, BB, BBC, BBCX, BC] ==> Under(B, k)
    ensures !Under(B, A)
    ensures Target(B, B, A) == A && Target(BB, B, A) == B && Target(BBC, B, A) == BC
    ensures Target(BBCX, B, A) == BCX && Target(BC, B, A) == C
  {
  }

  /** The keys move one by one; the second `BC` is the one that `BBC` became. */
  lemma LastMoves(data: Bytes)
    ensures var t: Tree := map[A := Dir, B := Dir, BBCX := File(data), BC := Dir];
            Movable(t, [BBCX, BC], B) && RenameLoop(t, [BBCX, BC], B, A) == Orphaned(data)
  {
    KeysAreUnder();
    var t: Tree := map[A := Dir, B := Dir, BBCX := File(data), BC := Dir];
    assert [BBCX, BC] == [BBCX] + [BC] && [BC] == [BC] + [];
    RenameUnfold(t, BBCX, [BC], B, A);
    var t1: Tree := map[A := Dir, B := Dir, BC := Dir, BCX := File(data)];
    assert (t - {BBCX})[BCX := File(data)] == t1;
    RenameUnfold(t1, BC, [], B, A);
    assert (t1 - {BC})[C := Dir] == Orphaned(data);
  }

  lemma MiddleMoves(data: Bytes)
    ensures var t: Tree := map[A := Dir, B := Dir, BBC := Dir, BBCX := File(data), BC := Dir];
            Movable(t, [BBC, BBCX, BC], B) && RenameLoop(t, [BBC, BBCX, BC], B, A) == Orphaned(data)
  {
    KeysAreUnder();
    LastMoves(data);
    var t: Tree := map[A := Dir, B := Dir, BBC := Dir, BBCX := File(data), BC := Dir];
    assert [BBC, BBCX, BC] == [BBC] + [BBCX, BC];
    RenameUnfold(t, BBC, [BBCX, BC], B, A);
    assert (t - {BBC})[BC := Dir] == map[A := Dir, B := Dir, BBCX := File(data), BC := Dir];
  }

  lemma SecondMoves(data: Bytes)
    ensures var t: Tree := map[A := Dir, BB := Dir, BBC := Dir, BBCX := File(data), BC := Dir];
            Movable(t, [BB, BBC, BBCX, BC], B) && RenameLoop(t, [BB, BBC, BBCX, BC], B, A) == Orphaned(data)
  {
    KeysAreUnder();
    MiddleMoves(data);
    var t: Tree := map[A := Dir, BB := Dir, BBC := Dir, BBCX := File(data), BC := Dir];
    assert [BB, BBC, BBCX, BC] == [BB] + [BBC, BBCX, BC];
    RenameUnfold(t, BB, [BBC, BBCX, BC], B, A);
    assert (t - {BB})[B := Dir] == map[A := Dir, B := Dir, BBC := Dir, BBCX := File(data), BC := Dir];
  }

  lemma FirstMoves(data: Bytes)
    ensures Movable(Before(data), ORDER, B) && RenameLoop(Before(data), ORDER, B, A) == Orphaned(data)
  {
    KeysAreUnder();
    SecondMoves(data);
    assert ORDER == [B] + [BB, BBC, BBCX, BC];
    RenameUnfold(Before(data), B, [BB, BBC, BBCX, BC], B, A);
    assert (Before(data) - {B})[A := Dir] == map[A := Dir, BB := Dir, BBC := Dir, BBCX := File(data), BC := Dir];
  }

  lemma RenameOrphans(data: Bytes)
    ensures Enumerates(ORDER, Before(data), B) && RenameLoop(Before(data), ORDER, B, A) == Orphaned(data)
  {
    FirstMoves(data);
    KeysAreUnder();
  }

  // --- the flusher, everything granted ---

  ghost predicate Leads(s: State, s': State) {
    exists es :: Plays(s, es, s')
  }

  lemma LeadsThen(s: State, s': State, e: Event) returns (s'': State)
    requires Leads(s, s') && Enabled(s', e)
    ensures s'' == After(s', e) && Leads(s, s'')
  {
    var es :| Plays(s, es, s');
    PlaysThen(s, es, s', e);
    s'' := After(s', e);
  }

  /** A directory on the way is there already. */
  lemma DirPassed(s: State, a: Active)
    requires s.active == Some(a) && a.phase.Busy? && !a.phase.snap.DirSnap? && a.phase.done < |a.path| - 1
    requires a.path[..a.phase.done + 1] in s.disk && s.disk[a.path[..a.phase.done + 1]].Dir?
    ensures Enabled(s, Resume(Granted)) && After(s, Resume(Granted)) == Advance(s, a)
  {
  }

  ghost predicate Next(s: State, p: Path) {
    s.active.None? && s.queue != [] && s.queue[0] == p && !IsConfig(p) && p != []
  }

  /** The next path is a file, and OPFS has a file there: it is overwritten. */
  lemma FileFlushed(start: State, s: State, data: Bytes) returns (s': State)
    requires Leads(start, s) && Next(s, BCX) && BCX in s.mem && s.mem[BCX] == File(data) && IsFile(s.disk, BCX)
    requires forall d :: d in {A, B, BC} ==> d in s.disk && s.disk[d].Dir?
    ensures Leads(start, s')
    ensures s' == s.(queue := s.queue[1..], pending := s.pending - {BCX}, disk := s.disk[BCX := File(data)],
                     inflight := s.inflight - 1)
  {
    assert BCX[..1] == A && BCX[..2] == B && BCX[..3] == BC;
    s' := LeadsThen(start, s, Dequeue);
    var a := Active(BCX, 1, Busy(FileSnap(data), 0));
    assert s'.active == Some(a);
    DirPassed(s', a);
    s' := LeadsThen(start, s', Resume(Granted));
    DirPassed(s', s'.active.value);
    s' := LeadsThen(start, s', Resume(Granted));
    DirPassed(s', s'.active.value);
    s' := LeadsThen(start, s', Resume(Granted));
    s' := LeadsThen(start, s', Resume(Granted));
    s' := LeadsThen(start, s', Resume(Granted));
  }

  /** The next path is gone from the tree: OPFS loses it with everything below. */
  lemma AbsenceFlushed(start: State, s: State) returns (s': State)
    requires Leads(start, s) && Next(s, BC) && BC !in s.mem
    requires forall d :: d in {A, B} ==> d in s.disk && s.disk[d].Dir?
    ensures Leads(start, s') && BCX !in s'.disk
    ensures s'.mem == s.mem && s'.pending == s.pending - {BC} && s'.active.None? && s'.lost == s.lost
  {
    assert BC[..1] == A && BC[..2] == B;
    s' := LeadsThen(start, s, Dequeue);
    var a := Active(BC, 1, Busy(Missing, 0));
    assert s'.active == Some(a);
    DirPassed(s', a);
    s' := LeadsThen(start, s', Resume(Granted));
    DirPassed(s', s'.active.value);
    s' := LeadsThen(start, s', Resume(Granted));
    s' := LeadsThen(start, s', Resume(Granted));
    assert Under(BC, BC) && Under(BC, BCX);
    assert BC in set g | g in {BC} && Under(BC, g);
  }

  // --- the run ---

  /** OPFS at boot: the file was there too, with other bytes. */
  function Disk(data: Bytes, old_: Bytes): Tree {
    Before(data)[BCX := File(old_)]
  }

  lemma Prefixes(p: Path, n: nat)
    requires p in Disk([], []) && 0 < n < |p|
    ensures p[..n] in {A, B, BB, BBC, BC}
  {
    assert BBCX[..1] == BBC[..1] == BB[..1] == BCX[..1] == BC[..1] == B[..1] == A;
    assert BBCX[..2] == BBC[..2] == BB[..2] == BCX[..2] == BC[..2] == B;
    assert BBCX[..3] == BBC[..3] == BB && BCX[..3] == BC && BBCX[..4] == BBC;
  }

  lemma DiskIsTree(data: Bytes, old_: Bytes)
    ensures DiskTree(Disk(data, old_))
  {
    var t := Disk(data, old_);
    forall p, q | p in t && Under(q, p) && q != [] && q != p ensures q in t && t[q].Dir? {
      assert q == p[..|q|];
      Prefixes(p, |q|);
    }
  }

  function Booting(data: Bytes, old_: Bytes): State {
    State(Disk(data, old_), Disk(data, old_), [], {}, None, 0, 0)
  }

  lemma OnlyItself(data: Bytes, old_: Bytes)
    ensures Subtree(Disk(data, old_), BCX) <= {BCX}
  {
    assert BBCX[..4] == BBC != BCX;
  }

  lemma ParentsThere()
    ensures Ancestors(BC) <= {A, B}
  {
    forall q | q in Ancestors(BC) ensures q in {A, B} {
      AncestorsUnder(BC, q);
      assert q == BC[..|q|] && BC[..1] == A && BC[..2] == B;
    }
  }

  /** The file is removed: queued. */
  lemma OneQueued(data: Bytes, old_: Bytes)
    ensures var boot := Booting(data, old_);
            Leads(boot, State(Before(data), boot.disk, [BCX], {BCX}, None, 1, 0))
  {
    var boot := Booting(data, old_);
    assert Plays(boot, [], boot);
    OnlyItself(data, old_);
    MarkOne(boot.(mem := Before(data)), BCX, true);
    assert boot.mem - {BCX} == Before(data);
    var s1 := LeadsThen(boot, boot, Client(RemoveNode(BCX), true));
    assert s1 == State(Before(data), boot.disk, [BCX], {BCX}, None, 1, 0);
  }

  /** Its directory is created again: queued behind it. */
  lemma TwoQueued(data: Bytes, old_: Bytes)
    ensures var boot := Booting(data, old_);
            Leads(boot, State(Before(data), boot.disk, [BCX, BC], {BCX, BC}, None, 2, 0))
  {
    var boot := Booting(data, old_);
    var s1 := State(Before(data), boot.disk, [BCX], {BCX}, None, 1, 0);
    OneQueued(data, old_);
    ParentsThere();
    MarkOne(s1, BC, true);
    assert Before(data)[BC := Dir] == Before(data);
    var s2 := LeadsThen(boot, s1, Client(CreateDir(BC), true));
    assert s2 == State(Before(data), boot.disk, [BCX, BC], {BCX, BC}, None, 2, 0);
  }

  /** What `Legal` asks of a rename but for `NoClobber`. */
  ghost predicate LegalButClobbers(t: Tree, from: Path, to: Path, order: seq<Path>) {
    && Enumerates(order, t, from) && Ancestors(to) <= t.Keys && (Under(from, to) ==> from == to)
    && !NoClobber(order, from, to)
  }

  lemma RenameIsSuch(data: Bytes)
    ensures LegalButClobbers(Before(data), B, A, ORDER)
  {
    RenameOrphans(data);
    KeysAreUnder();
    assert Target(ORDER[2], B, A) == ORDER[4];
    assert Ancestors(A) == {};
  }

  /** The flusher works off the two paths that were queued before the rename. */
  lemma OrphanFlushed(data: Bytes, old_: Bytes, start: State, s: State) returns (s': State)
    requires Leads(start, s) && s.mem == Orphaned(data) && s.disk == Disk(data, old_) && s.active.None? && s.lost == 0
    requires |s.queue| >= 2 && s.queue[..2] == [BCX, BC]
    ensures Leads(start, s')
    ensures IsFile(s'.mem, BCX) && BCX !in s'.disk && !Outstanding(s', BCX) && s'.lost == 0
  {
    assert s.queue[0] == s.queue[..2][0] && s.queue[1] == s.queue[..2][1];
    var s1 := FileFlushed(start, s, data);
    assert s1.queue[0] == s.queue[1];
    s' := AbsenceFlushed(start, s1);
  }

  /** The rename of `/a/b` onto `/a` clobbers `/a/b/c`; the queue goes on as it
      was, and once it is worked off `/a/b/c/x` is a file of the tree that OPFS
      does not have, that is not queued, and that was never given up. */
  lemma ClobberBreaksInclusion(data: Bytes, old_: Bytes)
    ensures Booted(Booting(data, old_))
    ensures exists s: State, s': State ::
              && Leads(Booting(data, old_), s) && LegalButClobbers(s.mem, B, A, ORDER)
              && Leads(Mutated(s, MemFs.Rename(B, A, ORDER), true), s')
              && IsFile(s'.mem, BCX) && BCX !in s'.disk && !Outstanding(s', BCX) && s'.lost == 0
  {
    DiskIsTree(data, old_);
    TwoQueued(data, old_);
    RenameOrphans(data);
    RenameIsSuch(data);
    var s := State(Before(data), Disk(data, old_), [BCX, BC], {BCX, BC}, None, 2, 0);
    var effect := Apply(s.mem, MemFs.Rename(B, A, ORDER));
    var s1 := Mutated(s, MemFs.Rename(B, A, ORDER), true);
    MarkAllAccounts(s.(mem := effect.tree), effect.marks, true);
    assert s.queue <= s1.queue && s1.queue[..2] == s.queue;
    assert Plays(s1, [], s1);
    var s2 := OrphanFlushed(data, old_, s1, s1);
  }
}
