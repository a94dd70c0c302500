/** The worker's file store as the code has it: globals updated in place
    (`fs.rs`, `opfs.rs`).  Every method is proved against `Mirror`. */
module Store {
  import opened Wrappers
  import opened Paths
  import opened MemFs
  import opened Durability
  import opened Mirror
  import opened MirrorSafety
  import opened Hydration
  import opened TreeLaws
  import SyncAccess

  ghost function Prefixes(p: Path, lo: nat, hi: nat): set<Path>
    requires hi <= |p| + 1
  {
    set i | lo <= i < hi :: p[..i]
  }

  lemma PrefixesGrow(p: Path, lo: nat, hi: nat)
    requires lo < hi <= |p| + 1
    ensures Prefixes(p, lo, hi) == Prefixes(p, lo + 1, hi) + {p[..lo]}
    ensures Prefixes(p, lo, hi) == Prefixes(p, lo, hi - 1) + {p[..hi - 1]}
  {
  }

  lemma PrefixesAll(p: Path)
    ensures Prefixes(p, 1, |p| + 1) == Ancestors(p) + if p == [] then {} else {p}
  {
    if p != [] {
      PrefixesGrow(p, 1, |p| + 1);
      assert p[..|p|] == p;
    }
  }

  lemma WithDirsAdd(t: Tree, dirs: set<Path>, d: Path)
    ensures var r := WithDirs(t, dirs); WithDirs(t, dirs + {d}) == if d in r then r else r[d := Dir]
  {
  }

  /** What a successful attempt leaves in OPFS. */
  ghost predicate Mirrors(t: Tree, r: Tree, path: Path, snap: Snapshot) {
    match snap
    case FileSnap(data) => Written(t, r, path, data)
    case DirSnap => Walked(t, r, path, |path|)
    case Missing => OnlyBelowGone(t, r, path)
  }

  class Worker {
    var mem: Tree
    var disk: Tree
    var queue: seq<Path>
    var pending: set<Path>
    var inflight: int
    var lost: nat
    /** Where the flusher's control is. */
    ghost var working: Option<Active>

    ghost function St(): State
      reads this
    {
      State(mem, disk, queue, pending, working, inflight, lost)
    }

    // --- fs.rs ---

    method Mark(p: Path, configOk: bool)
      modifies this`queue, this`pending, this`inflight
      ensures St() == MarkDirty(old(St()), p, configOk)
      ensures queue == (if p in old(pending) || (p == ACCOUNTS_TOML && configOk) then old(queue) else old(queue) + [p])
    {
      if p == ACCOUNTS_TOML && configOk {
        return;
      }
      if p !in pending {
        pending := pending + {p};
        inflight := inflight + 1;
        queue := queue + [p];
      }
    }

    method OrInsertDir(d: Path)
      modifies this`mem
      ensures mem == if d in old(mem) then old(mem) else old(mem)[d := Dir]
    {
      if d !in mem {
        mem := mem[d := Dir];
      }
    }

    /** `entry(..).or_insert(Dir)` for every proper ancestor, innermost first. */
    method CreateParents(p: Path)
      modifies this`mem
      ensures mem == WithDirs(old(mem), Ancestors(p))
    {
      var parent := p;
      while |parent| > 1
        invariant |parent| <= |p| && parent == p[..|parent|] && (parent == [] ==> p == [])
        invariant mem == WithDirs(old(mem), Prefixes(p, |parent|, |p|))
      {
        PrefixesGrow(p, |parent| - 1, |p|);
        WithDirsAdd(old(mem), Prefixes(p, |parent|, |p|), p[..|parent| - 1]);
        parent := parent[..|parent| - 1];
        OrInsertDir(parent);
      }
      assert Prefixes(p, |parent|, |p|) == Ancestors(p);
    }

    method WriteSync(p: Path, contents: Bytes, configOk: bool)
      modifies this
      ensures St() == Mutated(old(St()), Write(p, contents), configOk)
      ensures Written(old(mem), mem, p, contents)
    {
      ApplyMeans(mem, Write(p, contents));
      CreateParents(p);
      mem := mem[p := File(contents)];
      MarkOne(St(), p, configOk);
      Mark(p, configOk);
    }

    method CreateDirectory(p: Path, configOk: bool)
      modifies this
      ensures St() == Mutated(old(St()), CreateDir(p), configOk)
      ensures DirMade(old(mem), mem, p)
    {
      ApplyMeans(mem, CreateDir(p));
      mem := mem[p := Dir];
      MarkOne(St(), p, configOk);
      Mark(p, configOk);
    }

    method CreatePrefixes(p: Path)
      modifies this`mem
      ensures mem == WithDirs(old(mem), Prefixes(p, 1, |p| + 1))
    {
      var current: Path := [];
      for i := 0 to |p|
        invariant current == p[..i]
        invariant mem == WithDirs(old(mem), Prefixes(p, 1, i + 1))
      {
        PrefixesGrow(p, 1, i + 2);
        WithDirsAdd(old(mem), Prefixes(p, 1, i + 1), p[..i + 1]);
        current := current + [p[i]];
        assert current == p[..i + 1];
        OrInsertDir(current);
      }
    }

    method SyncCreateDirAll(p: Path, configOk: bool)
      modifies this
      ensures St() == Mutated(old(St()), CreateDirAll(p), configOk)
      ensures AllDirsMade(old(mem), mem, p)
    {
      ApplyMeans(mem, CreateDirAll(p));
      CreatePrefixes(p);
      PrefixesAll(p);
      MarkOne(St(), p, configOk);
      Mark(p, configOk);
    }

    /** The keys of a subtree, in the order the map hands them out. */
    method KeysUnder(root: Path) returns (keys: seq<Path>)
      ensures Enumerates(keys, mem, root)
      ensures keys == [] <==> Subtree(mem, root) == {}
    {
      keys := [];
      var left := Subtree(mem, root);
      while left != {}
        invariant Movable(mem, keys, root)
        invariant left <= Subtree(mem, root)
        invariant forall k :: k in Subtree(mem, root) <==> k in left || k in keys
        invariant forall k :: k in keys ==> k !in left
        decreases left
      {
        var k :| k in left;
        keys := keys + [k];
        left := left - {k};
      }
      assert keys != [] ==> keys[0] in Subtree(mem, root);
    }

    method SyncRemove(p: Path, configOk: bool) returns (error: set<FsError>)
      modifies this
      ensures St() == Mutated(old(St()), RemoveTree(p), configOk)
      ensures Means(old(mem), RemoveTree(p), mem, error)
    {
      ApplyMeans(mem, RemoveTree(p));
      var keys := KeysUnder(p);
      if keys == [] {
        return {NotFound};
      }
      for i := 0 to |keys|
        invariant mem == old(mem) - set k | k in keys[..i]
        modifies this`mem
      {
        assert keys[..i + 1] == keys[..i] + [keys[i]];
        mem := mem - {keys[i]};
      }
      assert keys[..|keys|] == keys;
      assert mem == WithoutSubtree(old(mem), p);
      MarkOne(St(), p, configOk);
      Mark(p, configOk);
      return {};
    }

    method RemoveFile(p: Path, configOk: bool) returns (error: set<FsError>)
      modifies this
      ensures St() == Mutated(old(St()), RemoveNode(p), configOk)
      ensures Means(old(mem), RemoveNode(p), mem, error)
    {
      ApplyMeans(mem, RemoveNode(p));
      if p !in mem {
        return {NotFound};
      }
      mem := mem - {p};
      MarkOne(St(), p, configOk);
      Mark(p, configOk);
      return {};
    }

    /** Each key removed and put under its new name, in the order of `keys`. */
    method MoveEach(keys: seq<Path>, from: Path, to: Path) returns (moved: seq<Path>)
      requires Movable(mem, keys, from)
      modifies this`mem
      ensures mem == RenameLoop(old(mem), keys, from, to) && moved == Targets(keys, from, to)
    {
      moved := [];
      for i := 0 to |keys|
        invariant Movable(mem, keys[i..], from)
        invariant RenameLoop(mem, keys[i..], from, to) == RenameLoop(old(mem), keys, from, to)
        invariant moved == Targets(keys, from, to)[..i]
      {
        assert keys[i..] == [keys[i]] + keys[i + 1..];
        RenameUnfold(mem, keys[i], keys[i + 1..], from, to);
        var node := mem[keys[i]];
        var target := Target(keys[i], from, to);
        mem := (mem - {keys[i]})[target := node];
        moved := moved + [target];
      }
      assert keys[|keys|..] == [];
      assert moved == Targets(keys, from, to);
    }

    method MarkEach(moved: seq<Path>, configOk: bool)
      modifies this`queue, this`pending, this`inflight
      ensures St() == MarkAll(old(St()), moved, configOk)
    {
      for i := 0 to |moved|
        invariant MarkAll(St(), moved[i..], configOk) == MarkAll(old(St()), moved, configOk)
      {
        assert moved[i..][0] == moved[i] && moved[i..][1..] == moved[i + 1..];
        Mark(moved[i], configOk);
      }
      assert moved[|moved|..] == [];
    }

    method SyncRename(from: Path, to: Path, configOk: bool) returns (error: set<FsError>, ghost order: seq<Path>)
      modifies this
      ensures Enumerates(order, old(mem), from)
      ensures St() == Mutated(old(St()), Rename(from, to, order), configOk)
      ensures Means(old(mem), Rename(from, to, order), mem, error)
    {
      var keys := KeysUnder(from);
      order := keys;
      ApplyMeans(mem, Rename(from, to, order));
      if keys == [] {
        return {NotFound}, keys;
      }
      var moved := MoveEach(keys, from, to);
      ghost var marks := [from] + moved;
      assert marks[0] == from && marks[1..] == moved;
      Mark(from, configOk);
      MarkEach(moved, configOk);
      return {}, keys;
    }

    method SetLength(p: Path, size: nat, configOk: bool) returns (error: set<FsError>)
      modifies this
      ensures St() == Mutated(old(St()), SetLen(p, size), configOk)
      ensures Means(old(mem), SetLen(p, size), mem, error)
    {
      ApplyMeans(mem, SetLen(p, size));
      if size > MAX_FILE_LEN {
        return {TooLong};
      }
      if !IsFile(mem, p) {
        return {NotFound};
      }
      mem := mem[p := File(Resized(mem[p].data, size))];
      MarkOne(St(), p, configOk);
      Mark(p, configOk);
      return {};
    }

    /** `AsyncWrite::poll_write` of a handle on `p` at position `pos`. */
    method PollWrite(p: Path, pos: nat, buf: Bytes, configOk: bool) returns (error: set<FsError>, pos': nat)
      requires pos <= U64_MAX && |buf| <= U64_MAX
      modifies this
      ensures St() == Mutated(old(St()), WriteAt(p, pos, buf), configOk)
      ensures Means(old(mem), WriteAt(p, pos, buf), mem, error)
      ensures pos' == if error == {} then pos + |buf| else pos
    {
      ApplyMeans(mem, WriteAt(p, pos, buf));
      if !IsFile(mem, p) {
        return {NotFound}, pos;
      }
      var end := SaturatingAdd(pos, |buf|);
      if end > MAX_FILE_LEN {
        return {TooLong}, pos;
      }
      var data := mem[p].data;
      if |data| < end {
        data := Resized(data, end);
      }
      mem := mem[p := File(data[..end - |buf|] + buf + data[end..])];
      MarkOne(St(), p, configOk);
      Mark(p, configOk);
      return {}, pos + |buf|;
    }

    // --- opfs.rs ---

    /** One `getDirectoryHandle(create)`. */
    method EnsureDir(path: Path, attempt: nat, snap: Snapshot, n: nat, io: Io, ghost from: State, ghost done: seq<Event>)
      returns (ok: bool)
      requires path != [] && !snap.Missing? && n < if snap.DirSnap? then |path| else |path| - 1
      requires working == Some(Active(path, attempt, Busy(snap, n))) && Plays(from, done, St())
      modifies this`disk, this`working
      ensures !ok || (snap.DirSnap? && n + 1 == |path|) ==>
                Plays(from, done + [Resume(io)], Finish(St(), Active(path, attempt, Asleep), ok))
      ensures ok && !(snap.DirSnap? && n + 1 == |path|) ==>
                Plays(from, done + [Resume(io)], St()) && working == Some(Active(path, attempt, Busy(snap, n + 1)))
      ensures ok <==> io == Granted && !IsFile(old(disk), path[..n + 1])
      ensures if ok && path[..n + 1] !in old(disk) then DirMade(old(disk), disk, path[..n + 1]) else disk == old(disk)
    {
      PlaysThen(from, done, St(), Resume(io));
      var d := path[..n + 1];
      if io != Granted || IsFile(disk, d) {
        return false;
      }
      if d !in disk {
        disk := disk[d := Dir];
      }
      working := Some(Active(path, attempt, Busy(snap, n + 1)));
      return true;
    }

    /** `ensure_dirs` on the first `count` names of the path being mirrored. */
    method EnsureDirs(path: Path, attempt: nat, snap: Snapshot, count: nat, answers: nat -> Io, k0: nat, ghost from: State)
      returns (ok: bool, k: nat, ghost more: seq<Event>)
      requires path != [] && !snap.Missing?
      requires count == if snap.DirSnap? then |path| else |path| - 1
      requires working == Some(Active(path, attempt, Busy(snap, 0))) && from == St()
      modifies this`disk, this`working
      ensures forall e :: e in more ==> e.Resume?
      ensures !ok || snap.DirSnap? ==> Plays(from, more, Finish(St(), Active(path, attempt, Asleep), ok))
      ensures ok && snap.FileSnap? ==>
                Plays(from, more, St()) && working == Some(Active(path, attempt, Busy(snap, count)))
      ensures OnlyDirsAdded(old(disk), disk, path) && (ok ==> Walked(old(disk), disk, path, count))
    {
      k, more := k0, [];
      for n := 0 to count
        invariant Walked(old(disk), disk, path, n)
        invariant forall e :: e in more ==> e.Resume?
        invariant snap.DirSnap? && n == |path| ==> Plays(from, more, Finish(St(), Active(path, attempt, Asleep), true))
        invariant !(snap.DirSnap? && n == |path|) ==>
            Plays(from, more, St()) && working == Some(Active(path, attempt, Busy(snap, n)))
      {
        ghost var before := disk;
        WalkedIsAdded(old(disk), disk, path, n);
        ok := EnsureDir(path, attempt, snap, n, answers(k), from, more);
        if ok {
          WalkOn(old(disk), before, disk, path, n);
        }
        k, more := k + 1, more + [Resume(answers(k))];
        if !ok {
          return;
        }
      }
      WalkedIsAdded(old(disk), disk, path, count);
      ok := true;
    }

    /** getFileHandle(create): materializes an empty file. */
    method OpenFile(path: Path, attempt: nat, data: Bytes, io: Io, ghost from: State, ghost done: seq<Event>)
      returns (ok: bool)
      requires path != [] && Plays(from, done, St())
      requires working == Some(Active(path, attempt, Busy(FileSnap(data), |path| - 1)))
      modifies this`disk, this`working
      ensures !ok ==> Plays(from, done + [Resume(io)], Finish(St(), Active(path, attempt, Asleep), false))
      ensures ok ==> Plays(from, done + [Resume(io)], St()) && working == Some(Active(path, attempt, Busy(FileSnap(data), |path|)))
      ensures disk == old(disk) || (path !in old(disk) && disk == old(disk)[path := File([])])
    {
      PlaysThen(from, done, St(), Resume(io));
      if io != Granted || (path in disk && disk[path].Dir?) {
        return false;
      }
      if path !in disk {
        disk := disk[path := File([])];
      }
      working := Some(Active(path, attempt, Busy(FileSnap(data), |path|)));
      return true;
    }

    /** createSyncAccessHandle, then sah_write and close in one stretch. */
    method WriteFile(path: Path, attempt: nat, data: Bytes, io: Io, ghost from: State, ghost done: seq<Event>)
      returns (ok: bool)
      requires path != [] && Plays(from, done, St())
      requires working == Some(Active(path, attempt, Busy(FileSnap(data), |path|)))
      modifies this`disk
      ensures Plays(from, done + [Resume(io)], Finish(St(), Active(path, attempt, Asleep), ok))
      ensures OnlyAt(old(disk), disk, path) && (ok ==> path in disk && disk[path] == File(data))
    {
      PlaysThen(from, done, St(), Resume(io));
      match io {
        case Granted =>
          disk := disk[path := File(data)];
          ok := true;
        case Torn(n) =>
          disk := disk[path := File(SyncAccess.Torn(data, OnDisk(disk, path), n))];
          ok := false;
        case Unflushed =>
          disk := disk[path := File(data)];
          ok := false;
        case _ =>
          ok := false;
      }
    }

    /** `Snapshot::File`: directories, then the file handle, then the bytes. */
    method ReconcileFile(path: Path, attempt: nat, data: Bytes, answers: nat -> Io, k0: nat, ghost from: State)
      returns (ok: bool, k: nat, ghost more: seq<Event>)
      requires path != []
      requires working == Some(Active(path, attempt, Busy(FileSnap(data), 0))) && from == St()
      modifies this`disk, this`working
      ensures forall e :: e in more ==> e.Resume?
      ensures Plays(from, more, Finish(St(), Active(path, attempt, Asleep), ok))
      ensures ok ==> Written(old(disk), disk, path, data)
    {
      ok, k, more := EnsureDirs(path, attempt, FileSnap(data), |path| - 1, answers, k0, from);
      if !ok {
        return;
      }
      ghost var walked := disk;
      ok := OpenFile(path, attempt, data, answers(k), from, more);
      k, more := k + 1, more + [Resume(answers(k))];
      if !ok {
        return;
      }
      ghost var touched := disk;
      ok := WriteFile(path, attempt, data, answers(k), from, more);
      k, more := k + 1, more + [Resume(answers(k))];
      if ok {
        WalkedWritten(old(disk), walked, touched, disk, path, data);
      }
    }

    /** One step down without creating; any failure reads as already gone. */
    method WalkDown(path: Path, attempt: nat, n: nat, io: Io, ghost from: State, ghost done: seq<Event>) returns (there: bool)
      requires n < |path| - 1 && working == Some(Active(path, attempt, Busy(Missing, n))) && Plays(from, done, St())
      modifies this`working
      ensures !there ==> Plays(from, done + [Resume(io)], Finish(St(), Active(path, attempt, Asleep), true))
      ensures there ==> Plays(from, done + [Resume(io)], St()) && working == Some(Active(path, attempt, Busy(Missing, n + 1)))
      ensures there <==> io == Granted && path[..n + 1] in disk && disk[path[..n + 1]].Dir?
    {
      PlaysThen(from, done, St(), Resume(io));
      var d := path[..n + 1];
      if io != Granted || d !in disk || !disk[d].Dir? {
        return false;
      }
      working := Some(Active(path, attempt, Busy(Missing, n + 1)));
      return true;
    }

    /** The recursive removal; its own error is ignored. */
    method RemoveEntry(path: Path, attempt: nat, io: Io, ghost from: State, ghost done: seq<Event>)
      requires path != [] && working == Some(Active(path, attempt, Busy(Missing, |path| - 1))) && Plays(from, done, St())
      modifies this`disk
      ensures Plays(from, done + [Resume(io)], Finish(St(), Active(path, attempt, Asleep), true))
      ensures OnlyBelowGone(old(disk), disk, path)
      ensures io == Granted ==> TreeGone(old(disk), disk, path)
    {
      PlaysThen(from, done, St(), Resume(io));
      var gone := match io case Granted => {path} case Removed(g) => g case _ => {};
      CutMeans(disk, gone, path);
      disk := WithoutSubtrees(disk, set g | g in gone && Under(path, g));
    }

    /** `Snapshot::Missing`: walk to the parent without creating, then remove. */
    method ReconcileMissing(path: Path, attempt: nat, answers: nat -> Io, k0: nat, ghost from: State)
      returns (k: nat, ghost more: seq<Event>)
      requires path != []
      requires working == Some(Active(path, attempt, Busy(Missing, 0))) && from == St()
      modifies this`disk, this`working
      ensures forall e :: e in more ==> e.Resume?
      ensures Plays(from, more, Finish(St(), Active(path, attempt, Asleep), true))
      ensures OnlyBelowGone(old(disk), disk, path)
      ensures DiskTree(old(disk)) && (forall i :: answers(i) == Granted) ==> TreeGone(old(disk), disk, path)
    {
      k, more := k0, [];
      for n := 0 to |path| - 1
        invariant forall e :: e in more ==> e.Resume?
        invariant disk == old(disk)
        invariant Plays(from, more, St()) && working == Some(Active(path, attempt, Busy(Missing, n)))
      {
        var there := WalkDown(path, attempt, n, answers(k), from, more);
        k, more := k + 1, more + [Resume(answers(k))];
        if !there {
          if DiskTree(disk) && answers(k - 1) == Granted {
            NothingBelow(disk, path, n);
          }
          return;
        }
      }
      RemoveEntry(path, attempt, answers(k), from, more);
      k, more := k + 1, more + [Resume(answers(k))];
    }

    method Reconcile(path: Path, attempt: nat, answers: nat -> Io, k0: nat)
      returns (ok: bool, k: nat, ghost more: seq<Event>)
      modifies this`disk, this`working
      ensures forall e :: e in more ==> e.Resume?
      ensures Plays(Begin(old(St()), path, attempt), more, Finish(St(), Active(path, attempt, Asleep), ok))
      ensures ok && path != [] && !IsConfig(path) ==> Mirrors(old(disk), disk, path, TakeSnapshot(mem, path))
      ensures DiskTree(old(disk)) && path != [] && !IsConfig(path) && path !in mem && (forall i :: answers(i) == Granted) ==>
                TreeGone(old(disk), disk, path)
    {
      ghost var before := St();
      if IsConfig(path) {
        working := Some(Active(path, attempt, Config));
        PlaysThen(St(), [], St(), Resume(answers(k0)));
        assert [] + [Resume(answers(k0))] == [Resume(answers(k0))];
        return answers(k0) == Granted, k0 + 1, [Resume(answers(k0))];
      }
      var snap := TakeSnapshot(mem, path);
      if path == [] {
        assert Plays(Begin(before, path, attempt), [], Finish(St(), Active(path, attempt, Asleep), snap.DirSnap?));
        return snap.DirSnap?, k0, [];
      }
      working := Some(Active(path, attempt, Busy(snap, 0)));
      match snap {
        case FileSnap(data) =>
          ok, k, more := ReconcileFile(path, attempt, data, answers, k0, St());
        case DirSnap =>
          ok, k, more := EnsureDirs(path, attempt, DirSnap, |path|, answers, k0, St());
        case Missing =>
          k, more := ReconcileMissing(path, attempt, answers, k0, St());
          ok := true;
      }
    }

    method Sleep(path: Path, attempt: nat, ghost start: State, ghost done: seq<Event>)
      requires Plays(start, done, St().(active := Some(Active(path, attempt, Asleep))))
      modifies this`working
      ensures Plays(start, done + [Wake], Begin(St(), path, attempt + 1))
    {
      working := Some(Active(path, attempt, Asleep));
      PlaysThen(start, done, St(), Wake);
    }

    /** What the verdict does: finished, or asleep until the next attempt. */
    method Conclude(path: Path, attempt: nat, ok: bool, ghost start: State, ghost done: seq<Event>)
      returns (again: bool, ghost more: seq<Event>)
      requires 1 <= attempt <= MAX_ATTEMPTS
      requires Plays(start, done, Finish(St(), Active(path, attempt, Asleep), ok))
      modifies this`working, this`lost
      ensures forall e :: e in more ==> !e.Client?
      ensures again ==> attempt < MAX_ATTEMPTS && lost == old(lost) && Plays(start, done + more, Begin(St(), path, attempt + 1))
      ensures !again ==> Plays(start, done + more, St().(active := None, inflight := inflight - 1))
    {
      more := [];
      assert done + [] == done;
      match NextStep(ok, attempt) {
        case Done => return false, more;
        case Retry(_) =>
          Sleep(path, attempt, start, done);
          return true, [Wake];
        case Permanent =>
          lost := lost + 1;
          return false, more;
      }
    }

    /** One attempt and its verdict. */
    method TryOnce(path: Path, attempt: nat, answers: nat -> Io, k0: nat, ghost start: State, ghost done: seq<Event>)
      returns (again: bool, k: nat, ghost more: seq<Event>)
      requires 1 <= attempt <= MAX_ATTEMPTS
      requires Plays(start, done, Begin(St(), path, attempt))
      modifies this`disk, this`working, this`lost
      ensures forall e :: e in more ==> !e.Client?
      ensures again ==> attempt < MAX_ATTEMPTS && lost == old(lost) && Plays(start, done + more, Begin(St(), path, attempt + 1))
      ensures !again ==> Plays(start, done + more, St().(active := None, inflight := inflight - 1))
    {
      ghost var begun := Begin(St(), path, attempt);
      var ok;
      ok, k, more := Reconcile(path, attempt, answers, k0);
      PlaysConcat(start, done, begun, more, Finish(St(), Active(path, attempt, Asleep), ok));
      ghost var part;
      again, part := Conclude(path, attempt, ok, start, done + more);
      assert done + (more + part) == done + more + part;
      more := more + part;
    }

    /** The retry loop for one dequeued path, ending with the decrement. */
    method FlushOne(path: Path, answers: nat -> Io, k0: nat)
      returns (k: nat, ghost more: seq<Event>)
      modifies this`disk, this`working, this`lost, this`inflight
      ensures working == None && inflight == old(inflight) - 1
      ensures forall e :: e in more ==> !e.Client?
      ensures Plays(Begin(old(St()), path, 1), more, St())
    {
      ghost var start := Begin(St(), path, 1);
      var attempt, again := 1, true;
      k, more := k0, [];
      while again
        invariant 1 <= attempt <= MAX_ATTEMPTS && inflight == old(inflight)
        invariant forall e :: e in more ==> !e.Client?
        invariant again ==> Plays(start, more, Begin(St(), path, attempt))
        invariant !again ==> Plays(start, more, St().(active := None, inflight := inflight - 1))
        decreases MAX_ATTEMPTS - attempt, again
      {
        ghost var part;
        again, k, part := TryOnce(path, attempt, answers, k, start, more);
        more := more + part;
        if again {
          attempt := attempt + 1;
        }
      }
      working := None;
      inflight := inflight - 1;
    }

    /** The flusher draining the queue while no client runs: it terminates with
        nothing in flight, and it only ever takes steps of the protocol. */
    method Flusher(answers: nat -> Io) returns (ghost es: seq<Event>)
      requires Accounted(St()) && working == None
      modifies this
      ensures inflight == 0 && queue == [] && pending == {} && working == None
      ensures mem == old(mem)
      ensures forall e :: e in es ==> !e.Client?
      ensures Plays(old(St()), es, St())
    {
      var k := 0;
      es := [];
      while queue != []
        invariant Accounted(St()) && working == None && mem == old(mem)
        invariant forall e :: e in es ==> !e.Client?
        invariant Plays(old(St()), es, St())
        decreases |queue|
      {
        ghost var before := St();
        DequeueAccounts(before);
        PlaysThen(old(St()), es, before, Dequeue);
        var path := queue[0];
        queue := queue[1..];
        pending := pending - {path};
        ghost var more;
        ghost var begun := Begin(St(), path, 1);
        k, more := FlushOne(path, answers, k);
        PlaysConcat(old(St()), es + [Dequeue], begun, more, St());
        es := es + [Dequeue] + more;
        assert before.queue == [path] + queue;
      }
    }

    // --- boot ---

    method InsertHydratedFile(p: Path, data: Bytes)
      modifies this`mem
      ensures mem == WithDirs(old(mem), Ancestors(p))[p := File(data)]
    {
      CreateParents(p);
      mem := mem[p := File(data)];
    }

    method LoadChild(child: Path, stack0: seq<Path>) returns (stack: seq<Path>)
      requires child in disk && Ancestors(child) <= mem.Keys
      modifies this`mem
      ensures mem == old(mem)[child := disk[child]]
      ensures stack == if disk[child].Dir? then stack0 + [child] else stack0
    {
      stack := stack0;
      if disk[child].Dir? {
        mem := mem[child := Dir];
        stack := stack + [child];
      } else {
        InsertHydratedFile(child, disk[child].data);
      }
    }

    /** One directory's entries, in whatever order OPFS lists them. */
    method LoadEntries(dir: Path, rest: seq<Path>, children: set<Path>) returns (stack: seq<Path>)
      requires Loaded(mem, disk, rest + [dir]) && ChildrenOf(children, disk, dir)
      modifies this`mem
      ensures mem.Keys == old(mem.Keys) + children
      ensures forall k :: k in mem ==> k in disk && mem[k] == disk[k]
      ensures Stacked(stack, rest, disk, children)
    {
      ChildrenAreReady(mem, disk, rest, dir, children);
      stack := rest;
      var left := children;
      while left != {}
        invariant left <= children
        invariant mem.Keys == old(mem.Keys) + (children - left)
        invariant forall k :: k in mem ==> k in disk && mem[k] == disk[k]
        invariant Stacked(stack, rest, disk, children - left)
        decreases left
      {
        var child :| child in left;
        assert children - (left - {child}) == children - left + {child};
        stack := LoadChild(child, stack);
        left := left - {child};
      }
      assert children - {} == children;
    }

    method LoadTop(stack0: seq<Path>) returns (stack: seq<Path>)
      requires stack0 != [] && Loaded(mem, disk, stack0) && Reachable(mem, disk, stack0)
      modifies this`mem
      ensures Loaded(mem, disk, stack) && Reachable(mem, disk, stack)
      ensures disk.Keys - mem.Keys < disk.Keys - old(mem).Keys || (mem.Keys == old(mem).Keys && |stack| < |stack0|)
    {
      var dir, rest := stack0[|stack0| - 1], stack0[..|stack0| - 1];
      assert stack0 == rest + [dir];
      var children := set k | k in disk && |k| == |dir| + 1 && Under(dir, k);
      stack := LoadEntries(dir, rest, children);
      ReadOneDir(old(mem), mem, disk, rest, dir, stack, children);
      ReadOneDirAdvances(old(mem), mem, disk, rest, dir, stack, children);
    }

    /** Loads the whole mirror, directory by directory: the memfs ends up holding
        exactly what OPFS holds. */
    method Hydrate()
      requires mem == map[] && DiskTree(disk)
      modifies this`mem
      ensures mem == disk
    {
      var stack: seq<Path> := [[]];
      assert forall k :: k in disk ==> Under([], k);
      while stack != []
        invariant Loaded(mem, disk, stack)
        invariant Reachable(mem, disk, stack)
        decreases disk.Keys - mem.Keys, |stack|
      {
        stack := LoadTop(stack);
      }
    }
  }
}
