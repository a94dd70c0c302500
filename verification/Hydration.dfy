/** Bookkeeping for loading the mirror at boot, directory by directory. */
module Hydration {
  import opened Paths
  import opened MemFs
  import opened MirrorSafety

  /** Part of the mirror is loaded; the stacked directories are still unread. */
  ghost predicate Loaded(mem: Tree, disk: Tree, stack: seq<Path>) {
    && DiskTree(disk)
    && (forall k :: k in mem ==> k in disk && mem[k] == disk[k])
    && Closed(mem)
    && (forall i, j :: 0 <= i < j < |stack| ==> stack[i] != stack[j])
    && (forall d :: d in stack ==> d == [] || (d in mem && mem[d].Dir?))
    && (forall d, k :: d in stack && k in mem && Under(d, k) ==> k == d)
  }

  ghost predicate ChildrenOf(children: set<Path>, disk: Tree, dir: Path) {
    children == set k | k in disk && |k| == |dir| + 1 && Under(dir, k)
  }

  /** `stack` is `rest` with the sub-directories among `children` on top. */
  ghost predicate Stacked(stack: seq<Path>, rest: seq<Path>, disk: Tree, children: set<Path>)
    requires children <= disk.Keys
  {
    && rest <= stack
    && (forall i :: |rest| <= i < |stack| ==> stack[i] in children && disk[stack[i]].Dir?)
    && (forall i, j :: 0 <= i < j < |stack| ==> stack[i] != stack[j])
    && (forall k :: k in children && disk[k].Dir? ==> k in stack)
  }

  lemma FreshChildren(seen: Tree, disk: Tree, rest: seq<Path>, dir: Path, children: set<Path>)
    requires Loaded(seen, disk, rest + [dir]) && ChildrenOf(children, disk, dir)
    ensures forall c :: c in children ==> c !in seen && c !in rest
  {
    assert dir in rest + [dir];
    assert forall d :: d in rest ==> d in rest + [dir];
  }

  /** A directory's entries are new, and their ancestors are loaded. */
  lemma ChildrenAreReady(mem: Tree, disk: Tree, rest: seq<Path>, dir: Path, children: set<Path>)
    requires Loaded(mem, disk, rest + [dir]) && ChildrenOf(children, disk, dir)
    ensures Stacked(rest, rest, disk, {})
    ensures forall c :: c in children ==> c !in mem && c !in rest && c in disk && Ancestors(c) <= mem.Keys
  {
    FreshChildren(mem, disk, rest, dir, children);
    assert (rest + [dir])[..|rest|] == rest;
    assert dir in rest + [dir];
    forall c | c in children ensures Ancestors(c) <= mem.Keys {
    }
  }

  lemma OlderStaysUnread(seen: Tree, disk: Tree, rest: seq<Path>, dir: Path, children: set<Path>, d: Path, k: Path)
    requires Loaded(seen, disk, rest + [dir]) && ChildrenOf(children, disk, dir)
    requires d in rest && k in children
    ensures !Under(d, k)
  {
    FreshChildren(seen, disk, rest, dir, children);
    var i :| 0 <= i < |rest| && rest[i] == d;
    assert (rest + [dir])[i] == d && (rest + [dir])[|rest|] == dir;
    if Under(d, k) {
      AncestorsUnder(k, d);
      assert Under(d, dir);
    }
  }

  lemma StackStillUnread(seen: Tree, mem: Tree, disk: Tree, rest: seq<Path>, dir: Path, stack: seq<Path>,
                         children: set<Path>, d: Path, k: Path)
    requires Loaded(seen, disk, rest + [dir]) && ChildrenOf(children, disk, dir)
    requires mem.Keys == seen.Keys + children && Stacked(stack, rest, disk, children)
    requires d in stack && k in mem && Under(d, k)
    ensures k == d
  {
    if d in rest {
      assert d in rest + [dir];
      if k in children {
        OlderStaysUnread(seen, disk, rest, dir, children, d, k);
      }
    } else {
      assert d in children;
      if k in seen {
        assert dir in rest + [dir];
        Transitive(dir, d, k);
      }
    }
  }

  lemma ReadOneDir(seen: Tree, mem: Tree, disk: Tree, rest: seq<Path>, dir: Path, stack: seq<Path>, children: set<Path>)
    requires Loaded(seen, disk, rest + [dir]) && ChildrenOf(children, disk, dir)
    requires mem.Keys == seen.Keys + children && Stacked(stack, rest, disk, children)
    requires forall k :: k in mem ==> k in disk && mem[k] == disk[k]
    ensures Loaded(mem, disk, stack)
  {
    forall d | d in stack ensures d == [] || (d in mem && mem[d].Dir?) {
      if d in rest {
        assert d in rest + [dir];
      }
    }
    forall d, k | d in stack && k in mem && Under(d, k) ensures k == d {
      StackStillUnread(seen, mem, disk, rest, dir, stack, children, d, k);
    }
  }

  lemma StillReachable(seen: Tree, mem: Tree, disk: Tree, rest: seq<Path>, dir: Path, stack: seq<Path>,
                       children: set<Path>, k: Path)
    requires DiskTree(disk) && ChildrenOf(children, disk, dir)
    requires mem.Keys == seen.Keys + children && Stacked(stack, rest, disk, children)
    requires k in disk && (k in seen || exists d :: d in rest + [dir] && Under(d, k))
    requires dir in seen || dir == []
    ensures k in mem || exists d :: d in stack && Under(d, k)
  {
    if k !in mem {
      var d :| d in rest + [dir] && Under(d, k);
      if d in rest {
        assert d in stack;
      } else {
        assert k != dir && k[..|dir|] == dir;
        var c := k[..|dir| + 1];
        assert Under(c, k) && c != [] && Under(dir, c);
        assert c in children;
      }
    }
  }

  ghost predicate Reachable(mem: Tree, disk: Tree, stack: seq<Path>) {
    forall k :: k in disk ==> k in mem || exists d :: d in stack && Under(d, k)
  }

  /** Reading one directory makes progress and forgets nothing. */
  lemma ReadOneDirAdvances(seen: Tree, mem: Tree, disk: Tree, rest: seq<Path>, dir: Path, stack: seq<Path>,
                           children: set<Path>)
    requires Loaded(seen, disk, rest + [dir]) && Reachable(seen, disk, rest + [dir]) && ChildrenOf(children, disk, dir)
    requires mem.Keys == seen.Keys + children && Stacked(stack, rest, disk, children)
    ensures Reachable(mem, disk, stack)
    ensures if children == {} then stack == rest && mem.Keys == seen.Keys
            else disk.Keys - mem.Keys < disk.Keys - seen.Keys
  {
    assert dir in rest + [dir];
    forall k | k in disk ensures k in mem || exists d :: d in stack && Under(d, k) {
      StillReachable(seen, mem, disk, rest, dir, stack, children, k);
    }
    if |stack| > |rest| {
      assert stack[|rest|] in children;
    } else {
      assert stack == rest;
    }
    FreshChildren(seen, disk, rest, dir, children);
    if c :| c in children {
      assert c in disk.Keys - seen.Keys && c !in disk.Keys - mem.Keys;
    }
  }
}
