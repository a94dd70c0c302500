/** What a caller of the file tree can rely on: for each mutation, every key and
    every byte of the tree afterwards, in terms of the tree before (`fs.rs`).
    `MemFs` says how the tree is computed; nothing here refers to that. */
module TreeLaws {
  import opened Paths
  import opened MemFs
  import opened Mirror

  const GIB: nat := 1024 * 1024 * 1024

  /** `k` is or contains `p`, component-wise; the root is no key. */
  predicate Above(k: Path, p: Path) {
    k != [] && k <= p
  }

  ghost predicate Keeps(t: Tree, r: Tree, k: Path) {
    k in t ==> k in r && r[k] == t[k]
  }

  /** Nothing but `p` differs. */
  ghost predicate OnlyAt(t: Tree, r: Tree, p: Path) {
    forall k :: k != p ==> Keeps(t, r, k) && (k in r ==> k in t)
  }

  /** The bytes are at `p`, every other key keeps its node, and the only other
      keys that are new are missing parents, as directories. */
  ghost predicate Written(t: Tree, r: Tree, p: Path, data: Bytes) {
    && p in r && r[p] == File(data)
    && (forall k :: k != p ==> Keeps(t, r, k))
    && (forall k :: k in r && k !in t && k != p ==> Above(k, p) && r[k] == Dir)
    && (forall k :: Above(k, p) ==> k in r)
  }

  ghost predicate DirMade(t: Tree, r: Tree, p: Path) {
    p in r && r[p] == Dir && OnlyAt(t, r, p)
  }

  /** Every name of the path is there; what was there stays, what was not is a
      directory. */
  ghost predicate AllDirsMade(t: Tree, r: Tree, p: Path) {
    && (forall k :: Keeps(t, r, k))
    && (forall k :: k in r && k !in t ==> Above(k, p) && r[k] == Dir)
    && (forall k :: Above(k, p) ==> k in r)
  }

  ghost predicate TreeGone(t: Tree, r: Tree, p: Path) {
    forall k :: if p <= k then k !in r else Keeps(t, r, k) && (k in r ==> k in t)
  }

  ghost predicate NodeGone(t: Tree, r: Tree, p: Path) {
    p !in r && OnlyAt(t, r, p)
  }

  /** Cut to `size`, or filled up to it with zeros. */
  ghost predicate Sized(t: Tree, r: Tree, p: Path, size: nat) {
    && IsFile(t, p) && IsFile(r, p) && OnlyAt(t, r, p)
    && var d, d' := t[p].data, r[p].data;
    && |d'| == size
    && forall i :: 0 <= i < size ==> d'[i] == if i < |d| then d[i] else 0
  }

  /** The buffer at `pos`, zeros in a gap before it, the rest as it was. */
  ghost predicate Overlaid(t: Tree, r: Tree, p: Path, pos: nat, buf: Bytes) {
    && IsFile(t, p) && IsFile(r, p) && OnlyAt(t, r, p)
    && var d, d', end := t[p].data, r[p].data, pos + |buf|;
    && |d'| == (if end < |d| then |d| else end)
    && forall i :: 0 <= i < |d'| ==> d'[i] == if pos <= i < end then buf[i - pos] else if i < |d| then d[i] else 0
  }

  /** The subtree is under its new name, over whatever was there; the rest stays. */
  ghost predicate Renamed(t: Tree, r: Tree, from: Path, to: Path) {
    && (forall k :: k in t && from <= k ==> to + k[|from|..] in r && r[to + k[|from|..]] == t[k])
    && (forall k :: k in t && !(from <= k) && !(to <= k && from + k[|to|..] in t) ==> k in r && r[k] == t[k])
    && (forall k :: k in r ==> (k in t && !(from <= k)) || (to <= k && from + k[|to|..] in t))
  }

  ghost predicate NoneUnder(t: Tree, p: Path) {
    forall k :: k in t ==> !(p <= k)
  }

  /** Every old node stays; what is new are directories on the way to `p`. */
  ghost predicate OnlyDirsAdded(t: Tree, r: Tree, p: Path) {
    (forall k :: Keeps(t, r, k)) && forall k :: k in r && k !in t ==> Above(k, p) && r[k] == Dir
  }

  /** And the first `n` names of the path are directories. */
  ghost predicate Walked(t: Tree, r: Tree, p: Path, n: nat)
    requires n <= |p|
  {
    OnlyDirsAdded(t, r, p[..n]) && forall i :: 0 < i <= n ==> p[..i] in r && r[p[..i]] == Dir
  }

  lemma WalkOn(t: Tree, r: Tree, r': Tree, p: Path, n: nat)
    requires n < |p| && Walked(t, r, p, n)
    requires if p[..n + 1] in r then r[p[..n + 1]] == Dir && r' == r else DirMade(r, r', p[..n + 1])
    ensures Walked(t, r', p, n + 1)
  {
    var d := p[..n + 1];
    forall k ensures Keeps(t, r', k) && (k in r' && k !in t ==> Above(k, d) && r'[k] == Dir) {
      assert Keeps(t, r, k);
      assert Above(k, p[..n]) ==> Above(k, d);
    }
    forall i | 0 < i <= n + 1 ensures p[..i] in r' && r'[p[..i]] == Dir {
      assert i <= n ==> p[..i] in r && r[p[..i]] == Dir && |p[..i]| == i;
    }
  }

  lemma WalkedIsAdded(t: Tree, r: Tree, p: Path, n: nat)
    requires n <= |p| && Walked(t, r, p, n)
    ensures OnlyDirsAdded(t, r, p)
  {
    assert forall k :: Above(k, p[..n]) ==> Above(k, p);
  }

  /** A walk to the parent and a write. */
  lemma WalkedWritten(t: Tree, r: Tree, r': Tree, r'': Tree, p: Path, data: Bytes)
    requires p != [] && Walked(t, r, p, |p| - 1) && (r' == r || r' == r[p := File([])])
    requires OnlyAt(r', r'', p) && p in r'' && r''[p] == File(data)
    ensures Written(t, r'', p, data)
  {
    forall k | k != p ensures Keeps(t, r'', k) && (k in r'' && k !in t ==> Above(k, p) && r''[k] == Dir) {
      assert Keeps(t, r, k) && Keeps(r', r'', k) && (k in r'' ==> k in r');
      assert Above(k, p[..|p| - 1]) ==> Above(k, p);
    }
    forall k | Above(k, p) ensures k in r'' {
      if k != p {
        assert k == p[..|k|] && Keeps(r', r'', k);
      }
    }
  }

  /** Nothing is new, and nothing went but below `p`. */
  ghost predicate OnlyBelowGone(t: Tree, r: Tree, p: Path) {
    forall k :: (k in r ==> k in t && r[k] == t[k]) && (!(p <= k) ==> Keeps(t, r, k))
  }

  lemma CutMeans(t: Tree, gone: set<Path>, p: Path)
    ensures var r := WithoutSubtrees(t, set g | g in gone && Under(p, g));
            OnlyBelowGone(t, r, p) && (p in gone ==> TreeGone(t, r, p))
  {
    var cut := set g | g in gone && Under(p, g);
    var r := WithoutSubtrees(t, cut);
    forall k ensures (k in r ==> k in t && r[k] == t[k]) && (!(p <= k) ==> Keeps(t, r, k)) {
      if !(p <= k) {
        forall g | g in cut ensures !Under(g, k) {
          assert Under(p, g) && Under(g, k) ==> Under(p, k);
        }
      }
    }
    if p in gone {
      assert p in cut;
    }
  }

  /** A name on the way that is no directory has nothing below it. */
  lemma NothingBelow(t: Tree, p: Path, n: nat)
    requires n + 1 < |p| && !(p[..n + 1] in t && t[p[..n + 1]].Dir?)
    requires forall k, q :: k in t && Under(q, k) && q != [] && q != k ==> q in t && t[q].Dir?
    ensures NoneUnder(t, p)
  {
    forall k | k in t ensures !(p <= k) {
      if p <= k {
        assert k[..n + 1] == p[..n + 1] && Under(p[..n + 1], k);
      }
    }
  }

  /** What each mutation does to the tree, and when it fails instead. */
  ghost predicate Means(t: Tree, m: Mutation, r: Tree, error: set<FsError>)
    requires WellFormed(t, m)
  {
    match m
    case Write(p, data) => error == {} && Written(t, r, p, data)
    case CreateDir(p) => error == {} && DirMade(t, r, p)
    case CreateDirAll(p) => error == {} && AllDirsMade(t, r, p)
    case RemoveTree(p) => if NoneUnder(t, p) then error == {NotFound} && r == t else error == {} && TreeGone(t, r, p)
    case RemoveNode(p) => if p !in t then error == {NotFound} && r == t else error == {} && NodeGone(t, r, p)
    case Rename(from, to, order) =>
      if NoneUnder(t, from) then error == {NotFound} && r == t
      else error == {} && (NoClobber(order, from, to) ==> Renamed(t, r, from, to))
    case SetLen(p, size) =>
      if size > GIB then error == {TooLong} && r == t
      else if !IsFile(t, p) then error == {NotFound} && r == t
      else error == {} && Sized(t, r, p, size)
    case WriteAt(p, pos, buf) =>
      if !IsFile(t, p) then error == {NotFound} && r == t
      else if pos + |buf| > GIB then error == {TooLong} && r == t
      else error == {} && Overlaid(t, r, p, pos, buf)
  }

  lemma ParentsAre(p: Path, k: Path)
    ensures k in Ancestors(p) <==> Above(k, p) && k != p
  {
    if Above(k, p) && k != p {
      assert k == p[..|k|];
    }
  }

  lemma WriteMeans(t: Tree, p: Path, data: Bytes)
    ensures Written(t, WithDirs(t, Ancestors(p))[p := File(data)], p, data)
  {
    forall k ensures k in Ancestors(p) <==> Above(k, p) && k != p {
      ParentsAre(p, k);
    }
  }

  lemma AllDirsMean(t: Tree, p: Path)
    ensures AllDirsMade(t, WithDirs(t, Ancestors(p) + if p == [] then {} else {p}), p)
  {
    forall k ensures k in Ancestors(p) <==> Above(k, p) && k != p {
      ParentsAre(p, k);
    }
  }

  /** A key is a new name exactly when it is one of a key of the subtree. */
  lemma NewNames(t: Tree, from: Path, to: Path, k: Path)
    ensures (exists s :: s in Subtree(t, from) && Target(s, from, to) == k) <==> to <= k && from + k[|to|..] in t
  {
    if to <= k && from + k[|to|..] in t {
      var s := from + k[|to|..];
      assert s in Subtree(t, from) && s[|from|..] == k[|to|..];
    }
    if s :| s in Subtree(t, from) && Target(s, from, to) == k {
      assert k[|to|..] == s[|from|..] && from + s[|from|..] == s;
    }
  }

  lemma RenameMeans(t: Tree, from: Path, to: Path)
    ensures Renamed(t, Moved(t, from, to), from, to)
  {
    var r := Moved(t, from, to);
    forall k | k in t && from <= k ensures to + k[|from|..] in r && r[to + k[|from|..]] == t[k] {
      assert k in Subtree(t, from) && Target(k, from, to) == to + k[|from|..];
    }
    forall k ensures k in r ==> (k in t && !(from <= k)) || (to <= k && from + k[|to|..] in t) {
      NewNames(t, from, to, k);
    }
    forall k | k in t && !(from <= k) && !(to <= k && from + k[|to|..] in t) ensures k in r && r[k] == t[k] {
      NewNames(t, from, to, k);
      StaysPut(t, from, to, k);
    }
  }

  lemma StaysPut(t: Tree, from: Path, to: Path, k: Path)
    requires k in t && !Under(from, k) && forall s :: s in Subtree(t, from) ==> Target(s, from, to) != k
    ensures k in Moved(t, from, to) && Moved(t, from, to)[k] == t[k]
  {
    assert k in WithoutSubtree(t, from);
  }

  lemma EmptySubtree(t: Tree, p: Path)
    ensures Subtree(t, p) == {} <==> NoneUnder(t, p)
  {
    if !NoneUnder(t, p) {
      var k :| k in t && p <= k;
      assert k in Subtree(t, p);
    }
  }

  lemma OverlayMeans(t: Tree, p: Path, pos: nat, buf: Bytes)
    requires IsFile(t, p)
    ensures Overlaid(t, t[p := File(Spliced(t[p].data, pos + |buf|, buf))], p, pos, buf)
  {
    forall i | 0 <= i < |Spliced(t[p].data, pos + |buf|, buf)|
      ensures Spliced(t[p].data, pos + |buf|, buf)[i] ==
              if pos <= i < pos + |buf| then buf[i - pos] else if i < |t[p].data| then t[p].data[i] else 0
    {
      SplicedAt(t[p].data, pos, buf, i);
    }
    var end, data := pos + |buf|, t[p].data;
    assert |Spliced(data, end, buf)| == if end < |data| then |data| else end;
  }

  /** Each mutation means what a caller expects of it. */
  lemma ApplyMeans(t: Tree, m: Mutation)
    requires WellFormed(t, m)
    ensures Means(t, m, Apply(t, m).tree, Apply(t, m).error)
  {
    match m
    case Write(p, data) => WriteMeans(t, p, data);
    case CreateDirAll(p) => AllDirsMean(t, p);
    case RemoveTree(p) => EmptySubtree(t, p);
    case Rename(from, to, order) =>
      EmptySubtree(t, from);
      assert order != [] ==> order[0] in Subtree(t, from);
      if NoClobber(order, from, to) && order != [] {
        RenameMovesSubtree(t, order, from, to);
        RenameMeans(t, from, to);
      }
    case WriteAt(p, pos, buf) =>
      if IsFile(t, p) {
        OverlayMeans(t, p, pos, buf);
      }
    case _ =>
  }
}
