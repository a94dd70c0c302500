/** The in-memory tree and its mutations (`fs.rs`).

    Every mutation is a function from the tree to its `Effect`: the new tree,
    the paths handed to `mark_dirty` in order, and the error if there is one.
    `Store.dfy` holds the imperative form of the same operations. */
module MemFs {
  import opened Paths

  type Byte = b: int | 0 <= b < 256
  type Bytes = seq<Byte>

  datatype Node = File(data: Bytes) | Dir
  type Tree = map<Path, Node>

  datatype Snapshot = FileSnap(data: Bytes) | DirSnap | Missing

  datatype FsError = NotFound | TooLong
  datatype Effect = Effect(tree: Tree, marks: seq<Path>, error: set<FsError>)

  /** Largest single file: 1 GiB. */
  const MAX_FILE_LEN: nat := 0x4000_0000
  const U64_MAX: nat := 0xFFFF_FFFF_FFFF_FFFF

  datatype Mutation =
    | Write(path: Path, data: Bytes)
    | CreateDir(path: Path)
    | CreateDirAll(path: Path)
    | RemoveTree(path: Path)
    | RemoveNode(path: Path)
    | Rename(from: Path, to: Path, order: seq<Path>) // order: how the BTreeMap enumerates the subtree
    | SetLen(path: Path, size: nat)
    | WriteAt(path: Path, pos: nat, buf: Bytes)

  /** `k == prefix || k.starts_with(prefix)`, component-wise. */
  predicate Under(root: Path, p: Path) {
    root <= p
  }

  function TakeSnapshot(t: Tree, p: Path): Snapshot {
    if p !in t then Missing
    else match t[p]
      case File(data) => FileSnap(data)
      case Dir => DirSnap
  }

  predicate IsFile(t: Tree, p: Path) {
    p in t && t[p].File?
  }

  /** Every key's ancestors below the root are keys too. */
  ghost predicate Closed(t: Tree) {
    forall p, q :: p in t && Under(q, p) && q != [] ==> q in t
  }

  /** The proper ancestors of `p` below the root. */
  function Ancestors(p: Path): set<Path> {
    set i | 1 <= i < |p| :: p[..i]
  }

  function WithDirs(t: Tree, dirs: set<Path>): Tree {
    t + map q | q in dirs - t.Keys :: Dir
  }

  function Subtree(t: Tree, root: Path): set<Path> {
    set k | k in t && Under(root, k)
  }

  function WithoutSubtree(t: Tree, root: Path): Tree {
    map k | k in t && !Under(root, k) :: t[k]
  }

  // --- rename ---

  function Target(key: Path, from: Path, to: Path): Path
    requires Under(from, key)
  {
    to + key[|from|..]
  }

  ghost predicate Movable(t: Tree, order: seq<Path>, from: Path) {
    && (forall i :: 0 <= i < |order| ==> order[i] in t && Under(from, order[i]))
    && (forall i, j :: 0 <= i < j < |order| ==> order[i] != order[j])
  }

  ghost predicate Enumerates(order: seq<Path>, t: Tree, from: Path) {
    && Movable(t, order, from)
    && forall k :: k in Subtree(t, from) ==> k in order
  }

  /** One key after the other: take its node out, insert it at its target. */
  ghost function RenameLoop(t: Tree, order: seq<Path>, from: Path, to: Path): Tree
    requires Movable(t, order, from)
    decreases |order|
  {
    if order == [] then t
    else
      var t' := (t - {order[0]})[Target(order[0], from, to) := t[order[0]]];
      assert forall i :: 0 <= i < |order[1..]| ==> order[1..][i] == order[i + 1];
      RenameLoop(t', order[1..], from, to)
  }

  ghost function Targets(order: seq<Path>, from: Path, to: Path): (ts: seq<Path>)
    requires forall i :: 0 <= i < |order| ==> Under(from, order[i])
    ensures |ts| == |order|
    ensures forall i :: 0 <= i < |order| ==> ts[i] == Target(order[i], from, to)
  {
    seq(|order|, i requires 0 <= i < |order| => Target(order[i], from, to))
  }

  lemma TargetInjective(from: Path, to: Path)
    ensures forall a, b ::
              (Under(from, a) && Under(from, b) && Target(a, from, to) == Target(b, from, to)) ==> a == b
  {
    forall a, b | Under(from, a) && Under(from, b) && Target(a, from, to) == Target(b, from, to)
      ensures a == b
    {
      assert Target(a, from, to)[|to|..] == a[|from|..];
      assert Target(b, from, to)[|to|..] == b[|from|..];
      assert a == from + a[|from|..] && b == from + b[|from|..];
    }
  }

  /** The whole subtree moved at once; what a rename is supposed to mean. */
  function Moved(t: Tree, from: Path, to: Path): (r: Tree)
    ensures r.Keys == WithoutSubtree(t, from).Keys + set s | s in Subtree(t, from) :: Target(s, from, to)
    ensures forall s :: s in Subtree(t, from) ==> r[Target(s, from, to)] == t[s]
  {
    var targets := set s | s in Subtree(t, from) :: Target(s, from, to);
    assert forall s :: s in Subtree(t, from) ==> from + Target(s, from, to)[|to|..] == s;
    WithoutSubtree(t, from) + map k | k in targets :: t[from + k[|to|..]]
  }

  /** No key is written over a source key whose own turn is still to come. */
  ghost predicate NoClobber(order: seq<Path>, from: Path, to: Path)
    requires forall i :: 0 <= i < |order| ==> Under(from, order[i])
  {
    forall i, j :: 0 <= i < j < |order| ==> Target(order[i], from, to) != order[j]
  }

  // --- file contents ---

  function Zeros(n: nat): Bytes {
    seq(n, _ => 0)
  }

  /** `Vec::resize(size, 0)`. */
  function Resized(data: Bytes, size: nat): Bytes {
    if size <= |data| then data[..size] else data + Zeros(size - |data|)
  }

  function SaturatingAdd(a: nat, b: nat): nat {
    if a + b > U64_MAX then U64_MAX else a + b
  }

  /** `buf` laid over `data` so that it ends at `end`; a gap is zero-filled. */
  function Spliced(data: Bytes, end: nat, buf: Bytes): Bytes
    requires |buf| <= end
  {
    var grown := if |data| < end then Resized(data, end) else data;
    grown[..end - |buf|] + buf + grown[end..]
  }

  /** A handle's write, byte by byte: the buffer where it was aimed, zeros in a
      gap the seek left, everything else as before. */
  lemma SplicedAt(data: Bytes, pos: nat, buf: Bytes, i: nat)
    requires i < |Spliced(data, pos + |buf|, buf)|
    ensures |Spliced(data, pos + |buf|, buf)| == if |data| < pos + |buf| then pos + |buf| else |data|
    ensures Spliced(data, pos + |buf|, buf)[i] ==
            if pos <= i < pos + |buf| then buf[i - pos] else if i < |data| then data[i] else 0
  {
    var end := pos + |buf|;
    var grown := if |data| < end then Resized(data, end) else data;
    assert |grown[..pos] + buf| == end;
  }

  // --- effects ---

  ghost predicate WellFormed(t: Tree, m: Mutation) {
    m.Rename? ==> Enumerates(m.order, t, m.from)
  }

  ghost function Apply(t: Tree, m: Mutation): Effect
    requires WellFormed(t, m)
  {
    match m
    case Write(p, data) =>
      Effect(WithDirs(t, Ancestors(p))[p := File(data)], [p], {})
    case CreateDir(p) =>
      Effect(t[p := Dir], [p], {})
    case CreateDirAll(p) =>
      Effect(WithDirs(t, Ancestors(p) + if p == [] then {} else {p}), [p], {})
    case RemoveTree(p) =>
      if Subtree(t, p) == {} then Effect(t, [], {NotFound})
      else Effect(WithoutSubtree(t, p), [p], {})
    case RemoveNode(p) =>
      if p !in t then Effect(t, [], {NotFound}) else Effect(t - {p}, [p], {})
    case Rename(from, to, order) =>
      if order == [] then Effect(t, [], {NotFound})
      else Effect(RenameLoop(t, order, from, to), [from] + Targets(order, from, to), {})
    case SetLen(p, size) =>
      if size > MAX_FILE_LEN then Effect(t, [], {TooLong})
      else if !IsFile(t, p) then Effect(t, [], {NotFound})
      else Effect(t[p := File(Resized(t[p].data, size))], [p], {})
    case WriteAt(p, pos, buf) =>
      if !IsFile(t, p) then Effect(t, [], {NotFound})
      else if SaturatingAdd(pos, |buf|) > MAX_FILE_LEN then Effect(t, [], {TooLong})
      else Effect(t[p := File(Spliced(t[p].data, pos + |buf|, buf))], [p], {})
  }

  /** What the callers guarantee and the operations do not check. */
  ghost predicate Legal(t: Tree, m: Mutation) {
    WellFormed(t, m) &&
    match m
    case CreateDir(p) => Ancestors(p) <= t.Keys
    case RemoveNode(p) => Subtree(t, p) <= {p}
    case Rename(from, to, order) =>
      && Ancestors(to) <= t.Keys
      && (Under(from, to) ==> from == to)
      && NoClobber(order, from, to)
    case _ => true
  }

  // --- rename moves exactly the subtree, or clobbers ---

  ghost predicate Lands(order: seq<Path>, from: Path, to: Path, k: Path)
    requires forall i :: 0 <= i < |order| ==> Under(from, order[i])
  {
    exists i :: 0 <= i < |order| && Target(order[i], from, to) == k && k !in order[i + 1..]
  }

  /** The keys a rename leaves, whatever the order. */
  lemma {:induction false} RenameKeys(t: Tree, order: seq<Path>, from: Path, to: Path, k: Path)
    requires Movable(t, order, from)
    ensures k in RenameLoop(t, order, from, to) <==> (k in t && k !in order) || Lands(order, from, to, k)
    decreases |order|
  {
    if order != [] {
      var t' := (t - {order[0]})[Target(order[0], from, to) := t[order[0]]];
      RenameKeys(t', order[1..], from, to, k);
      assert order == [order[0]] + order[1..];
    }
  }

  lemma {:induction false} RenameStays(t: Tree, order: seq<Path>, from: Path, to: Path, k: Path)
    requires Movable(t, order, from) && k in t && k !in order && k !in Targets(order, from, to)
    ensures var r := RenameLoop(t, order, from, to); k in r && r[k] == t[k]
    decreases |order|
  {
    if order != [] {
      var k0, rest := order[0], order[1..];
      var t' := (t - {k0})[Target(k0, from, to) := t[k0]];
      assert order == [k0] + rest;
      assert k != Targets(order, from, to)[0];
      forall i | 0 <= i < |rest| ensures Targets(rest, from, to)[i] != k {
        assert Targets(order, from, to)[i + 1] != k;
      }
      RenameStays(t', rest, from, to, k);
    }
  }

  lemma {:induction false} RenameArrives(t: Tree, order: seq<Path>, from: Path, to: Path, k: Path)
    requires Movable(t, order, from) && NoClobber(order, from, to) && k in order
    ensures var r := RenameLoop(t, order, from, to);
            Target(k, from, to) in r && r[Target(k, from, to)] == t[k]
    decreases |order|
  {
    var k0, rest := order[0], order[1..];
    var home := Target(k0, from, to);
    var t' := (t - {k0})[home := t[k0]];
    if k != k0 {
      assert k in rest;
      RenameArrives(t', rest, from, to, k);
    } else {
      HomeIsFree(order, from, to);
      RenameStays(t', rest, from, to, home);
    }
  }

  /** No later key has, or moves to, the first key's new name. */
  lemma HomeIsFree(order: seq<Path>, from: Path, to: Path)
    requires order != [] && forall i :: 0 <= i < |order| ==> Under(from, order[i])
    requires NoClobber(order, from, to) && forall i, j :: 0 <= i < j < |order| ==> order[i] != order[j]
    ensures var home := Target(order[0], from, to); home !in order[1..] && home !in Targets(order[1..], from, to)
  {
    var rest, home := order[1..], Target(order[0], from, to);
    assert forall i :: 0 <= i < |rest| ==> rest[i] == order[i + 1];
    TargetInjective(from, to);
    forall i | 0 <= i < |rest| ensures Targets(rest, from, to)[i] != home {
      assert Target(order[i + 1], from, to) != home;
    }
  }

  /** Without clobbering every node arrives unchanged and the rest stays put. */
  lemma RenameValues(t: Tree, order: seq<Path>, from: Path, to: Path, k: Path)
    requires Movable(t, order, from) && NoClobber(order, from, to)
    ensures k in order ==>
              var r := RenameLoop(t, order, from, to);
              Target(k, from, to) in r && r[Target(k, from, to)] == t[k]
    ensures k in t && k !in order && k !in Targets(order, from, to) ==>
              var r := RenameLoop(t, order, from, to);
              k in r && r[k] == t[k]
  {
    if k in order {
      RenameArrives(t, order, from, to, k);
    }
    if k in t && k !in order && k !in Targets(order, from, to) {
      RenameStays(t, order, from, to, k);
    }
  }

  lemma ClobberingLosesKey(t: Tree, order: seq<Path>, from: Path, to: Path)
    requires Enumerates(order, t, from) && !NoClobber(order, from, to)
    ensures exists k :: k in Moved(t, from, to) && k !in RenameLoop(t, order, from, to)
  {
    var i, j :| 0 <= i < j < |order| && Target(order[i], from, to) == order[j];
    var k := order[j];
    assert order[i] in Subtree(t, from);
    assert k in Moved(t, from, to);
    RenameKeys(t, order, from, to, k);
    forall n | 0 <= n < |order| && Target(order[n], from, to) == k
      ensures k in order[n + 1..]
    {
      TargetInjective(from, to);
      assert n == i;
      assert order[n + 1..][j - n - 1] == k;
    }
  }

  lemma UnclobberedMoves(t: Tree, order: seq<Path>, from: Path, to: Path)
    requires Enumerates(order, t, from) && NoClobber(order, from, to)
    ensures RenameLoop(t, order, from, to) == Moved(t, from, to)
  {
    var r, want := RenameLoop(t, order, from, to), Moved(t, from, to);
    assert forall k :: k in order <==> k in Subtree(t, from);
    forall k ensures k in r <==> k in want {
      RenameKeys(t, order, from, to, k);
    }
    forall k | k in want ensures r[k] == want[k] {
      if s :| s in Subtree(t, from) && Target(s, from, to) == k {
        RenameValues(t, order, from, to, s);
        TargetInjective(from, to);
      } else {
        RenameValues(t, order, from, to, k);
        assert forall i :: 0 <= i < |order| ==> order[i] in Subtree(t, from);
      }
    }
  }

  /** `sync_rename` means "move the subtree" exactly when no key lands on a
      source key whose turn is still to come. */
  lemma RenameMovesSubtree(t: Tree, order: seq<Path>, from: Path, to: Path)
    requires Enumerates(order, t, from)
    ensures RenameLoop(t, order, from, to) == Moved(t, from, to) <==> NoClobber(order, from, to)
  {
    if NoClobber(order, from, to) {
      UnclobberedMoves(t, order, from, to);
    } else {
      ClobberingLosesKey(t, order, from, to);
    }
  }

  lemma Nested(a: Path, b: Path, p: Path)
    ensures Under(a, p) && Under(b, p) ==> Under(a, b) || Under(b, a)
  {
    if Under(a, p) && Under(b, p) {
      assert p[..|a|] == a && p[..|b|] == b;
    }
  }

  /** Moving between places of which neither contains the other never clobbers,
      and neither does renaming a single node. */
  lemma RenameUsuallyMoves(t: Tree, order: seq<Path>, from: Path, to: Path)
    requires Enumerates(order, t, from)
    requires (!Under(to, from) && !Under(from, to)) || from == to || |order| == 1
    ensures RenameLoop(t, order, from, to) == Moved(t, from, to)
  {
    forall i, j | 0 <= i < j < |order|
      ensures Target(order[i], from, to) != order[j]
    {
      Nested(to, from, Target(order[i], from, to));
      assert from == to ==> Target(order[i], from, to) == order[i];
    }
    RenameMovesSubtree(t, order, from, to);
  }

  /** When the last key is written over just before its turn, the node that was
      there is lost and the intruder travels on in its place. */
  lemma ClobberedNodeLost(t: Tree, order: seq<Path>, from: Path, to: Path)
    requires Movable(t, order, from) && |order| >= 2
    requires Target(order[|order| - 2], from, to) == order[|order| - 1]
    requires forall i :: 0 <= i < |order| - 2 ==> Target(order[i], from, to) != order[|order| - 2]
    ensures var r := RenameLoop(t, order, from, to);
            var home := Target(order[|order| - 1], from, to);
            home in r && r[home] == t[order[|order| - 2]]
    decreases |order|
  {
    var k0, rest := order[0], order[1..];
    assert order == [k0] + rest;
    RenameUnfold(t, k0, rest, from, to);
    var t' := (t - {k0})[Target(k0, from, to) := t[k0]];
    assert forall i :: 0 <= i < |rest| ==> rest[i] == order[i + 1];
    if |order| == 2 {
      RenameUnfold(t', rest[0], [], from, to);
      assert rest == [rest[0]] + [];
    } else {
      ClobberedNodeLost(t', rest, from, to);
    }
  }

  /** Pulling `/a/b` up onto `/a` loses the file `/a/b/x` when `/a/b/b/x` exists
      too: the keys are in BTreeMap order, and `/a/x` ends up with the other bytes. */
  lemma RenameClobbers(one: Bytes, two: Bytes)
    ensures var t: Tree := map[["a"] := Dir, ["a", "b"] := Dir, ["a", "b", "b"] := Dir,
                               ["a", "b", "b", "x"] := File(one), ["a", "b", "x"] := File(two)];
            var order := [["a", "b"], ["a", "b", "b"], ["a", "b", "b", "x"], ["a", "b", "x"]];
            && Enumerates(order, t, ["a", "b"])
            && (var r := RenameLoop(t, order, ["a", "b"], ["a"]);
                ["a", "x"] in r && r[["a", "x"]] == File(one))
  {
    var t: Tree := map[["a"] := Dir, ["a", "b"] := Dir, ["a", "b", "b"] := Dir,
                       ["a", "b", "b", "x"] := File(one), ["a", "b", "x"] := File(two)];
    var order := [["a", "b"], ["a", "b", "b"], ["a", "b", "b", "x"], ["a", "b", "x"]];
    var from, to := ["a", "b"], ["a"];
    assert !Under(from, ["a"]);
    assert Target(order[0], from, to) == ["a"] && Target(order[1], from, to) == ["a", "b"];
    assert Target(order[2], from, to) == order[3] && Target(order[3], from, to) == ["a", "x"];
    ClobberedNodeLost(t, order, from, to);
  }

  lemma RenameUnfold(t: Tree, k: Path, rest: seq<Path>, from: Path, to: Path)
    requires Movable(t, [k] + rest, from)
    ensures k in t && Under(from, k)
    ensures var t' := (t - {k})[Target(k, from, to) := t[k]];
            && Movable(t', rest, from)
            && RenameLoop(t, [k] + rest, from, to) == RenameLoop(t', rest, from, to)
  {
    var order := [k] + rest;
    assert order[0] == k && order[1..] == rest && order[0] in t;
    assert forall i :: 0 <= i < |rest| ==> rest[i] == order[i + 1];
  }

  // --- every mutation keeps the tree closed ---

  lemma AncestorsUnder(p: Path, q: Path)
    ensures q in Ancestors(p) <==> Under(q, p) && q != [] && q != p
  {
    if Under(q, p) && q != [] && q != p {
      assert q == p[..|q|];
    }
  }

  /** An ancestor of a moved key is a moved key, or was there above the target. */
  lemma MovedHasAncestors(t: Tree, from: Path, to: Path, s: Path, q: Path)
    requires Closed(t) && Ancestors(to) <= t.Keys && (Under(from, to) ==> from == to)
    requires s in Subtree(t, from) && Under(q, Target(s, from, to)) && q != []
    ensures q in Moved(t, from, to)
  {
    var p := Target(s, from, to);
    if |to| <= |q| {
      var s' := from + q[|to|..];
      assert q == to + q[|to|..] && s == from + s[|from|..];
      assert p[|to|..] == s[|from|..];
      assert Under(s', s) by { assert s[..|s'|] == s'; }
      assert q[|to|..] == [] ==> q == to;
      assert s' in Subtree(t, from) && Target(s', from, to) == q;
    } else {
      AncestorsUnder(to, q);
      assert Under(q, to) by { assert p[..|q|] == to[..|q|]; }
      assert q in t && !Under(from, q);
    }
  }

  lemma MovedKeys(t: Tree, from: Path, to: Path, p: Path)
    requires p in Moved(t, from, to)
    ensures p in WithoutSubtree(t, from) || exists s :: s in Subtree(t, from) && Target(s, from, to) == p
  {
    assert p in WithoutSubtree(t, from).Keys || p in set s | s in Subtree(t, from) :: Target(s, from, to);
  }

  lemma MovedClosed(t: Tree, from: Path, to: Path)
    requires Closed(t)
    requires Ancestors(to) <= t.Keys && (Under(from, to) ==> from == to)
    ensures Closed(Moved(t, from, to))
  {
    var r := Moved(t, from, to);
    forall p, q | p in r && Under(q, p) && q != []
      ensures q in r
    {
      MovedKeys(t, from, to, p);
      if s :| s in Subtree(t, from) && Target(s, from, to) == p {
        MovedHasAncestors(t, from, to, s, q);
      } else {
        assert p in WithoutSubtree(t, from);
        assert q in WithoutSubtree(t, from);
      }
    }
  }

  /** Under the callers' guarantees every key keeps all its ancestors. */
  lemma ApplyKeepsClosed(t: Tree, m: Mutation)
    requires Closed(t) && Legal(t, m)
    ensures Closed(Apply(t, m).tree)
  {
    match m
    case Write(p, data) =>
      forall q { AncestorsUnder(p, q); }
      forall d, q { AncestorsUnder(d, q); }
    case CreateDir(p) =>
      forall q { AncestorsUnder(p, q); }
    case CreateDirAll(p) =>
      forall q { AncestorsUnder(p, q); }
    case RemoveTree(p) =>
    case RemoveNode(p) =>
      forall k, q | k in t && k != p && Under(q, k) && q != []
        ensures q in t - {p}
      {
        assert Under(p, k) ==> k in Subtree(t, p);
      }
    case Rename(from, to, order) =>
      if order != [] {
        RenameMovesSubtree(t, order, from, to);
        MovedClosed(t, from, to);
      }
    case SetLen(p, size) =>
    case WriteAt(p, pos, buf) =>
  }
}
