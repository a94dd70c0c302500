/** Path spellings and their normal form.

    A memfs key is the list of its names below the root; `[]` is "/".  A raw
    spelling is a string, read the way `std::path::Path::components` reads it. */
module Paths {

  type Path = seq<string>

  datatype Component = RootDir | CurDir | ParentDir | Normal(name: string)

  /** The pieces between separators, empty ones included. */
  function Split(s: string): (pieces: seq<string>)
    ensures |pieces| >= 1
    ensures forall i :: 0 <= i < |pieces| ==> '/' !in pieces[i]
  {
    if s == "" then [""] else Extend(s[0], Split(s[1..]))
  }

  /** One more character in front of split pieces. */
  function Extend(c: char, rest: seq<string>): (pieces: seq<string>)
    requires |rest| >= 1
    ensures |pieces| >= 1
    ensures (forall i :: 0 <= i < |rest| ==> '/' !in rest[i]) ==> forall i :: 0 <= i < |pieces| ==> '/' !in pieces[i]
  {
    if c == '/' then [""] + rest else [[c] + rest[0]] + rest[1..]
  }

  function PieceComponents(pieces: seq<string>): seq<Component> {
    if pieces == [] then []
    else
      var rest := PieceComponents(pieces[1..]);
      if pieces[0] == "" || pieces[0] == "." then rest
      else if pieces[0] == ".." then [ParentDir] + rest
      else [Normal(pieces[0])] + rest
  }

  /** `Path::components`: repeated separators and inner "." vanish; a "." that
      starts a relative spelling is kept. */
  function Components(s: string): seq<Component> {
    var pieces := Split(s);
    var body := PieceComponents(pieces);
    if s != "" && s[0] == '/' then [RootDir] + body
    else if pieces[0] == "." then [CurDir] + body
    else body
  }

  function Pop(p: Path): Path {
    if p == [] then [] else p[..|p| - 1]
  }

  function Walk(out: Path, cs: seq<Component>): Path
    decreases |cs|
  {
    if cs == [] then out
    else match cs[0]
      case RootDir => Walk(out, cs[1..])
      case CurDir => Walk(out, cs[1..])
      case ParentDir => Walk(Pop(out), cs[1..])
      case Normal(name) => Walk(out + [name], cs[1..])
  }

  /** The memfs key a spelling denotes. */
  function Normalized(s: string): Path {
    Walk([], Components(s))
  }

  method Normalize(s: string) returns (out: Path)
    ensures out == Normalized(s)
  {
    out := [];
    var cs := Components(s);
    for i := 0 to |cs|
      invariant Walk(out, cs[i..]) == Normalized(s)
    {
      assert cs[i..][1..] == cs[i + 1..];
      match cs[i] {
        case RootDir =>
        case CurDir =>
        case ParentDir => out := Pop(out);
        case Normal(name) => out := out + [name];
      }
    }
  }

  predicate ValidName(name: string) {
    name != "" && name != "." && name != ".." && '/' !in name
  }

  predicate ValidPath(p: Path) {
    forall i :: 0 <= i < |p| ==> ValidName(p[i])
  }

  /** The absolute spelling of a key. */
  function Render(p: Path): string {
    if p == [] then "/" else RenderBelow(p)
  }

  function RenderBelow(p: Path): string {
    if p == [] then "" else "/" + p[0] + RenderBelow(p[1..])
  }

  /** `Path::join` with a relative suffix. */
  function Join(base: string, rel: string): string {
    if base != "" && base[|base| - 1] == '/' then base + rel else base + "/" + rel
  }

  // `Path::file_name`, `Path::parent` and `Path::starts_with`.

  function FileName(cs: seq<Component>): string {
    if cs != [] && cs[|cs| - 1].Normal? then cs[|cs| - 1].name else ""
  }

  predicate HasParent(cs: seq<Component>) {
    cs != [] && cs[|cs| - 1] != RootDir
  }

  function Parent(cs: seq<Component>): seq<Component>
    requires HasParent(cs)
  {
    cs[..|cs| - 1]
  }

  // --- what normalization guarantees ---

  lemma {:induction false} WalkKeepsNames(out: Path, pieces: seq<string>)
    requires ValidPath(out)
    requires forall i :: 0 <= i < |pieces| ==> '/' !in pieces[i]
    ensures ValidPath(Walk(out, PieceComponents(pieces)))
    decreases |pieces|
  {
    if pieces != [] {
      var rest := pieces[1..];
      assert forall i :: 0 <= i < |rest| ==> rest[i] == pieces[i + 1];
      var cs := PieceComponents(pieces);
      if pieces[0] == "" || pieces[0] == "." {
        WalkKeepsNames(out, rest);
      } else if pieces[0] == ".." {
        assert cs[1..] == PieceComponents(rest);
        WalkKeepsNames(Pop(out), rest);
      } else {
        assert cs[1..] == PieceComponents(rest);
        WalkKeepsNames(out + [pieces[0]], rest);
      }
    }
  }

  /** Every spelling denotes a key of real names: no "", ".", ".." or separator. */
  lemma NormalizedIsValid(s: string)
    ensures ValidPath(Normalized(s))
  {
    var pieces := Split(s);
    var cs := Components(s);
    WalkKeepsNames([], pieces);
    if cs != [] && (cs[0] == RootDir || cs[0] == CurDir) && cs != PieceComponents(pieces) {
      assert cs[1..] == PieceComponents(pieces);
    }
  }

  lemma {:induction false} SplitConcat(a: string, b: string)
    ensures Split(a + "/" + b) == Split(a) + Split(b)
  {
    if a == "" {
      assert ("/" + b)[1..] == b;
      assert a + "/" + b == "/" + b;
    } else {
      assert (a + "/" + b)[1..] == a[1..] + "/" + b;
      SplitConcat(a[1..], b);
    }
  }

  lemma {:induction false} PiecesConcat(a: seq<string>, b: seq<string>)
    ensures PieceComponents(a + b) == PieceComponents(a) + PieceComponents(b)
  {
    if a == [] {
      assert a + b == b;
    } else {
      assert (a + b)[1..] == a[1..] + b;
      PiecesConcat(a[1..], b);
    }
  }

  lemma {:induction false} WalkConcat(out: Path, a: seq<Component>, b: seq<Component>)
    ensures Walk(out, a + b) == Walk(Walk(out, a), b)
    decreases |a|
  {
    if a == [] {
      assert a + b == b;
    } else {
      assert (a + b)[1..] == a[1..] + b;
      match a[0]
      case RootDir => WalkConcat(out, a[1..], b);
      case CurDir => WalkConcat(out, a[1..], b);
      case ParentDir => WalkConcat(Pop(out), a[1..], b);
      case Normal(name) => WalkConcat(out + [name], a[1..], b);
    }
  }

  lemma {:induction false} SplitPlain(s: string)
    requires '/' !in s
    ensures Split(s) == [s]
  {
    if s != "" {
      SplitPlain(s[1..]);
      assert [s[0]] + s[1..] == s;
    }
  }

  lemma SplitName(name: string, tail: string)
    requires '/' !in name && tail != "" && tail[0] == '/'
    ensures Split(tail)[1..] == Split(tail[1..]) && Split(name + tail) == [name] + Split(tail[1..])
  {
    assert name + tail == name + "/" + tail[1..];
    SplitConcat(name, tail[1..]);
    SplitPlain(name);
  }

  /** A rendered key splits back into exactly its names. */
  lemma {:induction false} SplitRender(p: Path)
    requires ValidPath(p)
    ensures Split(RenderBelow(p)) == [""] + p
  {
    if p != [] {
      var tail := RenderBelow(p[1..]);
      SplitRender(p[1..]);
      assert RenderBelow(p)[1..] == p[0] + tail;
      if p[1..] == [] {
        assert p[0] + tail == p[0];
        SplitPlain(p[0]);
        assert p == [p[0]];
      } else {
        SplitName(p[0], tail);
        assert p == [p[0]] + p[1..];
      }
    }
  }

  lemma {:induction false} WalkNames(out: Path, p: Path)
    requires ValidPath(p)
    ensures Walk(out, PieceComponents(p)) == out + p
    decreases |p|
  {
    if p == [] {
      assert out + p == out;
    } else {
      var cs := PieceComponents(p);
      assert ValidName(p[0]);
      assert cs[0] == Normal(p[0]) && cs[1..] == PieceComponents(p[1..]);
      assert out + [p[0]] + p[1..] == out + p;
      assert forall i :: 0 <= i < |p[1..]| ==> p[1..][i] == p[i + 1];
      WalkNames(out + [p[0]], p[1..]);
    }
  }

  /** Rendering a key and normalizing it again is the identity. */
  lemma RenderRoundTrip(p: Path)
    requires ValidPath(p)
    ensures Normalized(Render(p)) == p
  {
    if p == [] {
      assert Split("/") == ["", ""] by { SplitConcat("", ""); }
      assert PieceComponents(["", ""]) == [];
    } else {
      SplitRender(p);
      assert ([""] + p)[1..] == p;
      assert Components(Render(p))[1..] == PieceComponents(p);
      WalkNames([], p);
    }
  }

  /** `normalize` is idempotent on spellings. */
  lemma NormalizeIdempotent(s: string)
    ensures Normalized(Render(Normalized(s))) == Normalized(s)
  {
    NormalizedIsValid(s);
    RenderRoundTrip(Normalized(s));
  }

  /** The key of a spelling, whatever begins it, is the walk over its pieces. */
  lemma NormalizedIsWalk(s: string)
    ensures Normalized(s) == Walk([], PieceComponents(Split(s)))
  {
    var pieces := Split(s);
    if s != "" && s[0] == '/' {
      assert ([RootDir] + PieceComponents(pieces))[1..] == PieceComponents(pieces);
    } else if pieces[0] == "." {
      assert ([CurDir] + PieceComponents(pieces))[1..] == PieceComponents(pieces);
    }
  }

  /** The key one piece further: an empty piece and "." stay, ".." goes up and stays
      at the root, any other name goes down. */
  function Further(p: Path, piece: string): Path {
    if piece == "" || piece == "." then p
    else if piece == ".." then if p == [] then [] else p[..|p| - 1]
    else p + [piece]
  }

  lemma WalkPiece(out: Path, piece: string)
    ensures Walk(out, PieceComponents([piece])) == Further(out, piece)
  {
    assert [piece][1..] == [];
    assert PieceComponents([]) == [];
    if !(piece == "" || piece == ".") {
      var c := if piece == ".." then ParentDir else Normal(piece);
      assert PieceComponents([piece]) == [c] && [c][1..] == [];
    }
  }

  /** Every spelling is a single piece, or a shorter spelling with one piece more, so
      these two say what every spelling denotes. */
  lemma NormalizePieces(s: string, piece: string)
    requires '/' !in piece
    ensures Normalized(piece) == Further([], piece)
    ensures Normalized(s + "/" + piece) == Further(Normalized(s), piece)
  {
    SplitPlain(piece);
    NormalizedIsWalk(piece);
    WalkPiece([], piece);
    SplitConcat(s, piece);
    NormalizedIsWalk(s + "/" + piece);
    NormalizedIsWalk(s);
    PiecesConcat(Split(s), [piece]);
    WalkConcat([], PieceComponents(Split(s)), PieceComponents([piece]));
    WalkPiece(Normalized(s), piece);
  }

  lemma {:induction false} WalkOnlyDescends(out: Path, cs: seq<Component>)
    requires ParentDir !in cs
    ensures out <= Walk(out, cs)
    decreases |cs|
  {
    if cs != [] {
      var next := if cs[0].Normal? then out + [cs[0].name] else out;
      WalkOnlyDescends(next, cs[1..]);
    }
  }

  /** Joining a relative suffix without ".." never leaves the base. */
  lemma JoinStaysBelow(base: Path, rel: string)
    requires ValidPath(base)
    requires rel != "" && rel[0] != '/' && ParentDir !in Components(rel)
    ensures base <= Normalized(Join(Render(base), rel))
  {
    var left := if base == [] then "" else Render(base);
    var s := Join(Render(base), rel);
    if base != [] {
      SplitRender(base);
      RenderEndsInName(base);
    }
    assert s == left + "/" + rel;
    SplitConcat(left, rel);
    PiecesConcat(Split(left), Split(rel));
    var cs := PieceComponents(Split(rel));
    assert forall c :: c in cs ==> c in Components(rel);
    var head := PieceComponents(Split(left));
    WalkConcat([], head, cs);
    assert Walk([], head) == base by {
      if base != [] {
        assert ([""] + base)[1..] == base;
        WalkNames([], base);
      }
    }
    assert Components(s)[1..] == head + cs;
    WalkOnlyDescends(base, cs);
  }

  lemma {:induction false} RenderEndsInName(p: Path)
    requires ValidPath(p) && p != []
    ensures var s := RenderBelow(p); s != "" && s[0] == '/' && s[|s| - 1] != '/'
  {
    var s := RenderBelow(p);
    if p[1..] == [] {
      assert RenderBelow(p[1..]) == "";
      assert s == "/" + p[0];
      assert s[|s| - 1] == p[0][|p[0]| - 1];
    } else {
      RenderEndsInName(p[1..]);
      assert s[|s| - 1] == RenderBelow(p[1..])[|RenderBelow(p[1..])| - 1];
    }
  }
}
