/** GNU sparse entries without extension headers (`poll_parse_sparse_header`): the
    list of pads and data reads means exactly the file the header describes. */
module TarSparse {
  import opened Wrappers

  const BLOCK := 512
  const U64 := 0x1_0000_0000_0000_0000

  type Bytes = seq<bv8>

  /** A sparse descriptor as it decodes; `None` where a field is malformed. */
  datatype Descriptor = Descriptor(empty: bool, offset: Option<nat>, length: Option<nat>)

  datatype Region = Region(off: nat, len: nat)

  /** What a read of the entry goes through. */
  datatype Piece = Pad(n: nat) | Data(n: nat)

  datatype Error = Malformed | Misaligned | OutOfOrder | TooLarge | TooMuchData | WrongSize | TooLittleData

  datatype Parsed = Accepted(pieces: seq<Piece>, size: nat) | Refused(error: Error)

  predicate Fits(d: Descriptor) {
    (d.offset.Some? ==> d.offset.value < U64) && (d.length.Some? ==> d.length.value < U64)
  }

  // --- what is meant ---

  /** The regions of the first `i` descriptors. */
  function RegionsTo(ds: seq<Descriptor>, i: nat): seq<Region>
    requires i <= |ds|
  {
    if i == 0 then [] else RegionsTo(ds, i - 1) + Used(ds[i - 1])
  }

  /** The descriptors in use. */
  function Regions(ds: seq<Descriptor>): seq<Region> {
    RegionsTo(ds, |ds|)
  }

  /** Archived bytes of the first regions. */
  function Archived(rs: seq<Region>): nat {
    if rs == [] then 0 else Archived(rs[..|rs| - 1]) + rs[|rs| - 1].len
  }

  /** End of the last region. */
  function End(rs: seq<Region>): nat {
    if rs == [] then 0 else rs[|rs| - 1].off + rs[|rs| - 1].len
  }

  /** Region `r` of `file` is the archive's bytes from `at`. */
  ghost predicate Holds(file: Bytes, r: Region, at: nat, arch: Bytes) {
    && r.off + r.len <= |file| && at + r.len <= |arch|
    && file[r.off..r.off + r.len] == arch[at..at + r.len]
  }

  ghost predicate Covered(rs: seq<Region>, p: nat) {
    exists i :: 0 <= i < |rs| && rs[i].off <= p < rs[i].off + rs[i].len
  }

  /** `file` has the archive's bytes, in order, at the listed offsets, and zeros
      everywhere else. */
  ghost predicate IsSparseFile(file: Bytes, rs: seq<Region>, arch: Bytes) {
    && (forall i :: 0 <= i < |rs| ==> Holds(file, rs[i], Archived(rs[..i]), arch))
    && (forall p :: 0 <= p < |file| && !Covered(rs, p) ==> file[p] == 0)
  }

  /** Regions in order, in range, each but the last non-empty one whole blocks. */
  ghost predicate WellFormed(rs: seq<Region>) {
    rs == [] || (
      var front, r := rs[..|rs| - 1], rs[|rs| - 1];
      WellFormed(front) && r.off >= End(front) && r.off + r.len < U64 && (r.len != 0 ==> Archived(front) % BLOCK == 0))
  }

  ghost predicate Decodes(ds: seq<Descriptor>) {
    forall i :: 0 <= i < |ds| && !ds[i].empty ==> ds[i].offset.Some? && ds[i].length.Some?
  }

  // --- what is read ---

  function Taken(ps: seq<Piece>): nat {
    if ps == [] then 0 else Taken(ps[..|ps| - 1]) + match ps[|ps| - 1] case Pad(_) => 0 case Data(n) => n
  }

  function Zeros(n: nat): (z: Bytes)
    ensures |z| == n && forall i :: 0 <= i < n ==> z[i] == 0
  {
    seq(n, _ => 0)
  }

  /** The bytes a reader of the entry gets. */
  function Expand(ps: seq<Piece>, arch: Bytes): Bytes
    requires Taken(ps) <= |arch|
  {
    if ps == [] then []
    else
      var front := ps[..|ps| - 1];
      Expand(front, arch) + match ps[|ps| - 1] case Pad(n) => Zeros(n) case Data(n) => arch[Taken(front)..Taken(front) + n]
  }

  lemma ExpandAppend(ps: seq<Piece>, p: Piece, arch: Bytes)
    requires Taken(ps) + (match p case Pad(_) => 0 case Data(n) => n) <= |arch|
    ensures Taken(ps + [p]) == Taken(ps) + match p case Pad(_) => 0 case Data(n) => n
    ensures Expand(ps + [p], arch) == Expand(ps, arch) + match p case Pad(n) => Zeros(n) case Data(n) => arch[Taken(ps)..Taken(ps) + n]
  {
    var next := ps + [p];
    assert next[..|next| - 1] == ps && next[|next| - 1] == p;
  }

  lemma {:induction false} ArchivedGrows(rs: seq<Region>, i: nat)
    requires i < |rs|
    ensures Archived(rs[..i]) + rs[i].len <= Archived(rs)
  {
    var front := rs[..|rs| - 1];
    if i < |rs| - 1 {
      ArchivedGrows(front, i);
      assert front[..i] == rs[..i];
    } else {
      assert rs[..i] == front;
    }
  }

  /** One more region: pad up to it, then its data. */
  function Longer(file: Bytes, rs: seq<Region>, r: Region, arch: Bytes): Bytes
    requires r.off >= End(rs) && Archived(rs) + r.len <= |arch|
  {
    file + Zeros(r.off - End(rs)) + arch[Archived(rs)..Archived(rs) + r.len]
  }

  lemma HoldsInLonger(file: Bytes, more: Bytes, r: Region, at: nat, arch: Bytes)
    requires Holds(file, r, at, arch)
    ensures Holds(file + more, r, at, arch)
  {
    assert (file + more)[r.off..r.off + r.len] == file[r.off..r.off + r.len];
  }

  lemma RegionsAppend(file: Bytes, rs: seq<Region>, r: Region, arch: Bytes)
    requires IsSparseFile(file, rs, arch) && |file| == End(rs) && r.off >= End(rs) && Archived(rs) + r.len <= |arch|
    ensures forall i :: 0 <= i < |rs + [r]| ==> Holds(Longer(file, rs, r, arch), (rs + [r])[i], Archived((rs + [r])[..i]), arch)
  {
    forall i | 0 <= i < |rs + [r]|
      ensures Holds(Longer(file, rs, r, arch), (rs + [r])[i], Archived((rs + [r])[..i]), arch)
    {
      if i < |rs| {
        assert (rs + [r])[..i] == rs[..i];
        HoldsInLonger(file, Zeros(r.off - End(rs)) + arch[Archived(rs)..Archived(rs) + r.len], rs[i], Archived(rs[..i]), arch);
        LongerIsMore(file, rs, r, arch);
      } else {
        assert (rs + [r])[..i] == rs;
        LastInLonger(file, rs, r, arch);
      }
    }
  }

  lemma LongerIsMore(file: Bytes, rs: seq<Region>, r: Region, arch: Bytes)
    requires r.off >= End(rs) && Archived(rs) + r.len <= |arch|
    ensures Longer(file, rs, r, arch) == file + (Zeros(r.off - End(rs)) + arch[Archived(rs)..Archived(rs) + r.len])
  {
  }

  lemma LastInLonger(file: Bytes, rs: seq<Region>, r: Region, arch: Bytes)
    requires |file| == End(rs) && r.off >= End(rs) && Archived(rs) + r.len <= |arch|
    ensures Holds(Longer(file, rs, r, arch), r, Archived(rs), arch)
  {
    var data := arch[Archived(rs)..Archived(rs) + r.len];
    assert Longer(file, rs, r, arch)[r.off..r.off + r.len] == data;
  }

  lemma BlanksAppend(file: Bytes, rs: seq<Region>, r: Region, arch: Bytes)
    requires IsSparseFile(file, rs, arch) && |file| == End(rs) && r.off >= End(rs) && Archived(rs) + r.len <= |arch|
    ensures var longer := Longer(file, rs, r, arch);
            |longer| == End(rs + [r]) && forall p :: 0 <= p < |longer| && !Covered(rs + [r], p) ==> longer[p] == 0
  {
    var longer, s := Longer(file, rs, r, arch), rs + [r];
    assert s[|rs|] == r;
    CoveredAppend(rs, r);
    assert forall p :: 0 <= p < |file| ==> longer[p] == file[p];
  }

  lemma CoveredAppend(rs: seq<Region>, r: Region)
    ensures forall p: nat :: Covered(rs, p) || r.off <= p < r.off + r.len ==> Covered(rs + [r], p)
  {
    forall p: nat | Covered(rs, p) || r.off <= p < r.off + r.len ensures Covered(rs + [r], p) {
      assert (rs + [r])[|rs|] == r;
      assert forall i :: 0 <= i < |rs| ==> (rs + [r])[i] == rs[i];
    }
  }

  /** The pieces mean the regions, for this archive. */
  ghost predicate Means(ps: seq<Piece>, rs: seq<Region>, arch: Bytes) {
    Taken(ps) <= |arch| && IsSparseFile(Expand(ps, arch), rs, arch) && |Expand(ps, arch)| == End(rs)
  }

  function Padded(ps: seq<Piece>, gap: nat): seq<Piece> {
    if gap > 0 then ps + [Pad(gap)] else ps
  }

  function Next(ps: seq<Piece>, rs: seq<Region>, r: Region): seq<Piece> {
    Padded(ps, if End(rs) < r.off then r.off - End(rs) else 0) + [Data(r.len)]
  }

  /** The list built for the regions. */
  function PiecesOf(rs: seq<Region>): seq<Piece> {
    if rs == [] then [] else Next(PiecesOf(rs[..|rs| - 1]), rs[..|rs| - 1], rs[|rs| - 1])
  }

  lemma {:induction false} PiecesTake(rs: seq<Region>)
    ensures Taken(PiecesOf(rs)) == Archived(rs)
  {
    if rs != [] {
      var front, r := rs[..|rs| - 1], rs[|rs| - 1];
      PiecesTake(front);
      NextTakes(PiecesOf(front), front, r);
    }
  }

  lemma NextTakes(ps: seq<Piece>, rs: seq<Region>, r: Region)
    ensures Taken(Next(ps, rs, r)) == Taken(ps) + r.len
  {
    var gap := if End(rs) < r.off then r.off - End(rs) else 0;
    PaddedTakes(ps, gap);
    assert Next(ps, rs, r)[..|Padded(ps, gap)|] == Padded(ps, gap);
  }

  lemma PaddedTakes(ps: seq<Piece>, gap: nat)
    ensures Taken(Padded(ps, gap)) == Taken(ps)
  {
    if gap > 0 {
      assert Padded(ps, gap)[..|ps|] == ps;
    }
  }

  lemma ExpandPadded(ps: seq<Piece>, gap: nat, arch: Bytes)
    requires Taken(ps) <= |arch|
    ensures Taken(Padded(ps, gap)) == Taken(ps) && Expand(Padded(ps, gap), arch) == Expand(ps, arch) + Zeros(gap)
  {
    PaddedTakes(ps, gap);
    if gap > 0 {
      ExpandAppend(ps, Pad(gap), arch);
    } else {
      assert Expand(ps, arch) + Zeros(0) == Expand(ps, arch);
    }
  }

  /** Sparse expansion preserves meaning: whatever bytes the archive holds, reading
      the list gives exactly the file the header describes. */
  lemma {:induction false} ExpansionIsTheFile(rs: seq<Region>, arch: Bytes)
    requires WellFormed(rs) && Archived(rs) <= |arch|
    ensures Means(PiecesOf(rs), rs, arch)
  {
    if rs != [] {
      var front, r := rs[..|rs| - 1], rs[|rs| - 1];
      assert rs == front + [r];
      ExpansionIsTheFile(front, arch);
      PiecesTake(front);
      MeansNext(PiecesOf(front), front, r, arch);
    }
  }

  lemma MeansNext(ps: seq<Piece>, rs: seq<Region>, r: Region, arch: Bytes)
    requires Means(ps, rs, arch) && Taken(ps) == Archived(rs) && r.off >= End(rs) && Archived(rs) + r.len <= |arch|
    ensures Means(Next(ps, rs, r), rs + [r], arch)
  {
    ExpandNext(ps, rs, r, arch);
    RegionsAppend(Expand(ps, arch), rs, r, arch);
    BlanksAppend(Expand(ps, arch), rs, r, arch);
  }

  lemma ExpandNext(ps: seq<Piece>, rs: seq<Region>, r: Region, arch: Bytes)
    requires Taken(ps) == Archived(rs) && r.off >= End(rs) && Archived(rs) + r.len <= |arch|
    ensures Taken(Next(ps, rs, r)) == Taken(ps) + r.len
    ensures Expand(Next(ps, rs, r), arch) == Longer(Expand(ps, arch), rs, r, arch)
  {
    NextTakes(ps, rs, r);
    ExpandPadData(ps, r.off - End(rs), r.len, arch);
  }

  lemma ExpandPadData(ps: seq<Piece>, gap: nat, n: nat, arch: Bytes)
    requires Taken(ps) + n <= |arch|
    ensures var next := Padded(ps, gap) + [Data(n)];
            && Taken(next) <= |arch|
            && Expand(next, arch) == Expand(ps, arch) + Zeros(gap) + arch[Taken(ps)..Taken(ps) + n]
  {
    var padded := Padded(ps, gap);
    ExpandPadded(ps, gap, arch);
    ExpandAppend(padded, Data(n), arch);
    assert Expand(padded + [Data(n)], arch) == Expand(padded, arch) + arch[Taken(ps)..Taken(ps) + n];
  }

  // --- the parser ---

  /** The region a usable descriptor stands for. */
  function Used(d: Descriptor): seq<Region> {
    if d.empty || d.offset == None || d.length == None then [] else [Region(d.offset.value, d.length.value)]
  }

  predicate Bad(d: Descriptor) {
    !d.empty && (d.offset == None || d.length == None)
  }

  ghost predicate Acceptable(rs: seq<Region>, size: nat) {
    WellFormed(rs) && Archived(rs) <= size
  }

  /** The accumulators stand for the regions `rs`. */
  ghost predicate Built(rs: seq<Region>, size: nat, data: seq<Piece>, cur: nat, remaining: nat) {
    Acceptable(rs, size) && data == PiecesOf(rs) && cur == End(rs) < U64 && remaining == size - Archived(rs)
  }

  /** Why a descriptor is refused after the regions `rs`. */
  predicate Because(error: Error, d: Descriptor, rs: seq<Region>, size: nat) {
    && !d.empty
    && if d.offset == None || d.length == None then error == Malformed
       else match error
            case Misaligned => d.length.value != 0 && Archived(rs) % 512 != 0
            case OutOfOrder => d.offset.value < End(rs)
            case TooLarge => d.offset.value + d.length.value >= U64
            case TooMuchData => Archived(rs) + d.length.value > size
            case _ => false
  }

  /** `add_block`. */
  method AddBlock(d: Descriptor, data0: seq<Piece>, cur0: nat, remaining0: nat, size: nat, ghost rs: seq<Region>)
    returns (error: Option<Error>, data: seq<Piece>, cur: nat, remaining: nat)
    requires Fits(d) && Built(rs, size, data0, cur0, remaining0)
    ensures error == None ==> !Bad(d) && Built(rs + Used(d), size, data, cur, remaining)
    ensures error.Some? ==> Bad(d) || !Acceptable(rs + Used(d), size)
    ensures error.Some? ==> Because(error.value, d, rs, size)
  {
    error, data, cur, remaining := None, data0, cur0, remaining0;
    if d.empty {
      assert rs + [] == rs;
      return;
    }
    if d.offset == None || d.length == None {
      return Some(Malformed), data, cur, remaining;
    }
    var off, len := d.offset.value, d.length.value;
    assert (rs + [Region(off, len)])[..|rs|] == rs;
    if len != 0 && (size - remaining) % BLOCK != 0 {
      return Some(Misaligned), data, cur, remaining;
    }
    if off < cur {
      return Some(OutOfOrder), data, cur, remaining;
    }
    if off + len >= U64 {
      return Some(TooLarge), data, cur, remaining;
    }
    if remaining < len {
      return Some(TooMuchData), data, cur, remaining;
    }
    if cur < off {
      data := data + [Pad(off - cur)];
    }
    cur, remaining := off + len, remaining - len;
    data := data + [Data(len)];
  }

  /** Some descriptor is bad, or makes the regions so far unacceptable. */
  ghost predicate RefusedAt(ds: seq<Descriptor>, i: nat, size: nat) {
    i < |ds| && (Bad(ds[i]) || !Acceptable(RegionsTo(ds, i + 1), size))
  }

  predicate NoneBad(ds: seq<Descriptor>, n: nat)
    requires n <= |ds|
  {
    forall j :: 0 <= j < n ==> !Bad(ds[j])
  }

  lemma BuiltNothing(ds: seq<Descriptor>, size: nat)
    ensures Built(RegionsTo(ds, 0), size, [], 0, size)
  {
  }

  method AddNext(ds: seq<Descriptor>, i: nat, data0: seq<Piece>, cur0: nat, remaining0: nat, size: nat)
    returns (error: Option<Error>, data: seq<Piece>, cur: nat, remaining: nat)
    requires i < |ds| && Fits(ds[i]) && NoneBad(ds, i) && Built(RegionsTo(ds, i), size, data0, cur0, remaining0)
    ensures error == None ==> NoneBad(ds, i + 1) && Built(RegionsTo(ds, i + 1), size, data, cur, remaining)
    ensures error.Some? ==> RefusedAt(ds, i, size) && Because(error.value, ds[i], RegionsTo(ds, i), size)
  {
    assert RegionsTo(ds, i + 1) == RegionsTo(ds, i) + Used(ds[i]);
    error, data, cur, remaining := AddBlock(ds[i], data0, cur0, remaining0, size, RegionsTo(ds, i));
  }

  method AddBlocks(ds: seq<Descriptor>, size: nat)
    returns (error: Option<Error>, data: seq<Piece>, cur: nat, remaining: nat, done: nat)
    requires size < U64 && forall i :: 0 <= i < |ds| ==> Fits(ds[i])
    ensures error == None ==> NoneBad(ds, |ds|) && Built(Regions(ds), size, data, cur, remaining)
    ensures error.Some? ==> RefusedAt(ds, done, size) && Because(error.value, ds[done], RegionsTo(ds, done), size)
  {
    error, data, cur, remaining, done := None, [], 0, size, 0;
    BuiltNothing(ds, size);
    while done < |ds|
      invariant done <= |ds| && NoneBad(ds, done)
      invariant error == None && Built(RegionsTo(ds, done), size, data, cur, remaining)
    {
      error, data, cur, remaining := AddNext(ds, done, data, cur, remaining, size);
      if error.Some? {
        return;
      }
      done := done + 1;
    }
  }

  /** Some descriptor is to blame, or what they describe is not of the sizes listed. */
  ghost predicate Blamed(error: Error, ds: seq<Descriptor>, size: nat, realSize: Option<nat>) {
    || (exists i :: 0 <= i < |ds| && Because(error, ds[i], RegionsTo(ds, i), size))
    || (error == WrongSize && realSize != Some(End(Regions(ds))))
    || (error == TooLittleData && realSize == Some(End(Regions(ds))) && Archived(Regions(ds)) < size)
  }

  /** Accepted exactly when the descriptors decode to ordered, aligned regions that
      use up the archived size and end at the real size. */
  method ParseSparse(descriptors: seq<Descriptor>, size: nat, realSize: Option<nat>) returns (r: Parsed)
    requires size < U64 && forall i :: 0 <= i < |descriptors| ==> Fits(descriptors[i])
    ensures r.Accepted? <==>
              var rs := Regions(descriptors);
              Decodes(descriptors) && WellFormed(rs) && Archived(rs) == size && realSize == Some(End(rs))
    ensures r.Accepted? ==> r.pieces == PiecesOf(Regions(descriptors)) && r.size == End(Regions(descriptors)) < U64
    ensures r.Refused? ==> Blamed(r.error, descriptors, size, realSize)
  {
    var error, data, cur, remaining, done := AddBlocks(descriptors, size);
    if error.Some? {
      EarlyRefusal(descriptors, done, size);
      return Refused(error.value);
    }
    if realSize != Some(cur) {
      return Refused(WrongSize);
    }
    if remaining > 0 {
      return Refused(TooLittleData);
    }
    return Accepted(data, cur);
  }

  lemma EarlyRefusal(ds: seq<Descriptor>, i: nat, size: nat)
    requires RefusedAt(ds, i, size)
    ensures !Decodes(ds) || !Acceptable(Regions(ds), size)
  {
    if Acceptable(Regions(ds), size) {
      PrefixAcceptable(ds, i + 1, |ds|, size);
    }
  }

  /** An accepted entry: all lengths sum to the real size, the data lengths to the
      archived size, and a reader gets the described file. */
  lemma AcceptedMeans(rs: seq<Region>, arch: Bytes)
    requires WellFormed(rs) && Archived(rs) == |arch|
    ensures Taken(PiecesOf(rs)) == |arch| && |Expand(PiecesOf(rs), arch)| == End(rs)
    ensures IsSparseFile(Expand(PiecesOf(rs), arch), rs, arch)
  {
    PiecesTake(rs);
    ExpansionIsTheFile(rs, arch);
  }

  // --- said of the descriptors ---

  /** The lengths of the descriptors in use before the `i`-th. */
  function LengthsTo(ds: seq<Descriptor>, i: nat): nat
    requires i <= |ds|
  {
    if i == 0 then 0
    else LengthsTo(ds, i - 1) + if !ds[i - 1].empty && ds[i - 1].length.Some? then ds[i - 1].length.value else 0
  }

  /** The bytes of the file that descriptor `d` places. */
  predicate Places(d: Descriptor, p: nat) {
    !d.empty && d.offset.Some? && d.length.Some? && d.offset.value <= p < d.offset.value + d.length.value
  }

  /** The archive's bytes from `at` are where the descriptor puts them. */
  ghost predicate PutAt(file: Bytes, d: Descriptor, at: nat, arch: Bytes) {
    && d.offset.Some? && d.length.Some? && d.offset.value + d.length.value <= |file| && at + d.length.value <= |arch|
    && file[d.offset.value..d.offset.value + d.length.value] == arch[at..at + d.length.value]
  }

  ghost predicate ZeroElsewhere(file: Bytes, ds: seq<Descriptor>) {
    forall p: nat :: p < |file| && (forall i :: 0 <= i < |ds| ==> !Places(ds[i], p)) ==> file[p] == 0
  }

  /** `file` is what the header describes: each descriptor in use puts the next
      bytes of the archive at its offset, as many as its length; what none of them
      places is zero. */
  ghost predicate Described(file: Bytes, ds: seq<Descriptor>, arch: Bytes) {
    && (forall i :: 0 <= i < |ds| && !ds[i].empty ==> PutAt(file, ds[i], LengthsTo(ds, i), arch))
    && ZeroElsewhere(file, ds)
  }

  lemma ArchivedMore(rs: seq<Region>, more: seq<Region>)
    requires |more| <= 1
    ensures Archived(rs + more) == Archived(rs) + if more == [] then 0 else more[0].len
  {
    if more == [] {
      assert rs + more == rs;
    } else {
      assert (rs + more)[..|rs|] == rs;
    }
  }

  lemma {:induction false} ArchivedIsLengths(ds: seq<Descriptor>, i: nat)
    requires Decodes(ds) && i <= |ds|
    ensures Archived(RegionsTo(ds, i)) == LengthsTo(ds, i)
  {
    if i > 0 {
      ArchivedIsLengths(ds, i - 1);
      ArchivedMore(RegionsTo(ds, i - 1), Used(ds[i - 1]));
    }
  }

  lemma {:induction false} RegionsExtend(ds: seq<Descriptor>, i: nat, j: nat)
    requires i <= j <= |ds|
    ensures RegionsTo(ds, i) <= RegionsTo(ds, j)
    decreases j
  {
    if i < j {
      RegionsExtend(ds, i, j - 1);
    }
  }

  /** The region of the `i`-th descriptor and where its data begins. */
  lemma RegionOf(ds: seq<Descriptor>, i: nat, k: nat)
    requires Decodes(ds) && i < |ds| && !ds[i].empty && k == |RegionsTo(ds, i)|
    ensures k < |Regions(ds)| && Regions(ds)[k] == Region(ds[i].offset.value, ds[i].length.value)
    ensures Archived(Regions(ds)[..k]) == LengthsTo(ds, i)
  {
    RegionsExtend(ds, i + 1, |ds|);
    assert RegionsTo(ds, i + 1)[k] == Used(ds[i])[0];
    assert Regions(ds)[..k] == RegionsTo(ds, i);
    ArchivedIsLengths(ds, i);
  }

  lemma {:induction false} CoveredIsPlaced(ds: seq<Descriptor>, n: nat, p: nat)
    requires n <= |ds| && Covered(RegionsTo(ds, n), p)
    ensures exists i :: 0 <= i < n && Places(ds[i], p)
  {
    if n > 0 {
      var front := RegionsTo(ds, n - 1);
      var k :| 0 <= k < |RegionsTo(ds, n)| && RegionsTo(ds, n)[k].off <= p < RegionsTo(ds, n)[k].off + RegionsTo(ds, n)[k].len;
      if k < |front| {
        assert front[k] == RegionsTo(ds, n)[k];
        CoveredIsPlaced(ds, n - 1, p);
      } else {
        assert Places(ds[n - 1], p);
      }
    }
  }

  lemma RegionIsHeld(file: Bytes, rs: seq<Region>, arch: Bytes, k: nat)
    requires IsSparseFile(file, rs, arch) && k < |rs|
    ensures Holds(file, rs[k], Archived(rs[..k]), arch)
  {
  }

  lemma {:induction false} PartIsPut(file: Bytes, ds: seq<Descriptor>, arch: Bytes, i: nat)
    requires Decodes(ds) && IsSparseFile(file, Regions(ds), arch) && i < |ds| && !ds[i].empty
    ensures PutAt(file, ds[i], LengthsTo(ds, i), arch)
  {
    RegionOf(ds, i, |RegionsTo(ds, i)|);
    RegionIsHeld(file, Regions(ds), arch, |RegionsTo(ds, i)|);
  }

  lemma RestIsZero(file: Bytes, ds: seq<Descriptor>, arch: Bytes)
    requires IsSparseFile(file, Regions(ds), arch)
    ensures ZeroElsewhere(file, ds)
  {
    forall p: nat | p < |file| && (forall i :: 0 <= i < |ds| ==> !Places(ds[i], p)) ensures file[p] == 0 {
      if Covered(Regions(ds), p) {
        CoveredIsPlaced(ds, |ds|, p);
      }
    }
  }

  /** An accepted entry, whatever its bytes: a reader gets the file that the
      descriptors describe, of the real size the header gives. */
  lemma AcceptedIsDescribed(ds: seq<Descriptor>, arch: Bytes)
    requires Decodes(ds) && WellFormed(Regions(ds)) && Archived(Regions(ds)) == |arch|
    ensures var pieces := PiecesOf(Regions(ds));
            Taken(pieces) == |arch| && |Expand(pieces, arch)| == End(Regions(ds)) && Described(Expand(pieces, arch), ds, arch)
  {
    AcceptedMeans(Regions(ds), arch);
    var file := Expand(PiecesOf(Regions(ds)), arch);
    forall i | 0 <= i < |ds| && !ds[i].empty ensures PutAt(file, ds[i], LengthsTo(ds, i), arch) {
      PartIsPut(file, ds, arch, i);
    }
    RestIsZero(file, ds, arch);
  }

  /** What is refused early stays unacceptable with more descriptors. */
  lemma {:induction false} PrefixAcceptable(ds: seq<Descriptor>, i: nat, j: nat, size: nat)
    requires i <= j <= |ds| && Acceptable(RegionsTo(ds, j), size)
    ensures Acceptable(RegionsTo(ds, i), size)
    decreases j
  {
    if i < j {
      LessIsAcceptable(ds, j, size);
      PrefixAcceptable(ds, i, j - 1, size);
    }
  }

  lemma LessIsAcceptable(ds: seq<Descriptor>, j: nat, size: nat)
    requires 0 < j <= |ds| && Acceptable(RegionsTo(ds, j), size)
    ensures Acceptable(RegionsTo(ds, j - 1), size)
  {
    FrontAcceptable(RegionsTo(ds, j - 1), Used(ds[j - 1]), size);
  }

  lemma FrontAcceptable(rs: seq<Region>, more: seq<Region>, size: nat)
    requires Acceptable(rs + more, size) && |more| <= 1
    ensures Acceptable(rs, size)
  {
    if more == [] {
      assert rs + more == rs;
    } else {
      assert (rs + more)[..|rs|] == rs;
    }
  }

  lemma HoldsAgree(a: Bytes, b: Bytes, r: Region, at: nat, arch: Bytes, p: nat)
    requires Holds(a, r, at, arch) && Holds(b, r, at, arch) && r.off <= p < r.off + r.len
    ensures a[p] == b[p]
  {
    assert a[p] == a[r.off..r.off + r.len][p - r.off];
    assert b[p] == b[r.off..r.off + r.len][p - r.off];
  }

  /** The meaning is unique: two files of the same length that satisfy the same
      description are the same file. */
  lemma SparseFileIsUnique(a: Bytes, b: Bytes, rs: seq<Region>, arch: Bytes)
    requires IsSparseFile(a, rs, arch) && IsSparseFile(b, rs, arch) && |a| == |b|
    ensures a == b
  {
    forall p | 0 <= p < |a| ensures a[p] == b[p] {
      if Covered(rs, p) {
        var i :| 0 <= i < |rs| && rs[i].off <= p < rs[i].off + rs[i].len;
        HoldsAgree(a, b, rs[i], Archived(rs[..i]), arch, p);
      }
    }
  }

  lemma {:induction false} StartsAligned(rs: seq<Region>, j: nat)
    requires WellFormed(rs) && j < |rs| && rs[j].len != 0
    ensures Archived(rs[..j]) % BLOCK == 0
  {
    var front := rs[..|rs| - 1];
    if j < |rs| - 1 {
      StartsAligned(front, j);
      assert front[..j] == rs[..j];
    } else {
      assert rs[..j] == front;
    }
  }

  lemma {:induction false} EmptyBetween(rs: seq<Region>, i: nat, j: nat)
    requires i < j <= |rs| && forall k :: i < k < j ==> rs[k].len == 0
    ensures Archived(rs[..j]) == Archived(rs[..i]) + rs[i].len
    decreases j
  {
    assert rs[..j][..j - 1] == rs[..j - 1];
    if i < j - 1 {
      EmptyBetween(rs, i, j - 1);
    }
  }

  /** Only the last non-empty region may be anything but whole blocks. */
  lemma {:induction false} OnlyTheLastIsUnaligned(rs: seq<Region>, i: nat, j: nat)
    requires WellFormed(rs) && i < j < |rs| && rs[i].len != 0 && rs[j].len != 0
    ensures rs[i].len % BLOCK == 0
    decreases j
  {
    if k :| i < k < j && rs[k].len != 0 {
      OnlyTheLastIsUnaligned(rs, i, k);
    } else {
      StartsAligned(rs, i);
      StartsAligned(rs, j);
      EmptyBetween(rs, i, j);
    }
  }
}
