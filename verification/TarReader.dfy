/** The raw tar stream (`archive.rs`): a parser that can be interrupted at every
    read.  The source hands out chunks of any size, or is not ready; which one is
    up to `turns`.  Header decoding is abstract. */
module TarReader {
  import opened Wrappers

  const BLOCK := 512
  const U64 := 0x1_0000_0000_0000_0000

  type Bytes = seq<bv8>

  /** What one read of the source does. */
  datatype Turn = NotReady | Chunk(n: nat)

  datatype Error = SkipEof | ShortBlock | Unfollowed | BadHeader | SizeOverflow

  /** Archive options, and the decoding of a header block with the pax records in
      force: the size of the member's data, or `None` when the header is refused. */
  datatype Mode = Mode(ignoreZeros: bool, paxOnly: bool, decode: (Bytes, Option<Bytes>) -> Option<nat>)

  /** What the caller knows: pax records in force, an extension not yet used. */
  datatype Context = Context(pax: Option<Bytes>, pendingExtension: bool)

  const RAW := Context(None, false)

  datatype Item =
    | End
    | Failed(error: Error)
    | Entry(header: Bytes, headerPos: nat, filePos: nat, size: nat, next: nat)

  predicate Zero(block: Bytes) {
    forall i :: 0 <= i < |block| ==> block[i] == 0
  }

  /** Rounded up to whole blocks. */
  function RoundUp(size: nat): nat {
    (size + BLOCK - 1) / BLOCK * BLOCK
  }

  /** The entry whose header block starts at `at`. */
  function EntryAt(bytes: Bytes, at: nat, mode: Mode, ctx: Context): Item
    requires at + BLOCK <= |bytes|
  {
    var header := bytes[at..at + BLOCK];
    match mode.decode(header, ctx.pax)
    case None => Failed(BadHeader)
    case Some(size) =>
      if size + BLOCK - 1 >= U64 || at + BLOCK + RoundUp(size) >= U64 then Failed(SizeOverflow)
      else Entry(header, at, at + BLOCK, size, at + BLOCK + RoundUp(size))
  }

  /** What the archive says at `next`: a function of the bytes alone. */
  function ItemAt(bytes: Bytes, next: nat, mode: Mode, ctx: Context): Item
    decreases |bytes| - next
  {
    if next > |bytes| then Failed(SkipEof)
    else if next == |bytes| then End
    else if next + BLOCK > |bytes| then Failed(ShortBlock)
    else if !Zero(bytes[next..next + BLOCK]) then EntryAt(bytes, next, mode, ctx)
    else if ctx.pendingExtension then if mode.paxOnly then End else Failed(Unfollowed)
    else if !mode.ignoreZeros then End
    else ItemAt(bytes, next + BLOCK, mode, ctx)
  }

  lemma RoundUpIsAligned(size: nat)
    ensures RoundUp(size) % BLOCK == 0 && size <= RoundUp(size) < size + BLOCK
  {
  }

  /** Where an entry lies: block aligned, its data after its header, the next header
      after its data. */
  lemma {:induction false} ItemsAreLaidOut(bytes: Bytes, next: nat, mode: Mode, ctx: Context)
    requires next % BLOCK == 0
    ensures var e := ItemAt(bytes, next, mode, ctx);
            e.Entry? ==>
              && next <= e.headerPos && e.headerPos % BLOCK == 0 && e.filePos == e.headerPos + BLOCK <= |bytes|
              && e.filePos + e.size <= e.next < U64 && e.next % BLOCK == 0 && e.next - (e.filePos + e.size) < BLOCK
              && e.header == bytes[e.headerPos..e.filePos] && !Zero(e.header)
    decreases |bytes| - next
  {
    if next + BLOCK <= |bytes| {
      var e := EntryAt(bytes, next, mode, ctx);
      if e.Entry? {
        RoundUpIsAligned(e.size);
      }
      if Zero(bytes[next..next + BLOCK]) && !ctx.pendingExtension && mode.ignoreZeros {
        ItemsAreLaidOut(bytes, next + BLOCK, mode, ctx);
      }
    }
  }

  /** What the block at `at` is, said of its bytes: behind the end, the end, a stump,
      zeros, or a header, whose data reaches up to the next whole block. */
  ghost predicate Says(bytes: Bytes, at: nat, mode: Mode, ctx: Context, item: Item) {
    if at >= |bytes| then item == if at == |bytes| then End else Failed(SkipEof)
    else if at + 512 > |bytes| then item == Failed(ShortBlock)
    else if forall i :: at <= i < at + 512 ==> bytes[i] == 0 then
      if ctx.pendingExtension && !mode.paxOnly then item == Failed(Unfollowed)
      else item == End && (ctx.pendingExtension || !mode.ignoreZeros)
    else
      match mode.decode(bytes[at..at + 512], ctx.pax)
      case None => item == Failed(BadHeader)
      case Some(size) =>
        exists after: nat :: Reaches(bytes, at, size, after, item)
  }

  /** The header at `at` with data of `size` bytes: `after` is the first block
      boundary behind them, and all of it can be counted in 64 bits, or cannot. */
  ghost predicate Reaches(bytes: Bytes, at: nat, size: nat, after: nat, item: Item)
    requires at + 512 <= |bytes|
  {
    && after % 512 == 0 && at + 512 + size <= after < at + 512 + size + 512
    && item == (if size + 511 < U64 && after < U64 then Entry(bytes[at..at + 512], at, at + 512, size, after) else Failed(SizeOverflow))
  }

  /** Only zeros in whole blocks are passed over, and only when that is asked for
      and nothing is waiting for its member. */
  ghost predicate Passed(bytes: Bytes, next: nat, at: nat, mode: Mode, ctx: Context) {
    && next <= at && at % 512 == 0
    && (next < at ==> at <= |bytes| && mode.ignoreZeros && !ctx.pendingExtension && forall i :: next <= i < at ==> bytes[i] == 0)
  }

  lemma ZeroIs(bytes: Bytes, at: nat)
    requires at + BLOCK <= |bytes|
    ensures Zero(bytes[at..at + BLOCK]) <==> forall i :: at <= i < at + 512 ==> bytes[i] == 0
  {
    var block := bytes[at..at + BLOCK];
    assert forall i :: at <= i < at + 512 ==> bytes[i] == block[i - at];
  }

  lemma EntrySays(bytes: Bytes, at: nat, mode: Mode, ctx: Context)
    requires at % BLOCK == 0 && at + BLOCK <= |bytes| && !Zero(bytes[at..at + BLOCK])
    ensures Says(bytes, at, mode, ctx, EntryAt(bytes, at, mode, ctx))
  {
    ZeroIs(bytes, at);
    var decoded := mode.decode(bytes[at..at + BLOCK], ctx.pax);
    if decoded.Some? {
      RoundUpIsAligned(decoded.value);
      assert Reaches(bytes, at, decoded.value, at + BLOCK + RoundUp(decoded.value), EntryAt(bytes, at, mode, ctx));
    }
  }

  /** Each item is what one block of the archive says, and what was passed over to
      get to that block had nothing to say. */
  lemma {:induction false} ItemIsSaid(bytes: Bytes, next: nat, mode: Mode, ctx: Context)
    requires next % BLOCK == 0
    ensures exists at :: Passed(bytes, next, at, mode, ctx) && Says(bytes, at, mode, ctx, ItemAt(bytes, next, mode, ctx))
    decreases |bytes| - next
  {
    var e := ItemAt(bytes, next, mode, ctx);
    if next + BLOCK > |bytes| {
      assert Passed(bytes, next, next, mode, ctx) && Says(bytes, next, mode, ctx, e);
    } else if !Zero(bytes[next..next + BLOCK]) {
      EntrySays(bytes, next, mode, ctx);
      assert Passed(bytes, next, next, mode, ctx);
    } else {
      ZeroIs(bytes, next);
      if ctx.pendingExtension || !mode.ignoreZeros {
        assert Passed(bytes, next, next, mode, ctx) && Says(bytes, next, mode, ctx, e);
      } else {
        ItemIsSaid(bytes, next + BLOCK, mode, ctx);
        var at :| Passed(bytes, next + BLOCK, at, mode, ctx) && Says(bytes, at, mode, ctx, e);
        assert Passed(bytes, next, at, mode, ctx);
      }
    }
  }

  /** The whole archive, up to its end or the first error. */
  function Listing(bytes: Bytes, next: nat, mode: Mode): (items: seq<Item>)
    requires next % BLOCK == 0
    decreases if next <= |bytes| then |bytes| - next + 1 else 0
  {
    ItemsAreLaidOut(bytes, next, mode, RAW);
    var e := ItemAt(bytes, next, mode, RAW);
    if e.Entry? then [e] + Listing(bytes, e.next, mode) else [e]
  }

  /** Listed entries follow each other: no two overlap, whatever their order in time. */
  lemma {:induction false} ListingInOrder(bytes: Bytes, next: nat, mode: Mode, i: nat, j: nat)
    requires next % BLOCK == 0 && i < j < |Listing(bytes, next, mode)| && Listing(bytes, next, mode)[j].Entry?
    ensures var a, b := Listing(bytes, next, mode)[i], Listing(bytes, next, mode)[j];
            a.Entry? && a.filePos + a.size <= a.next <= b.headerPos
    decreases i + j
  {
    ItemsAreLaidOut(bytes, next, mode, RAW);
    var e := ItemAt(bytes, next, mode, RAW);
    if i > 0 {
      ListingInOrder(bytes, e.next, mode, i - 1, j - 1);
    } else if j > 1 {
      ListingInOrder(bytes, e.next, mode, 0, j - 1);
      ItemsAreLaidOut(bytes, e.next, mode, RAW);
    } else {
      ItemsAreLaidOut(bytes, e.next, mode, RAW);
    }
  }

  /** The reader of an archive, and the position of its stream of entries. */
  class TarStream {
    const bytes: Bytes
    const mode: Mode
    const block: array<bv8> // the header being read
    var pos: nat            // bytes taken from the source
    var next: nat           // where the next header starts
    var current: bool       // a header is being read
    var headerPos: nat      // how much of it was read
    var limit: nat          // end of the data of the last entry
    var tick: nat           // reads made so far
    ghost var yielded: seq<Item>

    ghost predicate Valid()
      reads this, block
    {
      && block.Length == BLOCK && |bytes| < U64 && pos <= |bytes| && next % BLOCK == 0
      && (if current then headerPos < BLOCK && pos == next + headerPos && block[..headerPos] == bytes[next..pos]
          else pos <= next && limit <= next)
    }

    /** What was yielded, and what is to come, is the archive's listing. */
    ghost predicate Faithful()
      requires next % BLOCK == 0
      reads this
    {
      Listing(bytes, 0, mode) == yielded + Listing(bytes, next, mode)
    }

    constructor (archive: Bytes, m: Mode)
      requires |archive| < U64
      ensures Valid() && Faithful() && bytes == archive && mode == m && pos == 0 && next == 0 && yielded == [] && fresh(block)
    {
      bytes, mode, block := archive, m, new bv8[BLOCK];
      pos, next, current, headerPos, limit, tick, yielded := 0, 0, false, 0, 0, 0, [];
    }

    /** One read of at most `want` bytes: `None` when the source is not ready, no
        bytes only at the end of the archive. */
    method PollRead(want: nat, turns: nat -> Turn) returns (got: Option<Bytes>)
      requires pos <= |bytes| && 0 < want
      modifies `pos, `tick
      ensures pos <= |bytes|
      ensures got == None ==> pos == old(pos)
      ensures got.Some? ==> |got.value| <= want && pos == old(pos) + |got.value| && got.value == bytes[old(pos)..pos]
      ensures got.Some? && got.value == [] ==> pos == |bytes|
    {
      var turn := turns(tick);
      tick := tick + 1;
      match turn
      case NotReady => return None;
      case Chunk(n) =>
        var k := if n == 0 then 1 else n;
        k := if want < k then want else k;
        k := if |bytes| - pos < k then |bytes| - pos else k;
        got := Some(bytes[pos..pos + k]);
        pos := pos + k;
    }

    /** `poll_skip`: `None` pending, `Some(false)` at a premature end. */
    method PollSkip(amount: nat, turns: nat -> Turn) returns (r: Option<bool>)
      requires pos <= |bytes|
      modifies `pos, `tick
      ensures old(pos) <= pos <= old(pos) + amount && pos <= |bytes|
      ensures r.Some? && r.value ==> pos == old(pos) + amount
      ensures r.Some? && !r.value ==> old(pos) + amount > |bytes|
    {
      var left := amount;
      while left > 0
        invariant 0 <= left <= amount && pos == old(pos) + amount - left && pos <= |bytes|
      {
        var n := if left < 32768 then left else 32768;
        var got := PollRead(n, turns);
        match got {
          case None => return None;
          case Some(chunk) =>
            if chunk == [] {
              return Some(false);
            }
            left := left - |chunk|;
        }
      }
      return Some(true);
    }

    /** `poll_try_read_all` on the header block: `Some(Some(true))` when it is full,
        `Some(Some(false))` at the end of the archive, `Some(None)` in mid-block. */
    method PollHeader(turns: nat -> Turn) returns (r: Option<Option<bool>>)
      requires Valid() && current
      modifies this`pos, this`tick, this`headerPos, block
      ensures r == None ==> Valid()
      ensures r.Some? && r.value.Some? && r.value.value ==>
                headerPos == 0 && pos == next + BLOCK <= |bytes| && block[..] == bytes[next..next + BLOCK]
      ensures r.Some? && r.value.Some? && !r.value.value ==> next == |bytes|
      ensures r.Some? && r.value == None ==> next < |bytes| < next + BLOCK
    {
      while headerPos < BLOCK
        invariant headerPos <= BLOCK && pos == next + headerPos <= |bytes| && block[..headerPos] == bytes[next..pos]
        decreases BLOCK - headerPos
      {
        ghost var before := pos;
        var got := PollRead(BLOCK - headerPos, turns);
        match got {
          case None => return None;
          case Some(chunk) =>
            if chunk == [] {
              return Some(if headerPos == 0 then Some(false) else None);
            }
            assert bytes[next..pos] == bytes[next..before] + chunk;
            CopyIn(headerPos, chunk);
            headerPos := headerPos + |chunk|;
        }
      }
      assert block[..] == block[..headerPos];
      headerPos := 0;
      return Some(Some(true));
    }

    method CopyIn(at: nat, chunk: Bytes)
      requires at + |chunk| <= block.Length
      modifies block
      ensures block[..at + |chunk|] == old(block[..at]) + chunk
    {
      for i := 0 to |chunk|
        invariant block[..at + i] == old(block[..at]) + chunk[..i]
      {
        block[at + i] := chunk[i];
        assert block[..at + i + 1] == block[..at + i] + [chunk[i]];
      }
      assert chunk[..|chunk|] == chunk;
    }

    /** Skip what is left of the last entry and start a header. */
    method SeekHeader(turns: nat -> Turn) returns (r: Option<bool>)
      requires Valid() && !current
      modifies `pos, `tick, `current, `headerPos
      ensures r == None ==> Valid() && !current
      ensures r.Some? && r.value ==> Valid() && current && headerPos == 0
      ensures r.Some? && !r.value ==> next > |bytes|
    {
      r := PollSkip(next - pos, turns);
      if r.Some? && r.value {
        current, headerPos := true, 0;
      }
    }

    /** Seek and read one header block: `Some(None)` when it is there. */
    method FillHeader(turns: nat -> Turn) returns (r: Option<Option<Item>>)
      requires Valid()
      modifies this`pos, this`tick, this`headerPos, this`current, block
      ensures r == None ==> Valid()
      ensures r.Some? && r.value == None ==>
                current && headerPos == 0 && pos == next + BLOCK <= |bytes| && block[..] == bytes[next..next + BLOCK]
      ensures r.Some? && r.value.Some? ==>
                r.value.value == if next > |bytes| then Failed(SkipEof) else if next == |bytes| then End else Failed(ShortBlock)
      ensures r.Some? && r.value.Some? ==> next + BLOCK > |bytes|
    {
      if !current {
        var skipped := SeekHeader(turns);
        if skipped == None {
          return None;
        }
        if !skipped.value {
          return Some(Some(Failed(SkipEof)));
        }
      }
      var filled := PollHeader(turns);
      if filled == None {
        return None;
      }
      if filled.value == None {
        return Some(Some(Failed(ShortBlock)));
      }
      return Some(if filled.value.value then None else Some(End));
    }

    /** `poll_next_raw`: pending, or exactly what the archive says at `next`,
        wherever it was interrupted before. */
    method PollNext(ctx: Context, turns: nat -> Turn) returns (r: Option<Item>)
      requires Valid()
      modifies this`pos, this`tick, this`headerPos, this`next, this`current, this`limit, block
      ensures r.Some? ==> r.value == ItemAt(bytes, old(next), mode, ctx)
      ensures r == None ==> Valid() && ItemAt(bytes, next, mode, ctx) == ItemAt(bytes, old(next), mode, ctx)
      ensures r.Some? && r.value.Entry? ==>
                Valid() && !current && next == r.value.next && pos == r.value.filePos && limit == r.value.filePos + r.value.size
    {
      while true
        invariant Valid() && old(next) <= next
        invariant ItemAt(bytes, next, mode, ctx) == ItemAt(bytes, old(next), mode, ctx)
        decreases |bytes| - next
      {
        var filled := FillHeader(turns);
        if filled == None {
          return None;
        }
        if filled.value.Some? {
          return filled.value;
        }
        if !Zero(block[..]) {
          break;
        }
        if ctx.pendingExtension {
          return Some(if mode.paxOnly then End else Failed(Unfollowed));
        }
        if !mode.ignoreZeros {
          return Some(End);
        }
        next := next + BLOCK;
      }
      var item := TakeEntry(ctx);
      r := Some(item);
    }

    /** The rest of `poll_next_raw`, from a full header block. */
    method TakeEntry(ctx: Context) returns (item: Item)
      requires block.Length == BLOCK && |bytes| < U64 && next % BLOCK == 0 && current
      requires headerPos == 0 && pos == next + BLOCK <= |bytes| && block[..] == bytes[next..next + BLOCK]
      modifies this`next, this`current, this`limit
      ensures item == EntryAt(bytes, old(next), mode, ctx)
      ensures item.Entry? ==> Valid() && !current && next == item.next && pos == item.filePos && limit == item.filePos + item.size
    {
      var at := next;
      next := next + BLOCK;
      var header := block[..];
      var decoded := mode.decode(header, ctx.pax);
      match decoded
      case None => return Failed(BadHeader);
      case Some(size) =>
        current := false;
        if size + BLOCK - 1 >= U64 {
          return Failed(SizeOverflow);
        }
        RoundUpIsAligned(size);
        if next + RoundUp(size) >= U64 {
          return Failed(SizeOverflow);
        }
        item := Entry(header, at, next, size, next + RoundUp(size));
        limit := next + size;
        next := next + RoundUp(size);
    }

    /** The in-order consumer reads the data of the last entry, as much as it likes. */
    method ReadEntry(want: nat, turns: nat -> Turn) returns (got: Option<Bytes>)
      requires Valid() && !current && 0 < want
      modifies `pos, `tick
      ensures Valid() && old(pos) <= pos && (pos <= limit || pos == old(pos))
      ensures got.Some? ==> got.value == bytes[old(pos)..pos] && (got.value == [] ==> pos == |bytes| || pos >= limit)
      ensures got == None ==> pos == old(pos)
    {
      if pos >= limit {
        return Some([]);
      }
      got := PollRead(if want < limit - pos then want else limit - pos, turns);
    }

    /** `RawEntries::poll_next`: over any chunking, any interruption and any
        consumption, the items yielded are the archive's listing, in order. */
    method NextRaw(turns: nat -> Turn) returns (r: Option<Item>)
      requires Valid() && Faithful()
      modifies this`pos, this`tick, this`headerPos, this`next, this`current, this`limit, this`yielded, block
      ensures r == None ==> Valid() && Faithful() && yielded == old(yielded)
      ensures r.Some? ==> yielded == old(yielded) + [r.value]
      ensures r.Some? && r.value.Entry? ==> Valid() && Faithful() && !current && pos == r.value.filePos
      ensures r.Some? && !r.value.Entry? ==> yielded == Listing(bytes, 0, mode)
    {
      ghost var before := next;
      r := PollNext(RAW, turns);
      if r.Some? {
        yielded := yielded + [r.value];
      } else {
        SameItemSameListing(bytes, before, next, mode);
      }
    }
  }

  lemma SameItemSameListing(bytes: Bytes, a: nat, b: nat, mode: Mode)
    requires a % BLOCK == 0 && b % BLOCK == 0 && ItemAt(bytes, a, mode, RAW) == ItemAt(bytes, b, mode, RAW)
    ensures Listing(bytes, a, mode) == Listing(bytes, b, mode)
  {
  }
}
