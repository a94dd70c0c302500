/** The member stream as an object (`Entries`): every suspension of a read is
    resumed where it stopped. */
module TarMembers {
  import opened Wrappers
  import opened TarAttribution
  import opened TarExtensions
  import TR = TarReader

  /** A flag that the block was fully read, and its buffer. */
  datatype Slot = Slot(full: bool, buffer: Option<Bytes>)

  class TarEntries {
    const raw: TR.TarStream
    const fmt: Format
    var pending: Option<EntryItem> // an extension whose data is being read
    var longname: Slot
    var longlink: Slot
    var pax: Slot

    ghost function HeldNow(): Held
      reads this
    {
      Held(if longname.full then longname.buffer else None,
           if longlink.full then longlink.buffer else None,
           if pax.full then pax.buffer else None)
    }

    function SlotOf(k: Kind): Slot
      reads this
    {
      if k.Longname? then longname else if k.Longlink? then longlink else pax
    }

    /** Full slots have a buffer, the others are empty, but for the one being read. */
    ghost predicate SlotsOk()
      reads this
    {
      forall k :: Extension(k) ==>
        var s := SlotOf(k);
        if s.full then s.buffer.Some? else s.buffer.Some? ==> pending.Some? && Classify(fmt.facts(pending.value.header)) == k
    }

    ghost predicate Valid()
      reads this, raw, raw.block
    {
      && raw.Valid() && SlotsOk()
      && (pending.Some? ==>
            var e := pending.value;
            var k := Classify(fmt.facts(e.header));
            && LaidOut(raw.bytes, e) && Extension(k) && Before(fmt, HeldNow(), k) == None && !SlotOf(k).full
            && !raw.current && raw.next == e.next && raw.limit == e.filePos + e.size && e.filePos <= raw.pos <= raw.limit
            && SlotOf(k).buffer == Some(raw.bytes[e.filePos..raw.pos]))
    }

    /** What the stream will yield next. */
    ghost function Target(): Yield
      requires Valid()
      reads this, raw, raw.block
    {
      if pending.Some? then AfterEntry(raw.bytes, pending.value, HeldNow(), raw.mode, fmt)
      else NextMember(raw.bytes, raw.next, HeldNow(), raw.mode, fmt)
    }

    constructor (stream: TR.TarStream, format: Format)
      requires stream.Valid()
      ensures raw == stream && fmt == format && Valid() && pending == None && HeldNow() == NOTHING
    {
      raw, fmt, pending := stream, format, None;
      longname, longlink, pax := Slot(false, None), Slot(false, None), Slot(false, None);
    }

    method SetSlot(k: Kind, s: Slot)
      requires Extension(k)
      modifies `longname, `longlink, `pax
      ensures longname == (if k.Longname? then s else old(longname)) && longlink == (if k.Longlink? then s else old(longlink))
      ensures pax == if k.Pax? then s else old(pax)
    {
      if k.Longname? {
        longname := s;
      } else if k.Longlink? {
        longlink := s;
      } else {
        pax := s;
      }
    }

    /** The stream stands in the data of `e`, with the part before read. */
    ghost predicate Inside(e: EntryItem, part: Bytes)
      reads raw, raw.block
    {
      && raw.Valid() && LaidOut(raw.bytes, e) && !raw.current && raw.next == e.next && raw.limit == e.filePos + e.size
      && e.filePos <= raw.pos <= raw.limit && part == raw.bytes[e.filePos..raw.pos]
    }

    /** `poll_read_all`: `None` pending, `Some(false)` when the archive ends early. */
    method ReadAll(e: EntryItem, part: Bytes, turns: nat -> TR.Turn) returns (r: Option<bool>, whole: Bytes)
      requires Inside(e, part)
      modifies raw`pos, raw`tick
      ensures Inside(e, whole)
      ensures r.Some? && r.value ==> e.filePos + e.size <= |raw.bytes| && whole == raw.bytes[e.filePos..e.filePos + e.size]
      ensures r.Some? && !r.value ==> e.filePos + e.size > |raw.bytes|
    {
      whole := part;
      while raw.pos < raw.limit
        invariant Inside(e, whole)
        decreases raw.limit - raw.pos
      {
        ghost var before := raw.pos;
        var got := raw.ReadEntry(32, turns);
        if got == None {
          return None, whole;
        }
        if got.value == [] {
          return Some(false), whole; // unexpected end
        }
        assert raw.bytes[e.filePos..raw.pos] == raw.bytes[e.filePos..before] + got.value;
        whole := whole + got.value;
      }
      return Some(true), whole;
    }

    method Release() returns (h: Held)
      modifies `longname, `longlink, `pax
      ensures h == old(HeldNow()) && HeldNow() == NOTHING
      ensures old(SlotsOk()) && old(pending) == None ==> SlotsOk()
    {
      h := Held(if longname.full then longname.buffer else None,
                if longlink.full then longlink.buffer else None,
                if pax.full then pax.buffer else None);
      longname := if longname.full then Slot(false, None) else longname;
      longlink := if longlink.full then Slot(false, None) else longlink;
      pax := if pax.full then Slot(false, None) else pax;
      assert old(SlotsOk()) ==> old(SlotOf(Longname)) == old(longname) && old(SlotOf(Longlink)) == old(longlink) && old(SlotOf(Pax)) == old(pax);
    }

    /** The treatment of one entry, up to its member, its error, its suspension or
        its absorption (`Some(None)`). */
    method Treat(e: EntryItem, turns: nat -> TR.Turn) returns (r: Option<Option<Yield>>)
      requires pending == None && SlotsBut(Classify(fmt.facts(e.header)))
      requires var k := Classify(fmt.facts(e.header));
               var part := if Extension(k) && !SlotOf(k).full && SlotOf(k).buffer.Some? then SlotOf(k).buffer.value else [];
               Inside(e, part)
      modifies this, raw`pos, raw`tick
      ensures r == None ==> Valid() && pending == Some(e) && HeldNow() == old(HeldNow())
      ensures r.Some? && r.value.Some? ==>
                Settle(raw.bytes, e, old(HeldNow()), fmt) == Yielded(r.value.value)
                && (r.value.value.Member? ==> Valid() && pending == None && HeldNow() == NOTHING)
      ensures r == Some(None) ==>
                Valid() && pending == None && raw.next == e.next
                && var s := Settle(raw.bytes, e, old(HeldNow()), fmt); s.Absorbed? && HeldNow() == s.held
      ensures OutOfPlace(fmt.facts(e.header)) ==> r == Some(Some(Stop(NotPermitted)))
      ensures IsMember(fmt.facts(e.header)) ==> r == Some(Some(Member(e, old(HeldNow()))))
      ensures r == Some(None) ==> GivesWhole(e, old(HeldNow()), HeldNow())
    {
      Ways(e, HeldNow());
      var k := Classify(fmt.facts(e.header));
      var h := Held(if longname.full then longname.buffer else None,
                    if longlink.full then longlink.buffer else None,
                    if pax.full then pax.buffer else None);
      var refused := Before(fmt, h, k);
      if refused.Some? {
        return Some(Some(Stop(refused.value)));
      }
      if !Extension(k) {
        var held := Release();
        return Some(Some(Member(e, held)));
      }
      NotFull(k);
      r := ReadExtension(e, k, h, turns);
    }

    /** The header's data is held now, whole, as what it gives. */
    ghost predicate GivesWhole(e: EntryItem, before: Held, after: Held)
      reads raw
    {
      e.filePos + e.size <= |raw.bytes|
      && exists a: Attr :: Gives(fmt.facts(e.header), a) && Takes(before, a, DataOf(raw.bytes, e), after)
    }

    lemma Ways(e: EntryItem, h: Held)
      requires LaidOut(raw.bytes, e)
      ensures var r := Settle(raw.bytes, e, h, fmt);
              && (OutOfPlace(fmt.facts(e.header)) <==> r == Yielded(Stop(NotPermitted)))
              && (IsMember(fmt.facts(e.header)) <==> r == Yielded(Member(e, h)))
              && (r.Absorbed? ==> GivesWhole(e, h, r.held))
    {
      SettleTreats(raw.bytes, e, h, fmt);
      var r := Settle(raw.bytes, e, h, fmt);
      if r.Absorbed? {
        var a: Attr :| Gives(fmt.facts(e.header), a);
        assert Takes(h, a, DataOf(raw.bytes, e), r.held);
      }
    }

    /** A kind that may be read now is not held. */
    lemma NotFull(k: Kind)
      requires Extension(k) && SlotsBut(k) && Before(fmt, HeldNow(), k) == None
      ensures !SlotOf(k).full
    {
      assert SlotOf(Longname) == longname && SlotOf(Longlink) == longlink && SlotOf(Pax) == pax;
    }

    method ReadExtension(e: EntryItem, k: Kind, h: Held, turns: nat -> TR.Turn) returns (r: Option<Option<Yield>>)
      requires pending == None && k == Classify(fmt.facts(e.header)) && Extension(k) && SlotsBut(k)
      requires h == HeldNow() && Before(fmt, h, k) == None && !SlotOf(k).full
      requires Inside(e, if SlotOf(k).buffer.Some? then SlotOf(k).buffer.value else [])
      modifies this, raw`pos, raw`tick
      ensures r == None ==> Valid() && pending == Some(e) && HeldNow() == h
      ensures r.Some? && r.value.Some? ==> Settle(raw.bytes, e, h, fmt) == Yielded(r.value.value) && r.value.value.Stop?
      ensures r == Some(None) ==>
                Valid() && pending == None && raw.next == e.next
                && var s := Settle(raw.bytes, e, h, fmt); s.Absorbed? && HeldNow() == s.held
    {
      var slot := SlotOf(k);
      var done, whole := ReadAll(e, if slot.buffer.Some? then slot.buffer.value else [], turns);
      if done == None {
        SetSlot(k, Slot(false, Some(whole)));
        pending := Some(e);
        return None;
      }
      if !done.value {
        return Some(Some(Stop(DataEof)));
      }
      var unusable := Afterwards(fmt, h, k, whole);
      if unusable.Some? {
        return Some(Some(Stop(unusable.value)));
      }
      SetSlot(k, Slot(true, Some(whole)));
      return Some(None);
    }

    /** Slots are in order, but for the one of kind `k` that may be half read. */
    ghost predicate SlotsBut(k: Kind)
      reads this
    {
      forall j :: Extension(j) ==>
        var s := SlotOf(j);
        if s.full then s.buffer.Some? else s.buffer.Some? ==> j == k
    }

    /** The entry to treat: the suspended one, or the next of the raw stream. */
    method TakeNext(turns: nat -> TR.Turn) returns (r: Option<TR.Item>)
      requires Valid()
      modifies this`pending, raw`pos, raw`tick, raw`headerPos, raw`next, raw`current, raw`limit, raw.block
      ensures HeldNow() == old(HeldNow())
      ensures r == None ==> Valid() && Target() == old(Target()) && pending == old(pending) == None
      ensures r.Some? && !r.value.Entry? ==>
                old(Target()) == if r.value.Failed? then Stop(Raw(r.value.error)) else AtEnd(HeldNow())
      ensures r.Some? && r.value.Entry? ==>
                var e: EntryItem := r.value;
                var k := Classify(fmt.facts(e.header));
                && pending == None && SlotsBut(k)
                && Inside(e, if Extension(k) && !SlotOf(k).full && SlotOf(k).buffer.Some? then SlotOf(k).buffer.value else [])
                && old(Target()) == AfterEntry(raw.bytes, e, HeldNow(), raw.mode, fmt)
                && (if old(pending).Some? then old(pending) == Some(e) else old(raw.next) < e.filePos <= |raw.bytes|)
    {
      if pending.Some? {
        r := Some(pending.value);
        pending := None;
        return;
      }
      r := PollRaw(turns);
    }

    lemma HeldMeansFull()
      requires SlotsOk()
      ensures Any(HeldNow()) == (longname.full || longlink.full || pax.full)
    {
      assert SlotOf(Longname) == longname && SlotOf(Longlink) == longlink && SlotOf(Pax) == pax;
    }

    method PollRaw(turns: nat -> TR.Turn) returns (r: Option<TR.Item>)
      requires Valid() && pending == None
      modifies raw`pos, raw`tick, raw`headerPos, raw`next, raw`current, raw`limit, raw.block
      ensures r == None ==> Valid() && Target() == old(Target())
      ensures r.Some? && !r.value.Entry? ==>
                old(Target()) == if r.value.Failed? then Stop(Raw(r.value.error)) else AtEnd(HeldNow())
      ensures r.Some? && r.value.Entry? ==>
                var e: EntryItem := r.value;
                && Inside(e, []) && old(Target()) == AfterEntry(raw.bytes, e, HeldNow(), raw.mode, fmt)
                && old(raw.next) < e.filePos <= |raw.bytes|
    {
      HeldMeansFull();
      var ctx := TR.Context(if pax.full then pax.buffer else None, longname.full || longlink.full || pax.full);
      TR.ItemsAreLaidOut(raw.bytes, raw.next, raw.mode, ctx);
      r := raw.PollNext(ctx, turns);
    }

    function AtEnd(h: Held): Yield {
      if raw.mode.paxOnly && h.pax.Some? then Stop(PaxNotFollowed) else if Any(h) then Stop(NotFollowed) else Done
    }

    /** `poll_next`: pending, or exactly the member the archive's bytes say comes
        next, with its extensions, wherever and however often it was suspended. */
    method PollMember(turns: nat -> TR.Turn) returns (r: Option<Yield>)
      requires Valid()
      modifies this, raw`pos, raw`tick, raw`headerPos, raw`next, raw`current, raw`limit, raw.block
      ensures r == None ==> Valid() && Target() == old(Target())
      ensures r.Some? ==> r.value == old(Target())
      ensures r.Some? && r.value.Member? ==> Valid() && pending == None && HeldNow() == NOTHING
      ensures r.Some? && old(pending) == None && old(HeldNow()) == NOTHING ==>
                Explains(raw.bytes, fmt, Headers(raw.bytes, old(raw.next), NOTHING, raw.mode, fmt), r.value)
    {
      MembersAreAttributed(raw.bytes, raw.next, raw.mode, fmt);
      while true
        invariant Valid() && Target() == old(Target())
        decreases Measure()
      {
        ghost var measure := Measure();
        var item := TakeNext(turns);
        if item == None {
          return None;
        }
        match item.value {
          case End => return Some(AtEnd(Held(if longname.full then longname.buffer else None,
                                             if longlink.full then longlink.buffer else None,
                                             if pax.full then pax.buffer else None)));
          case Failed(error) => return Some(Stop(Raw(error)));
          case Entry(_, _, _, _, _) =>
            var treated := Treat(item.value, turns);
            if treated == None {
              return None;
            }
            if treated.value.Some? {
              return treated.value;
            }
        }
      }
    }

    ghost function Measure(): nat
      reads this, raw
    {
      if pending.Some? then 2 * Left(raw.bytes, pending.value.filePos) + 1 else 2 * Left(raw.bytes, raw.next)
    }
  }
}
