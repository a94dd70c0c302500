/** Whose extension is whose, said of the header blocks and their bytes alone:
    which headers are read for a later member, what each gives it, which are
    members and which are refused. */
module TarAttribution {
  import opened Wrappers
  import opened TarExtensions
  import TR = TarReader

  /** What a member can be given by the headers before it. */
  datatype Attr = LongName | LongLink | LocalPax

  /** The header gives `a` to the member behind it. */
  predicate Gives(f: Facts, a: Attr) {
    match a
    case LongName => f.flag.LongnameFlag? && (f.gnu || f.ustar)
    case LongLink => f.flag.LonglinkFlag? && (f.gnu || f.ustar)
    case LocalPax => (f.flag.PaxFlag? || f.flag.SolarisPaxFlag?) && f.ustar
  }

  /** An extension flag on a header of a format that has no such extension. */
  predicate OutOfPlace(f: Facts) {
    || ((f.flag.LongnameFlag? || f.flag.LonglinkFlag?) && !f.gnu && !f.ustar)
    || (f.flag.PaxFlag? && !f.ustar)
  }

  predicate GivesSome(f: Facts) {
    exists a: Attr :: Gives(f, a)
  }

  predicate IsMember(f: Facts) {
    !OutOfPlace(f) && !GivesSome(f)
  }

  function Given(h: Held, a: Attr): Option<Bytes> {
    match a case LongName => h.longname case LongLink => h.longlink case LocalPax => h.pax
  }

  /** `r` is `h` with `a` given as `content`. */
  predicate Takes(h: Held, a: Attr, content: Bytes, r: Held) {
    forall b: Attr :: Given(r, b) == if b == a then Some(content) else Given(h, b)
  }

  function DataOf(bytes: Bytes, e: EntryItem): Bytes
    requires e.filePos + e.size <= |bytes|
  {
    bytes[e.filePos..e.filePos + e.size]
  }

  /** Each record is well-formed and says something. */
  predicate Usable(rs: seq<Record>) {
    forall i :: 0 <= i < |rs| ==> rs[i].Record? && rs[i].value != []
  }

  predicate WellFormed(rs: seq<Record>) {
    forall i :: 0 <= i < |rs| ==> rs[i].Record?
  }

  /** The held pax block names this attribute, or is malformed. */
  predicate PaxSpeaksOf(fmt: Format, h: Held, key: string) {
    h.pax.Some? && (HasKey(fmt.records(h.pax.value), key) || !WellFormed(fmt.records(h.pax.value)))
  }

  /** The header's data can be held beside what is held. */
  predicate Fits(fmt: Format, h: Held, a: Attr, content: Bytes) {
    && Given(h, a) == None
    && match a
       case LongName => !PaxSpeaksOf(fmt, h, "path")
       case LongLink => !PaxSpeaksOf(fmt, h, "linkpath")
       case LocalPax =>
         && Usable(fmt.records(content))
         && (h.longname.Some? ==> !HasKey(fmt.records(content), "path"))
         && (h.longlink.Some? ==> !HasKey(fmt.records(content), "linkpath"))
  }

  /** Each error has its reason. */
  predicate Justified(bytes: Bytes, e: EntryItem, h: Held, fmt: Format, fault: Fault) {
    var f := fmt.facts(e.header);
    match fault
    case NotPermitted => OutOfPlace(f)
    case TwoLong => (Gives(f, LongName) && h.longname.Some?) || (Gives(f, LongLink) && h.longlink.Some?)
    case TwoPax => Gives(f, LocalPax) && h.pax.Some?
    case DataEof => !IsMember(f) && e.filePos + e.size > |bytes|
    case AmbiguousPath =>
      || (Gives(f, LongName) && PaxSpeaksOf(fmt, h, "path"))
      || (Gives(f, LocalPax) && h.longname.Some? && e.filePos + e.size <= |bytes| && HasKey(fmt.records(DataOf(bytes, e)), "path"))
    case AmbiguousLink =>
      || (Gives(f, LongLink) && PaxSpeaksOf(fmt, h, "linkpath"))
      || (Gives(f, LocalPax) && h.longlink.Some? && e.filePos + e.size <= |bytes| && HasKey(fmt.records(DataOf(bytes, e)), "linkpath"))
    case MalformedPax =>
      || ((Gives(f, LongName) || Gives(f, LongLink)) && h.pax.Some? && !WellFormed(fmt.records(h.pax.value)))
      || (Gives(f, LocalPax) && e.filePos + e.size <= |bytes| && !WellFormed(fmt.records(DataOf(bytes, e))))
    case EmptyPax => Gives(f, LocalPax) && e.filePos + e.size <= |bytes| && !Usable(fmt.records(DataOf(bytes, e)))
    case _ => false
  }

  /** What becomes of one header, by its facts: refused, a member with all that is
      held, or held itself exactly when its data is there and fits. */
  ghost predicate Treated(bytes: Bytes, e: EntryItem, h: Held, fmt: Format, r: Step) {
    var f := fmt.facts(e.header);
    && (OutOfPlace(f) <==> r == Yielded(Stop(NotPermitted)))
    && (IsMember(f) <==> r.Yielded? && r.y.Member?)
    && (IsMember(f) ==> r == Yielded(Member(e, h)))
    && (forall a: Attr :: Gives(f, a) ==>
          if e.filePos + e.size <= |bytes| && Fits(fmt, h, a, DataOf(bytes, e)) then
            r.Absorbed? && r.next == e.next && r.content == DataOf(bytes, e) && Takes(h, a, r.content, r.held)
          else r.Yielded? && r.y.Stop?)
    && (r.Yielded? && r.y.Stop? ==> Justified(bytes, e, h, fmt, r.y.fault))
  }

  lemma {:induction false} ClashExactly(rs: seq<Record>, key: string, fault: Fault)
    requires fault != MalformedPax
    ensures var c := Clash(rs, key, fault);
            && (c == None <==> WellFormed(rs) && !HasKey(rs, key))
            && (c == None || c == Some(fault) || c == Some(MalformedPax))
            && (c == Some(fault) ==> HasKey(rs, key)) && (c == Some(MalformedPax) ==> !WellFormed(rs))
  {
    if rs != [] {
      ClashExactly(rs[1..], key, fault);
      assert forall i :: 1 <= i < |rs| ==> rs[i] == rs[1..][i - 1];
      assert HasKey(rs, key) <==> (rs[0].Record? && rs[0].key == key) || HasKey(rs[1..], key) by {
        if HasKey(rs[1..], key) {
          var i :| 0 <= i < |rs[1..]| && rs[1..][i].Record? && rs[1..][i].key == key;
          assert rs[i + 1].key == key;
        }
      }
      assert WellFormed(rs) <==> rs[0].Record? && WellFormed(rs[1..]) by {
        if WellFormed(rs) {
          assert forall i :: 0 <= i < |rs[1..]| ==> rs[1..][i] == rs[i + 1];
        }
      }
    }
  }

  lemma {:induction false} PaxProblemExactly(rs: seq<Record>, longname: bool)
    ensures var c := PaxProblem(rs, longname);
            && (c == None <==> Usable(rs) && (longname ==> !HasKey(rs, "path")))
            && (c == None || c == Some(MalformedPax) || c == Some(EmptyPax) || c == Some(AmbiguousPath))
            && (c == Some(MalformedPax) ==> !WellFormed(rs)) && (c == Some(EmptyPax) ==> !Usable(rs))
            && (c == Some(AmbiguousPath) ==> longname && HasKey(rs, "path"))
  {
    if rs != [] {
      PaxProblemExactly(rs[1..], longname);
      assert forall i :: 1 <= i < |rs| ==> rs[i] == rs[1..][i - 1];
      assert forall i :: 0 <= i < |rs[1..]| ==> rs[1..][i] == rs[i + 1];
      assert Usable(rs) <==> rs[0].Record? && rs[0].value != [] && Usable(rs[1..]);
      assert WellFormed(rs) <==> rs[0].Record? && WellFormed(rs[1..]);
      assert HasKey(rs, "path") <==> (rs[0].Record? && rs[0].key == "path") || HasKey(rs[1..], "path") by {
        if HasKey(rs[1..], "path") {
          var i :| 0 <= i < |rs[1..]| && rs[1..][i].Record? && rs[1..][i].key == "path";
          assert rs[i + 1].key == "path";
        }
      }
    }
  }

  lemma LongTreated(bytes: Bytes, e: EntryItem, h: Held, fmt: Format)
    requires LaidOut(bytes, e)
    requires Gives(fmt.facts(e.header), LongName) || Gives(fmt.facts(e.header), LongLink)
    ensures Treated(bytes, e, h, fmt, Settle(bytes, e, h, fmt))
  {
    if h.pax.Some? {
      ClashExactly(fmt.records(h.pax.value), "path", AmbiguousPath);
      ClashExactly(fmt.records(h.pax.value), "linkpath", AmbiguousLink);
    }
  }

  lemma PaxTreated(bytes: Bytes, e: EntryItem, h: Held, fmt: Format)
    requires LaidOut(bytes, e) && Gives(fmt.facts(e.header), LocalPax)
    ensures Treated(bytes, e, h, fmt, Settle(bytes, e, h, fmt))
  {
    if e.filePos + e.size <= |bytes| {
      PaxProblemExactly(fmt.records(DataOf(bytes, e)), h.longname.Some?);
    }
  }

  /** One header, by what its block says and what is held. */
  lemma SettleTreats(bytes: Bytes, e: EntryItem, h: Held, fmt: Format)
    requires LaidOut(bytes, e)
    ensures Treated(bytes, e, h, fmt, Settle(bytes, e, h, fmt))
  {
    var f := fmt.facts(e.header);
    if Gives(f, LongName) || Gives(f, LongLink) {
      LongTreated(bytes, e, h, fmt);
    } else if Gives(f, LocalPax) {
      PaxTreated(bytes, e, h, fmt);
    }
  }

  // --- a member and the headers before it ---

  /** The headers read on the way to the next member, from `next` on. */
  function Headers(bytes: Bytes, next: nat, h: Held, mode: TR.Mode, fmt: Format): seq<EntryItem>
    requires next % TR.BLOCK == 0
    decreases Left(bytes, next)
  {
    match StepAt(bytes, next, h, mode, fmt)
    case Yielded(_) => []
    case Absorbed(_, _, next1, h1) =>
      var e: EntryItem := TR.ItemAt(bytes, next, mode, TR.Context(h.pax, Any(h)));
      [e] + Headers(bytes, next1, h1, mode, fmt)
  }

  /** Each item's header stands in the archive, and each is where the one before it
      ends. */
  ghost predicate InARow(bytes: Bytes, es: seq<EntryItem>) {
    && (forall i :: 0 <= i < |es| ==>
          && es[i].headerPos + TR.BLOCK == es[i].filePos <= |bytes|
          && es[i].header == bytes[es[i].headerPos..es[i].filePos]
          && es[i].filePos + es[i].size <= es[i].next)
    && forall i :: 0 <= i < |es| - 1 ==> es[i + 1].headerPos == es[i].next && es[i].filePos + es[i].size <= |bytes|
  }

  /** `found` is the data of the one header among them that gives `a`; `None` when
      none does. */
  ghost predicate FromTheOne(bytes: Bytes, fmt: Format, es: seq<EntryItem>, a: Attr, found: Option<Bytes>) {
    && (forall i :: 0 <= i < |es| && Gives(fmt.facts(es[i].header), a) ==>
          es[i].filePos + es[i].size <= |bytes| && found == Some(DataOf(bytes, es[i])))
    && (forall i, j :: 0 <= i < j < |es| ==> !(Gives(fmt.facts(es[i].header), a) && Gives(fmt.facts(es[j].header), a)))
    && (found.Some? ==> exists i :: 0 <= i < |es| && Gives(fmt.facts(es[i].header), a))
  }

  ghost predicate Attributed(bytes: Bytes, fmt: Format, es: seq<EntryItem>, h: Held) {
    && (forall a: Attr :: FromTheOne(bytes, fmt, es, a, Given(h, a)))
    && forall i :: 0 <= i < |es| ==> GivesSome(fmt.facts(es[i].header))
  }

  lemma GivesOne(f: Facts, a: Attr, b: Attr)
    requires Gives(f, a) && Gives(f, b)
    ensures a == b
  {
  }

  lemma OneMoreFrom(bytes: Bytes, fmt: Format, es: seq<EntryItem>, e: EntryItem, a: Attr, found: Option<Bytes>)
    requires FromTheOne(bytes, fmt, es, a, found)
    requires Gives(fmt.facts(e.header), a) ==> found == None && e.filePos + e.size <= |bytes|
    ensures FromTheOne(bytes, fmt, es + [e], a, if Gives(fmt.facts(e.header), a) then Some(DataOf(bytes, e)) else found)
  {
    var all := es + [e];
    assert all[|es|] == e && forall i :: 0 <= i < |es| ==> all[i] == es[i];
    if found.Some? {
      var i :| 0 <= i < |es| && Gives(fmt.facts(es[i].header), a);
      assert Gives(fmt.facts(all[i].header), a);
    }
  }

  lemma AttributedMore(bytes: Bytes, fmt: Format, es: seq<EntryItem>, h: Held, e: EntryItem, a: Attr, r: Held)
    requires Attributed(bytes, fmt, es, h) && Gives(fmt.facts(e.header), a) && Given(h, a) == None
    requires e.filePos + e.size <= |bytes| && Takes(h, a, DataOf(bytes, e), r)
    ensures Attributed(bytes, fmt, es + [e], r)
  {
    forall b: Attr ensures FromTheOne(bytes, fmt, es + [e], b, Given(r, b)) {
      if Gives(fmt.facts(e.header), b) {
        GivesOne(fmt.facts(e.header), a, b);
      }
      OneMoreFrom(bytes, fmt, es, e, b, Given(h, b));
    }
    assert GivesSome(fmt.facts(e.header));
  }

  lemma ReadMeansHeld(bytes: Bytes, fmt: Format, es: seq<EntryItem>, h: Held)
    requires Attributed(bytes, fmt, es, h)
    ensures Any(h) <==> es != []
  {
    if es != [] {
      var a: Attr :| Gives(fmt.facts(es[0].header), a);
      assert FromTheOne(bytes, fmt, es, a, Given(h, a));
    }
    assert Any(h) <==> Given(h, LongName).Some? || Given(h, LongLink).Some? || Given(h, LocalPax).Some?;
  }

  /** The stream stands behind `es`, which gave what is held. */
  ghost predicate Behind(bytes: Bytes, next: nat, h: Held, fmt: Format, es: seq<EntryItem>) {
    && next % TR.BLOCK == 0 && Attributed(bytes, fmt, es, h) && InARow(bytes, es)
    && (es != [] ==> next == es[|es| - 1].next && es[|es| - 1].filePos + es[|es| - 1].size <= |bytes|)
  }

  /** The next header is right behind those held. */
  lemma NextInARow(bytes: Bytes, next: nat, h: Held, mode: TR.Mode, fmt: Format, es: seq<EntryItem>)
    requires Behind(bytes, next, h, fmt, es) && TR.ItemAt(bytes, next, mode, TR.Context(h.pax, Any(h))).Entry?
    ensures var e: EntryItem := TR.ItemAt(bytes, next, mode, TR.Context(h.pax, Any(h)));
            LaidOut(bytes, e) && InARow(bytes, es + [e])
  {
    var e: EntryItem := TR.ItemAt(bytes, next, mode, TR.Context(h.pax, Any(h)));
    TR.ItemsAreLaidOut(bytes, next, mode, TR.Context(h.pax, Any(h)));
    ReadMeansHeld(bytes, fmt, es, h);
    if es != [] {
      assert e == TR.EntryAt(bytes, next, mode, TR.Context(h.pax, Any(h)));
    }
    var all := es + [e];
    assert all[|es|] == e && forall i :: 0 <= i < |es| ==> all[i] == es[i];
  }

  /** A reason for the error in the headers `es` and the one behind them. */
  ghost predicate Blamed(bytes: Bytes, fmt: Format, es: seq<EntryItem>, e: EntryItem, h: Held, fault: Fault) {
    InARow(bytes, es + [e]) && Attributed(bytes, fmt, es, h) && Justified(bytes, e, h, fmt, fault)
  }

  /** What is yielded after the headers `es`, and why. */
  ghost predicate Explains(bytes: Bytes, fmt: Format, es: seq<EntryItem>, y: Yield) {
    match y
    case Member(e, held) => InARow(bytes, es + [e]) && IsMember(fmt.facts(e.header)) && Attributed(bytes, fmt, es, held)
    case Done => es == []
    case Stop(Raw(_)) => true
    case Stop(NotFollowed) => es != []
    case Stop(PaxNotFollowed) => exists i :: 0 <= i < |es| && Gives(fmt.facts(es[i].header), LocalPax)
    case Stop(fault) => exists e: EntryItem, h: Held :: Blamed(bytes, fmt, es, e, h, fault)
  }

  lemma YieldExplained(bytes: Bytes, next: nat, h: Held, mode: TR.Mode, fmt: Format, es: seq<EntryItem>)
    requires Behind(bytes, next, h, fmt, es) && StepAt(bytes, next, h, mode, fmt).Yielded?
    ensures Explains(bytes, fmt, es, StepAt(bytes, next, h, mode, fmt).y)
  {
    var item := TR.ItemAt(bytes, next, mode, TR.Context(h.pax, Any(h)));
    var y := StepAt(bytes, next, h, mode, fmt).y;
    ReadMeansHeld(bytes, fmt, es, h);
    assert FromTheOne(bytes, fmt, es, LocalPax, Given(h, LocalPax));
    if item.Entry? {
      NextInARow(bytes, next, h, mode, fmt, es);
      SettleTreats(bytes, item, h, fmt);
      if y.Stop? {
        assert Blamed(bytes, fmt, es, item, h, y.fault);
      }
    }
  }

  lemma AbsorbedIsBehind(bytes: Bytes, next: nat, h: Held, mode: TR.Mode, fmt: Format, es: seq<EntryItem>)
    requires Behind(bytes, next, h, fmt, es) && StepAt(bytes, next, h, mode, fmt).Absorbed?
    ensures var e: EntryItem := TR.ItemAt(bytes, next, mode, TR.Context(h.pax, Any(h)));
            var r := StepAt(bytes, next, h, mode, fmt);
            Behind(bytes, r.next, r.held, fmt, es + [e])
  {
    var e: EntryItem := TR.ItemAt(bytes, next, mode, TR.Context(h.pax, Any(h)));
    var r := StepAt(bytes, next, h, mode, fmt);
    NextInARow(bytes, next, h, mode, fmt, es);
    SettleTreats(bytes, e, h, fmt);
    assert !OutOfPlace(fmt.facts(e.header)) && !IsMember(fmt.facts(e.header));
    var a: Attr :| Gives(fmt.facts(e.header), a);
    assert Takes(h, a, DataOf(bytes, e), r.held);
    AttributedMore(bytes, fmt, es, h, e, a, r.held);
  }

  lemma OneFurther(bytes: Bytes, next: nat, h: Held, mode: TR.Mode, fmt: Format, es: seq<EntryItem>)
    requires next % TR.BLOCK == 0 && StepAt(bytes, next, h, mode, fmt).Absorbed?
    ensures var e: EntryItem := TR.ItemAt(bytes, next, mode, TR.Context(h.pax, Any(h)));
            var r := StepAt(bytes, next, h, mode, fmt);
            && NextMember(bytes, next, h, mode, fmt) == NextMember(bytes, r.next, r.held, mode, fmt)
            && es + Headers(bytes, next, h, mode, fmt) == (es + [e]) + Headers(bytes, r.next, r.held, mode, fmt)
  {
  }

  lemma {:induction false} OnTheWay(bytes: Bytes, next: nat, h: Held, mode: TR.Mode, fmt: Format, es: seq<EntryItem>)
    requires Behind(bytes, next, h, fmt, es)
    ensures Explains(bytes, fmt, es + Headers(bytes, next, h, mode, fmt), NextMember(bytes, next, h, mode, fmt))
    decreases Left(bytes, next)
  {
    var r := StepAt(bytes, next, h, mode, fmt);
    if r.Yielded? {
      YieldExplained(bytes, next, h, mode, fmt, es);
      assert es + [] == es;
    } else {
      AbsorbedIsBehind(bytes, next, h, mode, fmt, es);
      OneFurther(bytes, next, h, mode, fmt, es);
      OnTheWay(bytes, r.next, r.held, mode, fmt, es + [TR.ItemAt(bytes, next, mode, TR.Context(h.pax, Any(h)))]);
    }
  }

  /** Every member of every archive: the headers read since the last one stand in a
      row before it, and each attribute it carries is the data of the one header
      among them that gives this attribute, and is absent when none does.  An end
      comes without such headers, and each error has its reason in them. */
  lemma MembersAreAttributed(bytes: Bytes, next: nat, mode: TR.Mode, fmt: Format)
    requires next % TR.BLOCK == 0
    ensures Explains(bytes, fmt, Headers(bytes, next, NOTHING, mode, fmt), NextMember(bytes, next, NOTHING, mode, fmt))
  {
    OnTheWay(bytes, next, NOTHING, mode, fmt, []);
    assert [] + Headers(bytes, next, NOTHING, mode, fmt) == Headers(bytes, next, NOTHING, mode, fmt);
  }
}
