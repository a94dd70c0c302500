/** The stream of members (`Entries::poll_next`): GNU long names, long links and
    local pax blocks are absorbed and attached to the member they precede. */
module TarExtensions {
  import opened Wrappers
  import TR = TarReader

  type Bytes = seq<bv8>

  datatype TypeFlag = LongnameFlag | LonglinkFlag | PaxFlag | SolarisPaxFlag | GlobalPaxFlag | OtherFlag

  /** What a header block says about itself, decoded. */
  datatype Facts = Facts(ustar: bool, gnu: bool, flag: TypeFlag)

  /** A pax record; the iteration stops after a malformed one. */
  datatype Record = Malformed | Record(key: string, value: Bytes)

  datatype Format = Format(facts: Bytes -> Facts, records: Bytes -> seq<Record>)

  datatype Kind = Longname | Longlink | Pax | Ordinary | Refused

  /** The extension blocks read and not yet attached. */
  datatype Held = Held(longname: Option<Bytes>, longlink: Option<Bytes>, pax: Option<Bytes>)

  const NOTHING := Held(None, None, None)

  datatype Fault =
    | Raw(error: TR.Error) | NotFollowed | PaxNotFollowed | NotPermitted | TwoLong | TwoPax
    | AmbiguousPath | AmbiguousLink | MalformedPax | EmptyPax | DataEof

  type EntryItem = e: TR.Item | e.Entry? witness TR.Entry([], 0, 0, 0, 0)

  datatype Yield = Member(entry: EntryItem, held: Held) | Done | Stop(fault: Fault)

  /** What one header leads to. */
  datatype Step = Absorbed(kind: Kind, content: Bytes, next: nat, held: Held) | Yielded(y: Yield)

  function Classify(f: Facts): Kind {
    var permits := f.gnu || f.ustar;
    if (!permits && (f.flag.LongnameFlag? || f.flag.LonglinkFlag?)) || (!f.ustar && f.flag.PaxFlag?) then Refused
    else if permits && f.flag.LongnameFlag? then Longname
    else if permits && f.flag.LonglinkFlag? then Longlink
    else if f.ustar && (f.flag.PaxFlag? || f.flag.SolarisPaxFlag?) then Pax
    else Ordinary
  }

  predicate Any(h: Held) {
    h.longname.Some? || h.longlink.Some? || h.pax.Some?
  }

  /** The scan of held pax records when a long name or link arrives. */
  function Clash(rs: seq<Record>, key: string, fault: Fault): Option<Fault> {
    if rs == [] then None
    else if rs[0].Malformed? then Some(MalformedPax)
    else if rs[0].key == key then Some(fault)
    else Clash(rs[1..], key, fault)
  }

  /** The scan of newly read pax records. */
  function PaxProblem(rs: seq<Record>, longname: bool): Option<Fault> {
    if rs == [] then None
    else if rs[0].Malformed? then Some(MalformedPax)
    else if rs[0].value == [] then Some(EmptyPax)
    else if longname && rs[0].key == "path" then Some(AmbiguousPath)
    else PaxProblem(rs[1..], longname)
  }

  predicate HasKey(rs: seq<Record>, key: string) {
    exists i :: 0 <= i < |rs| && rs[i].Record? && rs[i].key == key
  }

  /** What is refused before an extension's data is read. */
  function Before(fmt: Format, h: Held, k: Kind): Option<Fault> {
    match k
    case Refused => Some(NotPermitted)
    case Longname =>
      var clash := if h.pax.Some? then Clash(fmt.records(h.pax.value), "path", AmbiguousPath) else None;
      if clash.Some? then clash else if h.longname.Some? then Some(TwoLong) else None
    case Longlink =>
      var clash := if h.pax.Some? then Clash(fmt.records(h.pax.value), "linkpath", AmbiguousLink) else None;
      if clash.Some? then clash else if h.longlink.Some? then Some(TwoLong) else None
    case Pax => if h.pax.Some? then Some(TwoPax) else None
    case Ordinary => None
  }

  /** What is refused once it is read. */
  function Afterwards(fmt: Format, h: Held, k: Kind, content: Bytes): Option<Fault> {
    if k != Pax then None
    else
      var problem := PaxProblem(fmt.records(content), h.longname.Some?);
      if problem.Some? then problem
      else if HasKey(fmt.records(content), "linkpath") && h.longlink.Some? then Some(AmbiguousLink)
      else None
  }

  function Absorb(h: Held, k: Kind, content: Bytes): Held {
    match k
    case Longname => h.(longname := Some(content))
    case Longlink => h.(longlink := Some(content))
    case Pax => h.(pax := Some(content))
    case _ => h
  }

  predicate Extension(k: Kind) {
    k.Longname? || k.Longlink? || k.Pax?
  }

  function Left(bytes: Bytes, at: nat): nat {
    if at <= |bytes| then |bytes| - at + 1 else 0
  }

  predicate LaidOut(bytes: Bytes, e: EntryItem) {
    e.filePos <= |bytes| && e.filePos + e.size <= e.next && e.next % TR.BLOCK == 0
  }

  /** The treatment of one entry. */
  function Settle(bytes: Bytes, e: EntryItem, h: Held, fmt: Format): (r: Step)
    requires LaidOut(bytes, e)
    ensures r.Absorbed? ==> Extension(r.kind) && r.next == e.next
  {
    var k := Classify(fmt.facts(e.header));
    if Before(fmt, h, k).Some? then Yielded(Stop(Before(fmt, h, k).value))
    else if !Extension(k) then Yielded(Member(e, h))
    else if e.filePos + e.size > |bytes| then Yielded(Stop(DataEof))
    else
      var content := bytes[e.filePos..e.filePos + e.size];
      if Afterwards(fmt, h, k, content).Some? then Yielded(Stop(Afterwards(fmt, h, k, content).value))
      else Absorbed(k, content, e.next, Absorb(h, k, content))
  }

  function StepAt(bytes: Bytes, next: nat, h: Held, mode: TR.Mode, fmt: Format): (r: Step)
    requires next % TR.BLOCK == 0
    ensures r.Absorbed? ==> Extension(r.kind) && r.next % TR.BLOCK == 0 && Left(bytes, r.next) < Left(bytes, next)
  {
    TR.ItemsAreLaidOut(bytes, next, mode, TR.Context(h.pax, Any(h)));
    var e := TR.ItemAt(bytes, next, mode, TR.Context(h.pax, Any(h)));
    match e
    case End =>
      Yielded(if mode.paxOnly && h.pax.Some? then Stop(PaxNotFollowed) else if Any(h) then Stop(NotFollowed) else Done)
    case Failed(error) => Yielded(Stop(Raw(error)))
    case Entry(_, _, _, _, _) => Settle(bytes, e, h, fmt)
  }

  /** The next member from `next` on, with `h` held: a function of the bytes alone. */
  function NextMember(bytes: Bytes, next: nat, h: Held, mode: TR.Mode, fmt: Format): Yield
    requires next % TR.BLOCK == 0
    decreases Left(bytes, next)
  {
    match StepAt(bytes, next, h, mode, fmt)
    case Yielded(y) => y
    case Absorbed(_, _, next1, h1) => NextMember(bytes, next1, h1, mode, fmt)
  }

  function AfterEntry(bytes: Bytes, e: EntryItem, h: Held, mode: TR.Mode, fmt: Format): Yield
    requires LaidOut(bytes, e)
  {
    match Settle(bytes, e, h, fmt)
    case Yielded(y) => y
    case Absorbed(_, _, next1, h1) => NextMember(bytes, next1, h1, mode, fmt)
  }

  // --- what a member carries ---

  datatype Extra = Extra(kind: Kind, content: Bytes)

  /** The extension blocks read on the way to the next member. */
  function Blocks(bytes: Bytes, next: nat, h: Held, mode: TR.Mode, fmt: Format): seq<Extra>
    requires next % TR.BLOCK == 0
    decreases Left(bytes, next)
  {
    match StepAt(bytes, next, h, mode, fmt)
    case Yielded(_) => []
    case Absorbed(k, content, next1, h1) => [Extra(k, content)] + Blocks(bytes, next1, h1, mode, fmt)
  }

  /** `found` is the one block of this kind, if there is one. */
  ghost predicate TheOnly(xs: seq<Extra>, k: Kind, found: Option<Bytes>) {
    && (forall i, j :: 0 <= i < j < |xs| && xs[i].kind == k ==> xs[j].kind != k)
    && (forall i :: 0 <= i < |xs| && xs[i].kind == k ==> found == Some(xs[i].content))
    && (found.Some? ==> exists i :: 0 <= i < |xs| && xs[i].kind == k)
  }

  /** Exactly the blocks read are held. */
  ghost predicate Exactly(h: Held, xs: seq<Extra>) {
    && TheOnly(xs, Longname, h.longname) && TheOnly(xs, Longlink, h.longlink) && TheOnly(xs, Pax, h.pax)
    && forall i :: 0 <= i < |xs| ==> Extension(xs[i].kind)
  }

  /** No two sources for one attribute, and only usable records. */
  ghost predicate Unambiguous(fmt: Format, h: Held) {
    h.pax.Some? ==>
      var rs := fmt.records(h.pax.value);
      && (h.longname.Some? ==> !HasKey(rs, "path"))
      && (h.longlink.Some? ==> !HasKey(rs, "linkpath"))
      && forall i :: 0 <= i < |rs| ==> rs[i].Record? && rs[i].value != []
  }

  lemma {:induction false} NoClash(rs: seq<Record>, key: string, fault: Fault)
    requires Clash(rs, key, fault) == None
    ensures !HasKey(rs, key)
  {
    if rs != [] {
      NoClash(rs[1..], key, fault);
      assert forall i :: 1 <= i < |rs| ==> rs[i] == rs[1..][i - 1];
    }
  }

  lemma {:induction false} NoProblem(rs: seq<Record>, longname: bool)
    requires PaxProblem(rs, longname) == None
    ensures forall i :: 0 <= i < |rs| ==> rs[i].Record? && rs[i].value != [] && (longname ==> rs[i].key != "path")
  {
    if rs != [] {
      NoProblem(rs[1..], longname);
      assert forall i :: 1 <= i < |rs| ==> rs[i] == rs[1..][i - 1];
    }
  }

  lemma AbsorbKeepsUnambiguous(fmt: Format, h: Held, k: Kind, content: Bytes)
    requires Unambiguous(fmt, h) && Extension(k) && Before(fmt, h, k) == None && Afterwards(fmt, h, k, content) == None
    ensures Unambiguous(fmt, Absorb(h, k, content))
  {
    match k
    case Longname =>
      if h.pax.Some? {
        NoClash(fmt.records(h.pax.value), "path", AmbiguousPath);
      }
    case Longlink =>
      if h.pax.Some? {
        NoClash(fmt.records(h.pax.value), "linkpath", AmbiguousLink);
      }
    case Pax => NoProblem(fmt.records(content), h.longname.Some?);
    case _ =>
  }

  lemma AbsorbKeepsExactly(fmt: Format, h: Held, k: Kind, content: Bytes, xs: seq<Extra>)
    requires Exactly(h, xs) && Extension(k) && Before(fmt, h, k) == None
    ensures Exactly(Absorb(h, k, content), xs + [Extra(k, content)])
  {
    var ys := xs + [Extra(k, content)];
    assert ys[|xs|] == Extra(k, content);
    OnlyNext(xs, Longname, h.longname, k, content);
    OnlyNext(xs, Longlink, h.longlink, k, content);
    OnlyNext(xs, Pax, h.pax, k, content);
  }

  lemma OnlyNext(xs: seq<Extra>, kind: Kind, found: Option<Bytes>, k: Kind, content: Bytes)
    requires TheOnly(xs, kind, found) && (k == kind ==> found == None)
    ensures TheOnly(xs + [Extra(k, content)], kind, if k == kind then Some(content) else found)
  {
    var ys := xs + [Extra(k, content)];
    assert ys[|xs|] == Extra(k, content);
    if found.Some? {
      var i :| 0 <= i < |xs| && xs[i].kind == kind;
      assert ys[i].kind == kind;
    }
  }

  /** A member carries exactly the blocks `xs`; an end comes with none. */
  ghost predicate Carries(fmt: Format, y: Yield, xs: seq<Extra>) {
    && (y.Member? ==> Exactly(y.held, xs) && Unambiguous(fmt, y.held) && !Extension(Classify(fmt.facts(y.entry.header))))
    && (y.Done? ==> xs == [])
  }

  lemma NothingHeldNothingRead(h: Held, xs: seq<Extra>)
    requires Exactly(h, xs) && !Any(h)
    ensures xs == []
  {
    assert xs != [] ==> Extension(xs[0].kind);
  }

  lemma YieldCarries(bytes: Bytes, next: nat, h: Held, mode: TR.Mode, fmt: Format, xs: seq<Extra>)
    requires next % TR.BLOCK == 0 && Exactly(h, xs) && Unambiguous(fmt, h) && StepAt(bytes, next, h, mode, fmt).Yielded?
    ensures Carries(fmt, StepAt(bytes, next, h, mode, fmt).y, xs)
  {
    if StepAt(bytes, next, h, mode, fmt).y.Done? {
      NothingHeldNothingRead(h, xs);
    }
  }

  lemma AbsorbCarries(bytes: Bytes, next: nat, h: Held, mode: TR.Mode, fmt: Format, xs: seq<Extra>)
    requires next % TR.BLOCK == 0 && Exactly(h, xs) && Unambiguous(fmt, h) && StepAt(bytes, next, h, mode, fmt).Absorbed?
    ensures var r := StepAt(bytes, next, h, mode, fmt);
            Exactly(r.held, xs + [Extra(r.kind, r.content)]) && Unambiguous(fmt, r.held)
  {
    var r := StepAt(bytes, next, h, mode, fmt);
    AbsorbKeepsExactly(fmt, h, r.kind, r.content, xs);
    AbsorbKeepsUnambiguous(fmt, h, r.kind, r.content);
  }

  lemma Regroup(xs: seq<Extra>, x: Extra, rest: seq<Extra>)
    ensures xs + ([x] + rest) == (xs + [x]) + rest
  {
  }

  lemma {:induction false} HeldOnTheWay(bytes: Bytes, next: nat, h: Held, mode: TR.Mode, fmt: Format, xs: seq<Extra>)
    requires next % TR.BLOCK == 0 && Exactly(h, xs) && Unambiguous(fmt, h)
    ensures Carries(fmt, NextMember(bytes, next, h, mode, fmt), xs + Blocks(bytes, next, h, mode, fmt))
    decreases Left(bytes, next)
  {
    var r := StepAt(bytes, next, h, mode, fmt);
    var more := Blocks(bytes, next, h, mode, fmt);
    if r.Yielded? {
      YieldCarries(bytes, next, h, mode, fmt, xs);
      assert xs + more == xs;
    } else {
      var x := Extra(r.kind, r.content);
      AbsorbCarries(bytes, next, h, mode, fmt, xs);
      HeldOnTheWay(bytes, r.next, r.held, mode, fmt, xs + [x]);
      Regroup(xs, x, Blocks(bytes, r.next, r.held, mode, fmt));
    }
  }

  /** Each yielded member carries exactly the extension blocks read since the
      previous one, at most one of each kind; its path and link target have one
      source; the end of the archive is reported only with nothing held. */
  lemma MembersCarryTheirExtensions(bytes: Bytes, next: nat, mode: TR.Mode, fmt: Format)
    requires next % TR.BLOCK == 0
    ensures var y := NextMember(bytes, next, NOTHING, mode, fmt);
            var xs := Blocks(bytes, next, NOTHING, mode, fmt);
            && (y.Member? ==> Exactly(y.held, xs) && Unambiguous(fmt, y.held) && !Extension(Classify(fmt.facts(y.entry.header))))
            && (y.Done? ==> xs == [])
  {
    HeldOnTheWay(bytes, next, NOTHING, mode, fmt, []);
    assert [] + Blocks(bytes, next, NOTHING, mode, fmt) == Blocks(bytes, next, NOTHING, mode, fmt);
  }

  // --- global pax headers ---

  predicate IsGlobal(fmt: Format, y: Yield) {
    y.Member? && fmt.facts(y.entry.header).flag.GlobalPaxFlag?
  }

  lemma MemberIsAhead(bytes: Bytes, next: nat, h: Held, mode: TR.Mode, fmt: Format)
    requires next % TR.BLOCK == 0
    ensures var r := StepAt(bytes, next, h, mode, fmt);
            r.Yielded? && r.y.Member? ==>
              r.y.entry.next % TR.BLOCK == 0 && Left(bytes, r.y.entry.next) < Left(bytes, next)
  {
    TR.ItemsAreLaidOut(bytes, next, mode, TR.Context(h.pax, Any(h)));
  }

  /** What extension blocks are for: the file behind them, with the other
      extension headers, global ones included, passed over. */
  function FileBehind(bytes: Bytes, next: nat, h: Held, mode: TR.Mode, fmt: Format): Yield
    requires next % TR.BLOCK == 0
    decreases Left(bytes, next)
  {
    MemberIsAhead(bytes, next, h, mode, fmt);
    match StepAt(bytes, next, h, mode, fmt)
    case Yielded(y) => if IsGlobal(fmt, y) then FileBehind(bytes, y.entry.next, h, mode, fmt) else y
    case Absorbed(_, _, next1, h1) => FileBehind(bytes, next1, h1, mode, fmt)
  }

  lemma {:induction false} FileIsNotGlobal(bytes: Bytes, next: nat, h: Held, mode: TR.Mode, fmt: Format)
    requires next % TR.BLOCK == 0
    ensures !IsGlobal(fmt, FileBehind(bytes, next, h, mode, fmt))
    decreases Left(bytes, next)
  {
    MemberIsAhead(bytes, next, h, mode, fmt);
    match StepAt(bytes, next, h, mode, fmt)
    case Yielded(y) =>
      if IsGlobal(fmt, y) {
        FileIsNotGlobal(bytes, y.entry.next, h, mode, fmt);
      }
    case Absorbed(_, _, next1, h1) => FileIsNotGlobal(bytes, next1, h1, mode, fmt);
  }

  /** A pax record resizes the member it belongs to, not the extension headers on
      the way there. */
  ghost predicate ResizesMembersOnly(mode: TR.Mode, fmt: Format) {
    forall header: Bytes, pax: Option<Bytes> ::
      Extension(Classify(fmt.facts(header))) ==> mode.decode(header, pax) == mode.decode(header, None)
  }

  /** Where the archive has its first header, from `next` on, that is not one of
      the three kinds held; `pending` when one of those was read before. */
  function FirstOther(bytes: Bytes, next: nat, mode: TR.Mode, fmt: Format, pending: bool): (at: Option<nat>)
    ensures at.Some? ==> next <= at.value && at.value + TR.BLOCK <= |bytes|
    decreases Left(bytes, next)
  {
    if next + TR.BLOCK > |bytes| then None
    else
      var header := bytes[next..next + TR.BLOCK];
      if TR.Zero(header) then
        if pending || !mode.ignoreZeros then None else FirstOther(bytes, next + TR.BLOCK, mode, fmt, false)
      else if !Extension(Classify(fmt.facts(header))) then Some(next)
      else match mode.decode(header, None)
        case None => None
        case Some(size) => FirstOther(bytes, next + TR.BLOCK + TR.RoundUp(size), mode, fmt, true)
  }

  /** That header has the global flag. */
  predicate GlobalFirst(bytes: Bytes, next: nat, mode: TR.Mode, fmt: Format, pending: bool) {
    var at := FirstOther(bytes, next, mode, fmt, pending);
    at.Some? && fmt.facts(bytes[at.value..at.value + TR.BLOCK]).flag.GlobalPaxFlag?
  }

  /** A header that is held is passed. */
  lemma HeldHeader(bytes: Bytes, next: nat, h: Held, mode: TR.Mode, fmt: Format)
    requires next % TR.BLOCK == 0 && next + TR.BLOCK <= |bytes| && !TR.Zero(bytes[next..next + TR.BLOCK])
    requires ResizesMembersOnly(mode, fmt) && StepAt(bytes, next, h, mode, fmt).Absorbed?
    ensures var r := StepAt(bytes, next, h, mode, fmt);
            && FirstOther(bytes, next, mode, fmt, Any(h)) == FirstOther(bytes, r.next, mode, fmt, true)
            && Any(r.held) && (h.pax.Some? ==> r.held.pax == h.pax)
  {
    var header := bytes[next..next + TR.BLOCK];
    assert TR.ItemAt(bytes, next, mode, TR.Context(h.pax, Any(h))) == TR.EntryAt(bytes, next, mode, TR.Context(h.pax, Any(h)));
    assert mode.decode(header, h.pax) == mode.decode(header, None);
  }

  /** One that is not held is the member. */
  lemma MemberHeader(bytes: Bytes, next: nat, h: Held, mode: TR.Mode, fmt: Format)
    requires next % TR.BLOCK == 0 && next + TR.BLOCK <= |bytes| && !TR.Zero(bytes[next..next + TR.BLOCK])
    requires StepAt(bytes, next, h, mode, fmt).Yielded? && StepAt(bytes, next, h, mode, fmt).y.Member?
    ensures var y := StepAt(bytes, next, h, mode, fmt).y;
            && FirstOther(bytes, next, mode, fmt, Any(h)) == Some(next) && y.held == h
            && y.entry.headerPos == next && y.entry.header == bytes[next..next + TR.BLOCK]
  {
    assert TR.ItemAt(bytes, next, mode, TR.Context(h.pax, Any(h))) == TR.EntryAt(bytes, next, mode, TR.Context(h.pax, Any(h)));
  }

  /** Zeros are passed over or end the archive. */
  lemma ZeroHeader(bytes: Bytes, next: nat, h: Held, mode: TR.Mode, fmt: Format)
    requires next % TR.BLOCK == 0 && next + TR.BLOCK <= |bytes| && TR.Zero(bytes[next..next + TR.BLOCK])
    ensures if Any(h) || !mode.ignoreZeros then !NextMember(bytes, next, h, mode, fmt).Member?
            else && NextMember(bytes, next, h, mode, fmt) == NextMember(bytes, next + TR.BLOCK, h, mode, fmt)
                 && FirstOther(bytes, next, mode, fmt, false) == FirstOther(bytes, next + TR.BLOCK, mode, fmt, false)
  {
    var ctx := TR.Context(h.pax, Any(h));
    if !Any(h) && mode.ignoreZeros {
      assert TR.ItemAt(bytes, next, mode, ctx) == TR.ItemAt(bytes, next + TR.BLOCK, mode, ctx);
    }
  }

  lemma {:induction false} MemberIsFirstOther(bytes: Bytes, next: nat, h: Held, mode: TR.Mode, fmt: Format)
    requires next % TR.BLOCK == 0 && ResizesMembersOnly(mode, fmt)
    ensures var y := NextMember(bytes, next, h, mode, fmt);
            y.Member? ==>
              && FirstOther(bytes, next, mode, fmt, Any(h)) == Some(y.entry.headerPos)
              && y.entry.headerPos + TR.BLOCK <= |bytes|
              && y.entry.header == bytes[y.entry.headerPos..y.entry.headerPos + TR.BLOCK]
              && (h.pax.Some? ==> y.held.pax == h.pax)
    decreases Left(bytes, next)
  {
    if next + TR.BLOCK > |bytes| {
      assert !NextMember(bytes, next, h, mode, fmt).Member?;
    } else if TR.Zero(bytes[next..next + TR.BLOCK]) {
      ZeroHeader(bytes, next, h, mode, fmt);
      if !Any(h) && mode.ignoreZeros {
        MemberIsFirstOther(bytes, next + TR.BLOCK, h, mode, fmt);
      }
    } else {
      var r := StepAt(bytes, next, h, mode, fmt);
      if r.Yielded? {
        if r.y.Member? {
          MemberHeader(bytes, next, h, mode, fmt);
        }
      } else {
        HeldHeader(bytes, next, h, mode, fmt);
        MemberIsFirstOther(bytes, r.next, r.held, mode, fmt);
      }
    }
  }

  lemma {:induction false} GlobalOrBehind(bytes: Bytes, next: nat, h: Held, mode: TR.Mode, fmt: Format)
    requires next % TR.BLOCK == 0
    ensures var y := NextMember(bytes, next, h, mode, fmt);
            y == FileBehind(bytes, next, h, mode, fmt) <==> !IsGlobal(fmt, y)
    decreases Left(bytes, next)
  {
    FileIsNotGlobal(bytes, next, h, mode, fmt);
    match StepAt(bytes, next, h, mode, fmt)
    case Yielded(y) =>
    case Absorbed(_, _, next1, h1) => GlobalOrBehind(bytes, next1, h1, mode, fmt);
  }

  /** What is held goes to the next member, pax block and all.  That member is the
      file behind it exactly when the first header of the archive that cannot be
      held is not a global one. */
  lemma HeldReachesTheFile(bytes: Bytes, next: nat, h: Held, mode: TR.Mode, fmt: Format)
    requires next % TR.BLOCK == 0 && ResizesMembersOnly(mode, fmt)
    ensures var y := NextMember(bytes, next, h, mode, fmt);
            y.Member? ==>
              && (h.pax.Some? ==> y.held.pax == h.pax)
              && FirstOther(bytes, next, mode, fmt, Any(h)) == Some(y.entry.headerPos)
              && (y == FileBehind(bytes, next, h, mode, fmt) <==> !GlobalFirst(bytes, next, mode, fmt, Any(h)))
  {
    MemberIsFirstOther(bytes, next, h, mode, fmt);
    GlobalOrBehind(bytes, next, h, mode, fmt);
  }

  // --- a global header takes the block ---

  ghost predicate HeaderOf(bytes: Bytes, at: nat, mode: TR.Mode, pax: Option<Bytes>, fmt: Format, k: Kind) {
    && at % TR.BLOCK == 0 && at + TR.BLOCK <= |bytes| && !TR.Zero(bytes[at..at + TR.BLOCK])
    && Classify(fmt.facts(bytes[at..at + TR.BLOCK])) == k
    && TR.EntryAt(bytes, at, mode, TR.Context(pax, pax.Some?)).Entry?
  }

  /** An archive that begins with a local pax block that can be used, a global
      header and an ordinary one, the last readable with the block and without. */
  ghost predicate PaxGlobalFile(bytes: Bytes, global: nat, file: nat, mode: TR.Mode, fmt: Format) {
    && HeaderOf(bytes, 0, mode, None, fmt, Pax)
    && var local := TR.EntryAt(bytes, 0, mode, TR.Context(None, false));
    && local.next == global && local.filePos + local.size <= |bytes|
    && var block := bytes[local.filePos..local.filePos + local.size];
    && Afterwards(fmt, NOTHING, Pax, block) == None
    && HeaderOf(bytes, global, mode, Some(block), fmt, Ordinary)
    && fmt.facts(bytes[global..global + TR.BLOCK]).flag.GlobalPaxFlag?
    && TR.EntryAt(bytes, global, mode, TR.Context(Some(block), true)).next == file
    && HeaderOf(bytes, file, mode, None, fmt, Ordinary) && HeaderOf(bytes, file, mode, Some(block), fmt, Ordinary)
    && !fmt.facts(bytes[file..file + TR.BLOCK]).flag.GlobalPaxFlag?
  }

  /** In every such archive the block goes to the global header; the file behind
      it, which it describes, comes with nothing. */
  lemma GlobalHeaderTakesPax(bytes: Bytes, global: nat, file: nat, mode: TR.Mode, fmt: Format)
    requires !mode.paxOnly && PaxGlobalFile(bytes, global, file, mode, fmt)
    ensures var local := TR.EntryAt(bytes, 0, mode, TR.Context(None, false));
            var held := Held(None, None, Some(bytes[local.filePos..local.filePos + local.size]));
            var (taken, left, meant) := (NextMember(bytes, 0, NOTHING, mode, fmt), NextMember(bytes, file, NOTHING, mode, fmt),
                                         FileBehind(bytes, 0, NOTHING, mode, fmt));
            && taken.Member? && taken.entry.headerPos == global && taken.entry.next == file && taken.held == held
            && left.Member? && left.entry.headerPos == file && left.held == NOTHING
            && meant.Member? && meant.entry.headerPos == file && meant.held == held
  {
    var local := TR.EntryAt(bytes, 0, mode, TR.Context(None, false));
    var block := bytes[local.filePos..local.filePos + local.size];
    var held := Held(None, None, Some(block));
    TR.ItemsAreLaidOut(bytes, 0, mode, TR.Context(None, false));
    assert StepAt(bytes, 0, NOTHING, mode, fmt) == Absorbed(Pax, block, global, held);
    MemberAt(bytes, global, held, mode, fmt);
    MemberAt(bytes, file, held, mode, fmt);
    MemberAt(bytes, file, NOTHING, mode, fmt);
    assert NextMember(bytes, 0, NOTHING, mode, fmt) == NextMember(bytes, global, held, mode, fmt);
    assert FileBehind(bytes, 0, NOTHING, mode, fmt) == FileBehind(bytes, global, held, mode, fmt);
    assert FileBehind(bytes, global, held, mode, fmt) == FileBehind(bytes, file, held, mode, fmt);
  }

  lemma MemberAt(bytes: Bytes, at: nat, h: Held, mode: TR.Mode, fmt: Format)
    requires HeaderOf(bytes, at, mode, h.pax, fmt, Ordinary) && Any(h) == h.pax.Some?
    ensures StepAt(bytes, at, h, mode, fmt) == Yielded(Member(TR.EntryAt(bytes, at, mode, TR.Context(h.pax, Any(h))), h))
  {
    TR.ItemsAreLaidOut(bytes, at, mode, TR.Context(h.pax, Any(h)));
  }

  /** A local pax header, its data, a global header, a file without data. */
  ghost function FourBlocks(): (bytes: Bytes)
    ensures |bytes| == 2048
    ensures !TR.Zero(bytes[0..512]) && !TR.Zero(bytes[1024..1536]) && !TR.Zero(bytes[1536..2048])
    ensures bytes[0..512][0] == 1 && bytes[1024..1536][0] == 2 && bytes[1536..2048][0] == 3
  {
    seq(2048, i => if i < 512 then 1 else if i < 1024 then 9 else if i < 1536 then 2 else 3)
  }

  ghost function FlagOf(header: Bytes): TypeFlag {
    if header == [] then OtherFlag
    else if header[0] == 1 then PaxFlag
    else if header[0] == 2 then GlobalPaxFlag
    else OtherFlag
  }

  ghost function Ustar(): Format {
    Format((b: Bytes) => Facts(true, false, FlagOf(b)), (_: Bytes) => [Record("path", [7])])
  }

  ghost function Sizes(ignoreZeros: bool): TR.Mode {
    TR.Mode(ignoreZeros, false, (b: Bytes, _: Option<Bytes>) => Some(if FlagOf(b) == PaxFlag then 512 else 0))
  }

  /** There are such archives. */
  lemma FourBlocksAreOne(ignoreZeros: bool)
    ensures PaxGlobalFile(FourBlocks(), 1024, 1536, Sizes(ignoreZeros), Ustar()) && ResizesMembersOnly(Sizes(ignoreZeros), Ustar())
  {
    var bytes, mode, fmt := FourBlocks(), Sizes(ignoreZeros), Ustar();
    var block := bytes[512..1024];
    assert TR.EntryAt(bytes, 0, mode, TR.Context(None, false)) == TR.Entry(bytes[0..512], 0, 512, 512, 1024);
    assert Afterwards(fmt, NOTHING, Pax, block) == None by {
      assert PaxProblem([Record("path", [7])], false) == None;
      assert "path"[0] == 'p' && "linkpath"[0] == 'l';
    }
  }
}
