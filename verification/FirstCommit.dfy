/** The registry across a reboot: what the attempts before a session's first
    commit can do to the last one the previous session left (`LAST_COMMITTED` is
    still unset, so every attempt may seed the backup from main).

    A failed attempt is queued and tried again, with whatever the memfs holds by
    then, so a run may contain any number of attempts. */
module FirstCommit {
  import opened Wrappers
  import opened SyncAccess
  import opened Registry
  import opened Commit

  /** What an attempt may bring: the registry to write, and whether main can be
      read back. */
  type Asks = iset<(string, bool)>

  ghost predicate May(s: Session, e: Event, asks: Asks) {
    && Enabled(s, e) && !RefreshFails(s, e)
    && (e.Sync? ==> e.snap.FileSnap? && (e.snap.data, e.readable) in asks)
  }

  ghost predicate Asked(v: Vouched, es: seq<Event>, asks: Asks)
    decreases |es|
  {
    es == [] || (May(v.s, es[0], asks) && Asked(Next(v, es[0]), es[1..], asks))
  }

  /** `v` is reached from `v0` by attempts from `asks`, each call succeeding or
      failing at any byte; no quarantine, no backup refresh failing. */
  ghost predicate Within(v0: Vouched, v: Vouched, asks: Asks) {
    exists es :: Reaches(v0, es, v) && Asked(v0, es, asks)
  }

  lemma WithinStart(v0: Vouched, asks: Asks)
    ensures Within(v0, v0, asks)
  {
    assert Reaches(v0, [], v0) && Asked(v0, [], asks);
  }

  lemma {:induction false} RunThen(v0: Vouched, es: seq<Event>, v: Vouched, e: Event, asks: Asks)
    requires Reaches(v0, es, v) && Asked(v0, es, asks) && May(v.s, e, asks)
    ensures Reaches(v0, es + [e], Next(v, e)) && Asked(v0, es + [e], asks)
    decreases |es|
  {
    if es == [] {
      assert es + [e] == [e] && [e][1..] == [];
      assert Reaches(Next(v, e), [], Next(v, e)) && Asked(Next(v, e), [], asks);
    } else {
      assert (es + [e])[1..] == es[1..] + [e];
      RunThen(Next(v0, es[0]), es[1..], v, e, asks);
    }
  }

  lemma WithinThen(v0: Vouched, v: Vouched, e: Event, asks: Asks) returns (v': Vouched)
    requires Within(v0, v, asks) && May(v.s, e, asks)
    ensures v' == Next(v, e) && Within(v0, v', asks)
  {
    var es :| Reaches(v0, es, v) && Asked(v0, es, asks);
    RunThen(v0, es, v, e, asks);
    v' := Next(v, e);
  }

  /** `last` can be lost: some crash in some run from `v0`, before anything is
      committed, leaves it in neither file. */
  ghost predicate CanLose(v0: Vouched, asks: Asks, last: string) {
    exists v, written :: Within(v0, v, asks) && v.s.committed.None? && !Holds(Crash(v.s, written), last)
  }

  // --- one attempt ---

  /** The guard before an attempt: main either does not read as a registry, and
      the backup is the last good one, or it reads as exactly that one. */
  predicate AttemptSafe(f: Files, last: string, data: string, readable: bool) {
    match ReadBack(f.main, readable)
    case Some(m) => if m == data then f.main == last || f.bak == last else f.main == last
    case None => f.bak == last || (f.main == last && data == last)
  }

  /** What holds inside an attempt that was begun safely. */
  ghost predicate Kept(s: Session, last: string) {
    s.committed.None? ==>
      match s.pc
      case Idle => Holds(s.files, last)
      case BakWrite(prev, _) => prev == last && s.files.main == last
      case BakTruncate(prev, _) => prev == last && s.files.main == last && last <= s.files.bak
      case BakFlush(prev, _) => prev == last && s.files.bak == last
      case MainWrite(data) => s.files.bak == last || (s.files.main == last && data == last)
      case MainTruncate(data) => s.files.bak == last || (s.files.main == last && data == last)
      case MainFlush(data) => s.files.bak == last || (s.files.main == last && data == last)
      case _ => false
  }

  ghost predicate Uncommitted(s: Session) {
    s.committed.None? && s.pc.Idle?
  }

  ghost predicate NoWipe(s: Session) {
    !s.pc.WipeTruncate? && !s.pc.WipeFlush?
  }

  lemma KeptSurvives(s: Session, last: string, written: nat)
    requires Kept(s, last) && s.committed.None?
    ensures Holds(Crash(s, written), last)
  {
    TornSame(last, written);
  }

  lemma IoKeeps(v: Vouched, e: Event, last: string)
    requires Kept(v.s, last) && Enabled(v.s, e) && e.Io? && !RefreshFails(v.s, e)
    requires NoWipe(v.s)
    ensures Kept(Next(v, e).s, last)
  {
    match v.s.pc
    case BakWrite(prev, _) => TornFull(prev, v.s.files.bak);
    case BakTruncate(prev, _) =>
      assert last <= v.s.files.bak ==> Cut(v.s.files.bak, |last|) == last;
    case MainWrite(data) =>
      TornSame(last, |data|);
      if e.outcome.Failed? {
        TornSame(last, e.outcome.written);
      }
    case _ =>
  }

  lemma TornNothing(data: string, prior: string)
    ensures Torn(data, prior, 0) == prior
  {
  }

  /** A backup refresh in which nothing fails. */
  lemma BackedUp(v0: Vouched, v: Vouched, asks: Asks) returns (v': Vouched)
    requires Within(v0, v, asks) && v.s.pc.BakWrite?
    ensures Within(v0, v', asks) && v'.s.committed == v.s.committed && v'.s.pc == MainWrite(v.s.pc.data)
    ensures v'.s.files == Files(v.s.files.main, v.s.pc.prev)
  {
    TornFull(v.s.pc.prev, v.s.files.bak);
    v' := WithinThen(v0, v, Io(Done), asks);
    v' := WithinThen(v0, v', Io(Done), asks);
    v' := WithinThen(v0, v', Io(Done), asks);
  }

  /** A main write that fails at its flush. */
  lemma WrittenUnflushed(v0: Vouched, v: Vouched, asks: Asks) returns (v': Vouched)
    requires Within(v0, v, asks) && v.s.pc.MainWrite?
    ensures Within(v0, v', asks) && v'.s.committed == v.s.committed && v'.s.pc == Idle
    ensures v'.s.files == Files(v.s.pc.data, v.s.files.bak)
  {
    TornFull(v.s.pc.data, v.s.files.main);
    v' := WithinThen(v0, v, Io(Done), asks);
    v' := WithinThen(v0, v', Io(Done), asks);
    v' := WithinThen(v0, v', Io(Failed(0)), asks);
  }

  lemma UnsafeAttemptLoses(v0: Vouched, v: Vouched, asks: Asks, last: string, data: string, readable: bool)
    requires Uncommitted(v.s) && !AttemptSafe(v.s.files, last, data, readable)
    requires Within(v0, Next(v, Sync(FileSnap(data), readable)), asks)
    ensures CanLose(v0, asks, last)
  {
    var f := v.s.files;
    var v1 := Next(v, Sync(FileSnap(data), readable));
    match ReadBack(f.main, readable)
    case Some(m) =>
      if m == data {
        assert !Holds(Crash(v1.s, 0), last);
      } else {
        var v2 := BackedUp(v0, v1, asks);
        TornNothing(data, m);
        assert !Holds(Crash(v2.s, 0), last);
      }
    case None =>
      if f.main != last {
        TornNothing(data, f.main);
        assert !Holds(Crash(v1.s, 0), last);
      } else {
        var v2 := WithinThen(v0, v1, Io(Done), asks);
        var v3 := WithinThen(v0, v2, Io(Done), asks);
        TornFull(data, f.main);
        assert !Holds(Crash(v3.s, 0), last);
      }
  }

  // --- all attempts ---

  ghost predicate AlwaysSafe(v0: Vouched, asks: Asks, last: string) {
    forall v, data, readable ::
      Within(v0, v, asks) && Uncommitted(v.s) && (data, readable) in asks ==>
        AttemptSafe(v.s.files, last, data, readable)
  }

  lemma {:induction false} KeptAlong(v0: Vouched, asks: Asks, last: string, v: Vouched, es: seq<Event>, v': Vouched)
    requires AlwaysSafe(v0, asks, last) && Within(v0, v, asks) && Kept(v.s, last) && NoWipe(v.s)
    requires Reaches(v, es, v') && Asked(v, es, asks)
    ensures Kept(v'.s, last)
    decreases |es|
  {
    if es != [] {
      var e := es[0];
      if e.Sync? {
        if v.s.committed.None? {
          assert AttemptSafe(v.s.files, last, e.snap.data, e.readable);
        }
      } else {
        IoKeeps(v, e, last);
      }
      var v1 := WithinThen(v0, v, e, asks);
      KeptAlong(v0, asks, last, v1, es[1..], v');
    }
  }

  /** The registry the previous session left survives every crash in every run
      of attempts, whatever they bring, exactly when each of them finds the files
      safe for it.  The guard is `AttemptSafe`, to be asked before each attempt. */
  lemma SurvivesExactly(f: Files, last: string, asks: Asks)
    requires asks != iset{}
    ensures !CanLose(Booted(f), asks, last) <==> AlwaysSafe(Booted(f), asks, last)
  {
    var v0 := Booted(f);
    WithinStart(v0, asks);
    if AlwaysSafe(v0, asks, last) {
      var ask :| ask in asks;
      assert (ask.0, ask.1) in asks;
      assert AttemptSafe(v0.s.files, last, ask.0, ask.1);
      forall v, written: nat | Within(v0, v, asks) && v.s.committed.None?
        ensures Holds(Crash(v.s, written), last)
      {
        var es :| Reaches(v0, es, v) && Asked(v0, es, asks);
        KeptAlong(v0, asks, last, v0, es, v);
        KeptSurvives(v.s, last, written);
      }
    } else {
      var v, data, readable :| Within(v0, v, asks) && Uncommitted(v.s) && (data, readable) in asks
                               && !AttemptSafe(v.s.files, last, data, readable);
      var v1 := WithinThen(v0, v, Sync(FileSnap(data), readable), asks);
      UnsafeAttemptLoses(v0, v, asks, last, data, readable);
    }
  }

  /** One attempt by itself: its first call to its last, nothing tried again. */
  lemma OneAttemptExactly(f: Files, last: string, data: string, readable: bool)
    ensures !CanLose(Next(Booted(f), Sync(FileSnap(data), readable)), iset{}, last)
            <==> AttemptSafe(f, last, data, readable)
  {
    var v0 := Next(Booted(f), Sync(FileSnap(data), readable));
    WithinStart(v0, iset{});
    if AttemptSafe(f, last, data, readable) {
      forall v, written: nat | Within(v0, v, iset{}) && v.s.committed.None?
        ensures Holds(Crash(v.s, written), last)
      {
        var es :| Reaches(v0, es, v) && Asked(v0, es, iset{});
        KeptAlong(v0, iset{}, last, v0, es, v);
        KeptSurvives(v.s, last, written);
      }
    } else {
      UnsafeAttemptLoses(v0, Booted(f), iset{}, last, data, readable);
    }
  }

  // --- the same registry, tried until it is committed ---

  /** Some partial write of `data` over `main` reads as a registry, and is
      neither the last one nor the new one. */
  predicate FalseRegistry(main: string, last: string, data: string, written: nat) {
    var torn := Torn(data, main, written);
    ReadBack(torn, true) == Some(torn) && torn != last && torn != data
  }

  /** What can be checked at boot.  `readable` are the answers the read-back of
      main may give. */
  ghost predicate RetriesSafe(f: Files, last: string, data: string, readable: set<bool>) {
    && (forall r :: r in readable ==> AttemptSafe(f, last, data, r))
    && (true in readable ==> forall written: nat :: !FalseRegistry(f.main, last, data, written))
  }

  ghost function Only(data: string, readable: set<bool>): Asks {
    iset r | r in readable :: (data, r)
  }

  lemma TornAgain(data: string, prior: string, first: nat, second: nat)
    ensures Torn(data, Torn(data, prior, first), second) == Torn(data, prior, if first <= second then second else first)
    ensures Torn(data, data, second) == data
  {
  }

  /** Main is what it was at boot with some of `data` written over it. */
  ghost predicate Mixed(main: string, main0: string, data: string) {
    main == data || exists k: nat :: main == Torn(data, main0, k)
  }

  lemma TornMixed(main: string, main0: string, data: string, written: nat)
    requires Mixed(main, main0, data)
    ensures Mixed(Torn(data, main, written), main0, data)
  {
    if main == data {
      TornAgain(data, main, written, written);
    } else {
      var k: nat :| main == Torn(data, main0, k);
      TornAgain(data, main0, k, written);
      var most := if k <= written then written else k;
      assert Torn(data, main, written) == Torn(data, main0, most);
    }
  }

  ghost predicate Writing(pc: Pc, data: string) {
    match pc
    case Idle => true
    case BakWrite(_, d) => d == data
    case BakTruncate(_, d) => d == data
    case BakFlush(_, d) => d == data
    case MainWrite(d) => d == data
    case MainTruncate(d) => d == data
    case MainFlush(d) => d == data
    case _ => false
  }

  ghost predicate Retrying(s: Session, main0: string, last: string, data: string, readable: set<bool>) {
    s.committed.None? ==>
      && Writing(s.pc, data) && Mixed(s.files.main, main0, data) && MainReady(s) && Kept(s, last)
      && (s.pc.Idle? ==> forall r :: r in readable ==> AttemptSafe(s.files, last, data, r))
  }

  /** A failed main write leaves files that are safe to try again on. */
  lemma FailureIsSafe(f: Files, main0: string, last: string, data: string, r: bool)
    requires Mixed(f.main, main0, data) && (f.bak == last || (f.main == last && data == last))
    requires r ==> forall written: nat :: !FalseRegistry(main0, last, data, written)
    ensures AttemptSafe(f, last, data, r)
  {
    if ReadBack(f.main, r).Some? && f.main != data {
      var k: nat :| f.main == Torn(data, main0, k);
      assert !FalseRegistry(main0, last, data, k);
    }
  }

  lemma RetryStep(v: Vouched, e: Event, f: Files, last: string, data: string, readable: set<bool>)
    requires Retrying(v.s, f.main, last, data, readable) && RetriesSafe(f, last, data, readable)
    requires May(v.s, e, Only(data, readable)) && (v.s.committed.Some? ==> Next(v, e).s.committed.Some?)
    ensures Retrying(Next(v, e).s, f.main, last, data, readable)
  {
    if v.s.committed.None? {
      var s' := Next(v, e).s;
      if e.Io? {
        IoKeeps(v, e, last);
        if v.s.pc.MainWrite? {
          TornMixed(v.s.files.main, f.main, data, if e.outcome.Done? then |data| else e.outcome.written);
          TornFull(data, v.s.files.main);
          TornSame(last, if e.outcome.Done? then |data| else e.outcome.written);
        } else if v.s.pc.MainTruncate? {
          assert Cut(v.s.files.main, |data|) == data;
        }
        if s'.pc.Idle? && s'.committed.None? {
          forall r | r in readable ensures AttemptSafe(s'.files, last, data, r) {
            FailureIsSafe(s'.files, f.main, last, data, r);
          }
        }
      }
    }
  }

  lemma {:induction false} RetriesKeep(v: Vouched, es: seq<Event>, v': Vouched, f: Files, last: string, data: string, readable: set<bool>)
    requires Retrying(v.s, f.main, last, data, readable) && RetriesSafe(f, last, data, readable) && NoWipe(v.s)
    requires Reaches(v, es, v') && Asked(v, es, Only(data, readable))
    ensures Retrying(v'.s, f.main, last, data, readable)
    decreases |es|
  {
    if es != [] {
      RetryStep(v, es[0], f, last, data, readable);
      RetriesKeep(Next(v, es[0]), es[1..], v', f, last, data, readable);
    }
  }

  /** Two attempts: the first stops at a false registry, the second copies it
      over the backup. */
  lemma FalseRegistryLoses(f: Files, last: string, data: string, written: nat, asks: Asks)
    requires AttemptSafe(f, last, data, true) && FalseRegistry(f.main, last, data, written) && (data, true) in asks
    ensures CanLose(Booted(f), asks, last)
  {
    var v0 := Booted(f);
    var sync := Sync(FileSnap(data), true);
    WithinStart(v0, asks);
    TornAgain(data, f.main, written, written);
    var v := WithinThen(v0, v0, sync, asks);
    if v.s.pc.BakWrite? {
      v := BackedUp(v0, v, asks);
    }
    v := WithinThen(v0, v, Io(Failed(written)), asks);
    v := WithinThen(v0, v, sync, asks);
    v := BackedUp(v0, v, asks);
    TornNothing(data, v.s.files.main);
    assert !Holds(Crash(v.s, 0), last);
  }

  /** The condition at boot.  Trying to write one registry until it is committed
      keeps the previous one recoverable at every crash point exactly when the
      first attempt is safe and no partial write of it over main makes something
      else that reads as a registry. */
  lemma RetriesExactly(f: Files, last: string, data: string, readable: set<bool>)
    requires true in readable || false in readable
    ensures !CanLose(Booted(f), Only(data, readable), last) <==> RetriesSafe(f, last, data, readable)
  {
    var v0, asks := Booted(f), Only(data, readable);
    WithinStart(v0, asks);
    if RetriesSafe(f, last, data, readable) {
      var r :| r in readable;
      assert AttemptSafe(f, last, data, r);
      TornNothing(data, f.main);
      assert Mixed(f.main, f.main, data);
      forall v, written: nat | Within(v0, v, asks) && v.s.committed.None?
        ensures Holds(Crash(v.s, written), last)
      {
        var es :| Reaches(v0, es, v) && Asked(v0, es, asks);
        RetriesKeep(v0, es, v, f, last, data, readable);
        KeptSurvives(v.s, last, written);
      }
    } else if r :| r in readable && !AttemptSafe(f, last, data, r) {
      var v1 := WithinThen(v0, v0, Sync(FileSnap(data), r), asks);
      UnsafeAttemptLoses(v0, v0, asks, last, data, r);
    } else {
      var written: nat :| FalseRegistry(f.main, last, data, written);
      assert (data, true) in asks;
      FalseRegistryLoses(f, last, data, written, asks);
    }
  }

  /** So a retry is rarely safe: two registries of which both read as one, and
      which differ in two bytes, are enough. */
  lemma TwoBytesExpose(f: Files, data: string, i: nat, j: nat)
    requires LEADING_KEY <= f.main && LEADING_KEY <= data && |f.main| <= CONFIG_BAK_MAX && |data| <= CONFIG_BAK_MAX
    requires i < j < |f.main| && j < |data| && f.main[i] != data[i] && f.main[j] != data[j]
    ensures CanLose(Booted(f), Only(data, {true}), f.main)
  {
    var torn := Torn(data, f.main, i + 1);
    assert torn[i] == data[i] && torn[j] == f.main[j];
    assert forall k :: 0 <= k < |LEADING_KEY| ==> torn[k] == LEADING_KEY[k];
    assert LEADING_KEY <= torn;
    assert FalseRegistry(f.main, f.main, data, i + 1);
    RetriesExactly(f, f.main, data, {true});
  }

  /** A registry that one attempt cannot lose and two can: the first stops
      one byte before its end, the second takes what is there for a registry. */
  lemma RetryLoses()
    ensures var f, data := Files("selected_account=1", ""), "selected_account=22";
            && AttemptSafe(f, f.main, data, true)
            && !CanLose(Next(Booted(f), Sync(FileSnap(data), true)), iset{}, f.main)
            && CanLose(Booted(f), iset{(data, true)}, f.main)
  {
    var f, data := Files("selected_account=1", ""), "selected_account=22";
    OneAttemptExactly(f, f.main, data, true);
    var torn := Torn(data, f.main, 18);
    assert torn == "selected_account=2";
    FalseRegistryLoses(f, f.main, data, 18, iset{(data, true)});
  }

  /** With attempts that may bring any registry no files at all are safe: an
      attempt that fails at its flush leaves a good-looking main, and the next
      one, for something else, copies it over the backup. */
  lemma AnyRegistryLoses(f: Files, last: string)
    ensures exists data, data' :: CanLose(Booted(f), iset{(data, true), (data', true)}, last)
  {
    var data, data' := FreshRegistry(f.main, last);
    var asks := iset{(data, true), (data', true)};
    var v0 := Booted(f);
    WithinStart(v0, asks);
    var v := WithinThen(v0, v0, Sync(FileSnap(data), true), asks);
    if v.s.pc.BakWrite? {
      v := BackedUp(v0, v, asks);
    }
    v := WrittenUnflushed(v0, v, asks);
    var v1 := WithinThen(v0, v, Sync(FileSnap(data'), true), asks);
    UnsafeAttemptLoses(v0, v, asks, last, data', true);
  }

  lemma FreshRegistry(main: string, last: string) returns (data: string, data': string)
    ensures LEADING_KEY <= data && |data| <= CONFIG_BAK_MAX && data != main && data != last && data != data'
  {
    data' := "";
    var one, two, three := LEADING_KEY + "1", LEADING_KEY + "2", LEADING_KEY + "3";
    assert one[|LEADING_KEY|] == '1' && two[|LEADING_KEY|] == '2' && three[|LEADING_KEY|] == '3';
    data := if one != main && one != last then one else if two != main && two != last then two else three;
  }
}
