/** What a failed backup refresh costs (`write_config_through` empties the backup
    and writes main all the same). */
module FailedRefresh {
  import opened Wrappers
  import opened SyncAccess
  import opened Registry
  import opened Commit
  import opened FirstCommit
  import Paths

  // --- the exact condition ---

  /** Any further attempts, whatever they bring. */
  ghost const ANYTHING: Asks := iset ask: (string, bool) | true

  ghost predicate Refreshing(s: Session) {
    s.pc.BakWrite? || s.pc.BakTruncate? || s.pc.BakFlush?
  }

  /** The backup is only refreshed for a registry that differs. */
  ghost predicate Changing(s: Session) {
    Refreshing(s) ==> s.pc.prev != s.pc.data
  }

  lemma {:induction false} RunChanges(v: Vouched, es: seq<Event>, v': Vouched)
    requires Changing(v.s) && Reaches(v, es, v')
    ensures Changing(v'.s)
    decreases |es|
  {
    if es != [] {
      RunChanges(Next(v, es[0]), es[1..], v');
    }
  }

  lemma {:induction false} AskedIsOrdinary(v: Vouched, es: seq<Event>, asks: Asks)
    requires Asked(v, es, asks)
    ensures Ordinary(v, es)
    decreases |es|
  {
    if es != [] {
      AskedIsOrdinary(Next(v, es[0]), es[1..], asks);
    }
  }

  /** From here on `r` is in one of the files, wherever the worker dies, for as
      long as it is the committed registry: whatever main writes fail, whatever
      other attempts follow, no later refresh failing. */
  ghost predicate StaysRecoverable(v0: Vouched, r: string) {
    forall v, written :: Within(v0, v, ANYTHING) && v.s.committed == Some(r) ==> Holds(Crash(v.s, written), r)
  }

  lemma DoneKeeps(v: Vouched, r: string)
    requires Sound(v) && v.claim == Some(r) && Refreshing(v.s)
    ensures StaysRecoverable(Next(v, Io(Done)), r)
  {
    var v0 := Next(v, Io(Done));
    NextSound(v, Io(Done));
    forall v1, written: nat | Within(v0, v1, ANYTHING) && v1.s.committed == Some(r)
      ensures Holds(Crash(v1.s, written), r)
    {
      var es :| Reaches(v0, es, v1) && Asked(v0, es, ANYTHING);
      AskedIsOrdinary(v0, es, ANYTHING);
      OrdinaryStands(v0, es, v1);
      RunSound(v0, es, v1);
      TornSame(r, written);
    }
  }

  /** The backup is emptied, main is rewritten, and the worker dies before the
      new registry counts as committed. */
  lemma FailureLoses(v: Vouched, r: string, written: nat)
    requires Sound(v) && v.claim == Some(r) && Refreshing(v.s) && Changing(v.s)
    ensures !StaysRecoverable(Next(v, Io(Failed(written))), r)
  {
    var v0 := Next(v, Io(Failed(written)));
    WithinStart(v0, ANYTHING);
    var v1 := WithinThen(v0, v0, Io(Done), ANYTHING);
    var v2 := WithinThen(v0, v1, Io(Done), ANYTHING);
    TornFull(v.s.pc.data, v2.s.files.main);
    var v3 := WithinThen(v0, v2, Io(Done), ANYTHING);
    var v4 := WithinThen(v0, v3, Io(Done), ANYTHING);
    assert !Holds(Crash(v4.s, 0), r);
  }

  /** In every run from boot, at each I/O call of a refresh: the committed
      registry stays recoverable if and only if the call succeeds. */
  lemma RefreshDecides(f: Files, es: seq<Event>, v: Vouched, r: string, answer: Outcome)
    requires Reaches(Booted(f), es, v) && v.claim == Some(r) && Refreshing(v.s)
    ensures StaysRecoverable(Next(v, Io(answer)), r) <==> answer.Done?
  {
    RunSound(Booted(f), es, v);
    RunChanges(Booted(f), es, v);
    if answer.Done? {
      DoneKeeps(v, r);
    } else {
      FailureLoses(v, r, answer.written);
    }
  }

  // --- the damage ---

  ghost predicate Reachable(f: Files, v: Vouched) {
    exists es :: Reaches(Booted(f), es, v)
  }

  lemma {:induction false} ReachesThen(v0: Vouched, es: seq<Event>, v: Vouched, e: Event)
    requires Reaches(v0, es, v) && Enabled(v.s, e)
    ensures Reaches(v0, es + [e], Next(v, e))
    decreases |es|
  {
    if es == [] {
      assert es + [e] == [e] && [e][1..] == [];
      assert Reaches(Next(v, e), [], Next(v, e));
    } else {
      assert (es + [e])[1..] == es[1..] + [e];
      ReachesThen(Next(v0, es[0]), es[1..], v, e);
    }
  }

  lemma ReachableThen(f: Files, v: Vouched, e: Event) returns (v': Vouched)
    requires Reachable(f, v) && Enabled(v.s, e)
    ensures v' == Next(v, e) && Reachable(f, v')
  {
    var es :| Reaches(Booted(f), es, v);
    ReachesThen(Booted(f), es, v, e);
    v' := Next(v, e);
  }

  const NEW_PROFILE := Files("", "")

  /** On a new profile: `r` is committed, as the first registry. */
  lemma FirstCommitted(r: string) returns (v: Vouched)
    requires r != ""
    ensures Reachable(NEW_PROFILE, v) && v == Vouched(Session(Files(r, ""), Some(r), Idle), Some(r))
  {
    assert Reaches(Booted(NEW_PROFILE), [], Booted(NEW_PROFILE));
    v := ReachableThen(NEW_PROFILE, Booted(NEW_PROFILE), Sync(FileSnap(r), true));
    v := ReachableThen(NEW_PROFILE, v, Io(Done));
    v := ReachableThen(NEW_PROFILE, v, Io(Done));
    v := ReachableThen(NEW_PROFILE, v, Io(Done));
  }

  /** The refresh for `data` fails at its first call, and its write is under way. */
  lemma RefreshFailed(r: string, data: string) returns (v: Vouched)
    requires r != "" && data != r
    ensures Reachable(NEW_PROFILE, v) && v.s == Session(Files(r, ""), Some(r), MainWrite(data))
  {
    v := FirstCommitted(r);
    v := ReachableThen(NEW_PROFILE, v, Sync(FileSnap(data), true));
    v := ReachableThen(NEW_PROFILE, v, Io(Failed(0)));
    v := ReachableThen(NEW_PROFILE, v, Io(Done));
    v := ReachableThen(NEW_PROFILE, v, Io(Done));
  }

  /** A decoder that takes ASCII for what it is, as UTF-8 does. */
  ghost predicate ReadsAscii(decode: string -> Option<string>) {
    forall s: string :: (forall c :: c in s ==> c < '\U{80}') ==> decode(s) == Some(s)
  }

  /** Once the backup is emptied, the accounts depend on what a crash leaves of
      main: one of them goes at the next boot if and only if main then looks like
      a registry and does not name it. */
  lemma SweptAfterFailedRefresh(s: Session, written: nat, decode: string -> Option<string>, uuid: string, file: string)
    requires s.pc.MainWrite? && s.files.bak == "" && decode("") == Some("")
    requires IsUuid(uuid) && Paths.ValidName(file) && file != EXPORT_TEMP_DB
    ensures var crashed := Crash(s, written);
            Swept(DbPath(uuid, file), crashed.main, crashed.bak, decode) <==>
              && decode(crashed.main).Some? && IsPlausibleRegistry(decode(crashed.main).value)
              && !Contains(decode(crashed.main).value, uuid)
  {
    SweptExactly(uuid, file, Crash(s, written).main, "", decode);
    assert forall i :: 0 <= i <= |""| ==> |""[i..]| < |uuid|;
  }

  /** The shifted uuid has lost its third hyphen, so it is nowhere. */
  lemma CutUuidIsGone(uuid: string)
    requires IsUuid(uuid)
    ensures var r, data := LEADING_KEY + uuid, LEADING_KEY + "x" + uuid;
            var torn := Torn(data, r, |LEADING_KEY| + 19);
            torn == LEADING_KEY + "x" + uuid[..18] + uuid[19..] && !Contains(torn, uuid)
  {
    var torn := LEADING_KEY + "x" + uuid[..18] + uuid[19..];
    assert |LEADING_KEY| == 16;
    assert Torn(LEADING_KEY + "x" + uuid, LEADING_KEY + uuid, 35) == torn;
    assert '-' !in LEADING_KEY + "x";
    assert forall k :: 0 <= k < 25 ==> torn[k] == if k < 17 then (LEADING_KEY + "x")[k] else uuid[k - 17];
    forall i | 0 <= i <= |torn| ensures !(uuid <= torn[i..]) {
      if i <= 16 {
        assert torn[i..][8] == torn[i + 8] != '-';
      }
    }
  }

  lemma PlausibleAsIs(text: string)
    requires LEADING_KEY <= text
    ensures IsPlausibleRegistry(text)
  {
    assert text[0] == LEADING_KEY[0] == 's';
    assert TrimStart(text) == text;
  }

  lemma UuidIsAscii(uuid: string)
    requires IsUuid(uuid)
    ensures forall c :: c in uuid ==> c < '\U{80}'
  {
    forall c | c in uuid ensures c < '\U{80}' {
      var i :| 0 <= i < |uuid| && uuid[i] == c;
    }
  }

  /** What the crash leaves of main is ASCII, looks like a registry, and is not
      the committed one. */
  lemma CutReadsAsRegistry(uuid: string, decode: string -> Option<string>)
    requires IsUuid(uuid) && ReadsAscii(decode)
    ensures var torn := LEADING_KEY + "x" + uuid[..18] + uuid[19..];
            decode(torn) == Some(torn) && IsPlausibleRegistry(torn) && torn != LEADING_KEY + uuid
  {
    var torn := LEADING_KEY + "x" + uuid[..18] + uuid[19..];
    UuidIsAscii(uuid);
    assert forall c :: c in torn ==> c in LEADING_KEY || c == 'x' || c in uuid;
    assert LEADING_KEY <= torn;
    PlausibleAsIs(torn);
    assert torn[16] == 'x' && (LEADING_KEY + uuid)[16] == uuid[0];
  }

  lemma BothName(uuid: string)
    requires IsUuid(uuid)
    ensures var r, data := LEADING_KEY + uuid, LEADING_KEY + "x" + uuid;
            && Contains(r, uuid) && Contains(data, uuid) && IsPlausibleRegistry(r) && IsPlausibleRegistry(data) && r != data
  {
    var r, data := LEADING_KEY + uuid, LEADING_KEY + "x" + uuid;
    assert r[|LEADING_KEY|..] == uuid && data[|LEADING_KEY| + 1..] == uuid;
    PlausibleAsIs(r);
    PlausibleAsIs(data);
    assert |r| != |data|;
  }

  lemma CutSweeps(s: Session, uuid: string, file: string, decode: string -> Option<string>)
    requires IsUuid(uuid) && Paths.ValidName(file) && file != EXPORT_TEMP_DB && ReadsAscii(decode)
    requires s.pc == MainWrite(LEADING_KEY + "x" + uuid) && s.files == Files(LEADING_KEY + uuid, "")
    ensures var crashed := Crash(s, |LEADING_KEY| + 19);
            !Holds(crashed, LEADING_KEY + uuid) && Swept(DbPath(uuid, file), crashed.main, crashed.bak, decode)
  {
    CutUuidIsGone(uuid);
    CutReadsAsRegistry(uuid, decode);
    SweptAfterFailedRefresh(s, |LEADING_KEY| + 19, decode, uuid, file);
  }

  /** An account that both registries name, lost: the crash hits the write in the
      middle of its uuid, and the next boot deletes its database. */
  lemma FailedRefreshSweeps(uuid: string, file: string, decode: string -> Option<string>) returns (v: Vouched)
    requires IsUuid(uuid) && Paths.ValidName(file) && file != EXPORT_TEMP_DB && ReadsAscii(decode)
    ensures var r, data := LEADING_KEY + uuid, LEADING_KEY + "x" + uuid;
            var crashed := Crash(v.s, |LEADING_KEY| + 19);
            && Reachable(NEW_PROFILE, v) && v.s.committed == Some(r) && v.s.pc == MainWrite(data)
            && Contains(r, uuid) && Contains(data, uuid) && IsPlausibleRegistry(r) && IsPlausibleRegistry(data)
            && !Holds(crashed, r) && Swept(DbPath(uuid, file), crashed.main, crashed.bak, decode)
  {
    BothName(uuid);
    v := RefreshFailed(LEADING_KEY + uuid, LEADING_KEY + "x" + uuid);
    CutSweeps(v.s, uuid, file, decode);
  }
}
