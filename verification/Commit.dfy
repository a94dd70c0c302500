/** The crash-safe commit of `accounts.toml` through two held sync access handles
    (`write_config_through`, `sah_write` in `opfs.rs`).

    A session is one worker lifetime.  Its states lie between two I/O calls; a
    call either succeeds, or fails having done part of a write, and the worker may
    die before, after or inside any of them.  Each file byte is one `char`. */
module Commit {
  import opened Wrappers
  import opened SyncAccess
  import opened Registry
  import Paths

  const CONFIG_BAK_MAX: nat := 512 * 1024

  datatype Files = Files(main: string, bak: string)

  /** The memfs state of accounts.toml. */
  datatype Snapshot = FileSnap(data: string) | DirSnap | Missing

  datatype Pc =
    | Idle
    | BakWrite(prev: string, data: string)
    | BakTruncate(prev: string, data: string)
    | BakFlush(prev: string, data: string)
    | BakClear(data: string)      // the refresh failed: truncate the backup to nothing
    | BakClearFlush(data: string)
    | MainWrite(data: string)
    | MainTruncate(data: string)
    | MainFlush(data: string)
    | WipeTruncate                // quarantine: the file itself cannot be deleted
    | WipeFlush

  datatype Session = Session(files: Files, committed: Option<string>, pc: Pc)

  datatype Outcome = Done | Failed(written: nat)

  datatype Event =
    | Sync(snap: Snapshot, readable: bool) // readable: the read-back of main works
    | Io(outcome: Outcome)

  /** The read-back of main that may seed the backup on a session's first write. */
  function ReadBack(main: string, readable: bool): Option<string> {
    if readable && main != "" && |main| <= CONFIG_BAK_MAX && LEADING_KEY <= main then Some(main) else None
  }

  function Previous(s: Session, readable: bool): Option<string> {
    if s.committed.Some? then s.committed else ReadBack(s.files.main, readable)
  }

  ghost predicate Enabled(s: Session, e: Event) {
    e.Sync? <==> s.pc.Idle?
  }

  /** `write_config_through` up to its first I/O call. */
  function Start(s: Session, snap: Snapshot, readable: bool): Session {
    match snap
    case FileSnap(data) =>
      var prev := Previous(s, readable);
      if prev == Some(data) then s
      else if prev.Some? && prev.value != "" then s.(pc := BakWrite(prev.value, data))
      else s.(pc := MainWrite(data))
    case Missing => s.(pc := WipeTruncate)
    case DirSnap => s
  }

  function Cut(bytes: string, len: nat): string {
    if len <= |bytes| then bytes[..len] else bytes
  }

  /** The session after the I/O call it was in. */
  function Step(s: Session, outcome: Outcome): Session {
    var f := s.files;
    var ok := outcome.Done?;
    match s.pc
    case Idle => s
    case BakWrite(prev, data) =>
      s.(files := f.(bak := Torn(prev, f.bak, if ok then |prev| else outcome.written)),
         pc := if ok then BakTruncate(prev, data) else BakClear(data))
    case BakTruncate(prev, data) =>
      if ok then s.(files := f.(bak := Cut(f.bak, |prev|)), pc := BakFlush(prev, data)) else s.(pc := BakClear(data))
    case BakFlush(prev, data) => s.(pc := if ok then MainWrite(data) else BakClear(data))
    case BakClear(data) => s.(files := if ok then f.(bak := "") else f, pc := BakClearFlush(data))
    case BakClearFlush(data) => s.(pc := MainWrite(data))
    case MainWrite(data) =>
      s.(files := f.(main := Torn(data, f.main, if ok then |data| else outcome.written)),
         pc := if ok then MainTruncate(data) else Idle)
    case MainTruncate(data) =>
      if ok then s.(files := f.(main := Cut(f.main, |data|)), pc := MainFlush(data)) else s.(pc := Idle)
    case MainFlush(data) => if ok then s.(committed := Some(data), pc := Idle) else s.(pc := Idle)
    case WipeTruncate => if ok then s.(files := f.(main := ""), pc := WipeFlush) else s.(pc := Idle)
    case WipeFlush => if ok then s.(committed := None, pc := Idle) else s.(pc := Idle)
  }

  function After(s: Session, e: Event): Session {
    match e
    case Sync(snap, readable) => Start(s, snap, readable)
    case Io(outcome) => Step(s, outcome)
  }

  /** What main holds may seed the backup: read back whole, of at most 512 KiB, and
      beginning like a registry. */
  predicate Seeds(main: string, readable: bool) {
    readable && |main| <= 524288 && "selected_account" <= main
  }

  /** Where a write-through of new bytes begins: with the backup, exactly when there
      are bytes known or believed to be a registry to put there; a torn or foreign
      main is never copied over it. */
  lemma StartsWithBackup(s: Session, data: string, readable: bool)
    requires s.pc.Idle?
    ensures var r := Start(s, FileSnap(data), readable);
            && r.files == s.files && r.committed == s.committed
            && match s.committed
               case Some(c) =>
                 if c == data then r == s
                 else r.pc == if c == "" then MainWrite(data) else BakWrite(c, data)
               case None =>
                 if Seeds(s.files.main, readable) && s.files.main == data then r == s
                 else r.pc == if Seeds(s.files.main, readable) then BakWrite(s.files.main, data) else MainWrite(data)
  {
  }

  /** A run of one session without its bookkeeping. */
  ghost predicate Plays(s: Session, es: seq<Event>, s': Session)
    decreases |es|
  {
    if es == [] then s == s' else Enabled(s, es[0]) && Plays(After(s, es[0]), es[1..], s')
  }

  lemma {:induction false} PlaysThen(s: Session, es: seq<Event>, s': Session, e: Event)
    requires Plays(s, es, s') && Enabled(s', e)
    ensures Plays(s, es + [e], After(s', e))
    decreases |es|
  {
    if es == [] {
      assert es + [e] == [e] && [e][1..] == [];
      assert Plays(After(s, e), [], After(s, e));
    } else {
      assert (es + [e])[1..] == es[1..] + [e];
      PlaysThen(After(s, es[0]), es[1..], s', e);
    }
  }

  /** What is on disk when the worker dies now; a write in progress has put down
      `written` of its bytes. */
  function Crash(s: Session, written: nat): Files {
    match s.pc
    case BakWrite(prev, _) => s.files.(bak := Torn(prev, s.files.bak, written))
    case MainWrite(data) => s.files.(main := Torn(data, s.files.main, written))
    case _ => s.files
  }

  // --- the crash invariant ---

  predicate RefreshFails(s: Session, e: Event) {
    e.Io? && e.outcome.Failed? && (s.pc.BakWrite? || s.pc.BakTruncate? || s.pc.BakFlush?)
  }

  /** A session with the registry it vouches for: the one it committed last, from
      that commit until a quarantine starts or a backup refresh fails.  An empty
      registry names no account and is never backed up, so it is not vouched for. */
  datatype Vouched = Vouched(s: Session, claim: Option<string>)

  function Next(v: Vouched, e: Event): Vouched {
    var s' := After(v.s, e);
    var claim :=
      if e.Io? && e.outcome.Done? && v.s.pc.MainFlush? then
        if v.s.pc.data == "" then None else Some(v.s.pc.data)
      else if RefreshFails(v.s, e) || (e.Io? && e.outcome.Done? && v.s.pc.WipeTruncate?) then None
      else v.claim;
    Vouched(s', claim)
  }

  ghost predicate Holds(f: Files, registry: string) {
    f.main == registry || f.bak == registry
  }

  /** What holds at each point of a commit while `r` is vouched for. */
  ghost predicate Guarded(s: Session, r: string) {
    && r != "" && s.committed == Some(r)
    && match s.pc
       case Idle => Holds(s.files, r)
       case BakWrite(prev, _) => prev == r && Holds(s.files, r)
       case BakTruncate(prev, _) => prev == r && Holds(s.files, r) && r <= s.files.bak
       case BakFlush(prev, _) => prev == r && s.files.bak == r
       case MainWrite(_) => s.files.bak == r
       case MainTruncate(_) => s.files.bak == r
       case MainFlush(_) => s.files.bak == r
       case WipeTruncate => Holds(s.files, r)
       case _ => false
  }

  /** Main holds its new bytes before they are declared committed. */
  ghost predicate MainReady(s: Session) {
    (s.pc.MainTruncate? ==> s.pc.data <= s.files.main) && (s.pc.MainFlush? ==> s.files.main == s.pc.data)
  }

  ghost predicate Sound(v: Vouched) {
    MainReady(v.s) && (v.claim.Some? ==> Guarded(v.s, v.claim.value))
  }

  lemma TornFull(incoming: string, prior: string)
    ensures incoming <= Torn(incoming, prior, |incoming|)
    ensures Cut(Torn(incoming, prior, |incoming|), |incoming|) == incoming
  {
  }

  lemma TornSame(r: string, written: nat)
    ensures Torn(r, r, written) == r
  {
  }

  lemma NextSound(v: Vouched, e: Event)
    requires Sound(v) && Enabled(v.s, e)
    ensures Sound(Next(v, e))
  {
    if e.Io? {
      match v.s.pc
      case BakWrite(prev, _) =>
        TornFull(prev, v.s.files.bak);
        TornSame(prev, |prev|);
      case BakTruncate(prev, _) =>
        assert Cut(v.s.files.bak, |prev|) == prev || !(prev <= v.s.files.bak);
      case MainWrite(data) => TornFull(data, v.s.files.main);
      case MainTruncate(data) =>
        assert Cut(v.s.files.main, |data|) == data;
      case _ =>
    }
  }

  ghost predicate Reaches(v: Vouched, es: seq<Event>, v': Vouched)
    decreases |es|
  {
    if es == [] then v == v' else Enabled(v.s, es[0]) && Reaches(Next(v, es[0]), es[1..], v')
  }

  lemma {:induction false} RunSound(v: Vouched, es: seq<Event>, v': Vouched)
    requires Sound(v) && Reaches(v, es, v')
    ensures Sound(v')
    decreases |es|
  {
    if es != [] {
      NextSound(v, es[0]);
      RunSound(Next(v, es[0]), es[1..], v');
    }
  }

  function Booted(f: Files): Vouched {
    Vouched(Session(f, None, Idle), None)
  }

  /** Whatever was on disk at boot, whatever fails and wherever in a write the
      worker dies: main or the backup holds exactly the vouched-for registry. */
  lemma CrashKeepsRegistry(f: Files, es: seq<Event>, v: Vouched, written: nat)
    requires Reaches(Booted(f), es, v) && v.claim.Some?
    ensures Holds(Crash(v.s, written), v.claim.value)
  {
    RunSound(Booted(f), es, v);
    TornSame(v.claim.value, written);
  }

  /** The vouched-for registry is the last one this session committed. */
  lemma ClaimIsCommitted(f: Files, es: seq<Event>, v: Vouched)
    requires Reaches(Booted(f), es, v) && v.claim.Some?
    ensures v.s.committed == v.claim
  {
    RunSound(Booted(f), es, v);
  }

  /** Sweep safety, end to end: after a crash anywhere, the next boot's sweep
      spares every account database the last committed registry mentions. */
  lemma SweepSparesRegistered(f: Files, es: seq<Event>, v: Vouched, written: nat,
                              decode: string -> Option<string>, uuid: string, file: string)
    requires Reaches(Booted(f), es, v) && v.claim.Some?
    requires decode(v.claim.value).Some? && Contains(decode(v.claim.value).value, uuid)
    requires IsUuid(uuid) && Paths.ValidName(file) && file != EXPORT_TEMP_DB
    ensures var crashed := Crash(v.s, written);
            !Swept(DbPath(uuid, file), crashed.main, crashed.bak, decode)
  {
    var crashed := Crash(v.s, written);
    CrashKeepsRegistry(f, es, v, written);
    SweptExactly(uuid, file, crashed.main, crashed.bak, decode);
  }

  // --- how long a registry is vouched for ---

  ghost predicate Ordinary(v: Vouched, es: seq<Event>)
    decreases |es|
  {
    es == [] || (!RefreshFails(v.s, es[0]) && es[0] != Sync(Missing, true) && es[0] != Sync(Missing, false)
                 && Ordinary(Next(v, es[0]), es[1..]))
  }

  ghost predicate Standing(v: Vouched) {
    && !v.s.pc.WipeTruncate? && !v.s.pc.WipeFlush? && !v.s.pc.BakClear? && !v.s.pc.BakClearFlush?
    && (v.s.committed.Some? && v.s.committed.value != "" ==> v.claim == v.s.committed)
  }

  lemma {:induction false} OrdinaryStands(v: Vouched, es: seq<Event>, v': Vouched)
    requires Standing(v) && Reaches(v, es, v') && Ordinary(v, es)
    ensures Standing(v')
    decreases |es|
  {
    if es != [] {
      OrdinaryStands(Next(v, es[0]), es[1..], v');
    }
  }

  /** Without a quarantine or a failed backup refresh, every non-empty registry a
      session commits is vouched for until the next commit: main-write errors in
      between do not matter. */
  lemma CommittedIsVouched(f: Files, es: seq<Event>, v: Vouched)
    requires Reaches(Booted(f), es, v) && Ordinary(Booted(f), es)
    requires v.s.committed.Some? && v.s.committed.value != ""
    ensures v.claim == v.s.committed
  {
    OrdinaryStands(Booted(f), es, v);
  }
}
