/** `write_config_through` and `sah_write` as the code has them, over the two
    handles a worker holds; proved to take only steps of `Commit`. */
module ConfigStore {
  import opened Wrappers
  import opened SyncAccess
  import opened Commit

  class SyncHandle {
    var bytes: string

    constructor (initial: string)
      ensures bytes == initial
    {
      bytes := initial;
    }

    method Write(data: string, outcome: Outcome) returns (ok: bool)
      modifies this
      ensures ok <==> outcome.Done?
      ensures bytes == Torn(data, old(bytes), if ok then |data| else outcome.written)
    {
      ok := outcome.Done?;
      var n := if ok then |data| else if outcome.written <= |data| then outcome.written else |data|;
      bytes := data[..n] + (if n <= |bytes| then bytes[n..] else "");
    }

    method Truncate(len: nat, outcome: Outcome) returns (ok: bool)
      modifies this
      ensures ok <==> outcome.Done?
      ensures bytes == if ok then Cut(old(bytes), len) else old(bytes)
    {
      ok := outcome.Done?;
      if ok && len <= |bytes| {
        bytes := bytes[..len];
      }
    }
  }

  /** Write at offset 0, truncate last, flush; the first failure ends it.
      `calls` is the number of I/O calls made. */
  method SahWrite(h: SyncHandle, data: string, answers: nat -> Outcome, k: nat) returns (ok: bool, calls: nat)
    modifies h
    ensures 1 <= calls <= 3 && (calls >= 2 ==> answers(k).Done?) && (calls == 3 ==> answers(k + 1).Done?)
    ensures ok <==> calls == 3 && answers(k + 2).Done?
    ensures !ok ==> answers(k + calls - 1).Failed?
    ensures h.bytes ==
            if calls == 3 then data
            else Torn(data, old(h.bytes), if calls == 1 then answers(k).written else |data|)
  {
    TornFull(data, h.bytes);
    ok := h.Write(data, answers(k));
    if !ok {
      return false, 1;
    }
    ok := h.Truncate(|data|, answers(k + 1));
    if !ok {
      return false, 2;
    }
    return answers(k + 2).Done?, 3;
  }

  class ConfigFiles {
    const main: SyncHandle
    const bak: SyncHandle
    var committed: Option<string>
    /** Where the write-through's control is. */
    ghost var pc: Pc

    constructor (main: SyncHandle, bak: SyncHandle)
      ensures this.main == main && this.bak == bak && committed == None && pc == Idle
    {
      this.main, this.bak, committed, pc := main, bak, None, Idle;
    }

    ghost function St(): Session
      reads this, main, bak
    {
      Session(Files(main.bytes, bak.bytes), committed, pc)
    }

    /** `sah_write` on the backup, cleared if it fails. */
    method RefreshBak(prev: string, data: string, answers: nat -> Outcome, k0: nat) returns (k: nat, ghost es: seq<Event>)
      requires main != bak && pc == BakWrite(prev, data)
      modifies this`pc, bak
      ensures pc == MainWrite(data)
      ensures Plays(old(St()), es, St())
    {
      ghost var s0 := St();
      var ok, calls := SahWrite(bak, prev, answers, k0);
      TornFull(prev, s0.files.bak);
      k := k0 + calls;
      PlaysThen(s0, [], s0, Io(answers(k0)));
      ghost var s1 := After(s0, Io(answers(k0)));
      es := [] + [Io(answers(k0))];
      if calls >= 2 {
        PlaysThen(s0, es, s1, Io(answers(k0 + 1)));
        ghost var s2 := After(s1, Io(answers(k0 + 1)));
        es := es + [Io(answers(k0 + 1))];
        if calls == 3 {
          PlaysThen(s0, es, s2, Io(answers(k0 + 2)));
          es := es + [Io(answers(k0 + 2))];
        }
      }
      pc := if ok then MainWrite(data) else BakClear(data);
      assert Plays(s0, es, St());
      if !ok {
        PlaysThen(s0, es, St(), Io(answers(k)));
        es := es + [Io(answers(k))];
        var cleared := bak.Truncate(0, answers(k));
        pc := BakClearFlush(data);
        PlaysThen(s0, es, St(), Io(answers(k + 1)));
        es := es + [Io(answers(k + 1))];
        k := k + 2;
        pc := MainWrite(data);
      }
    }

    method CommitMain(data: string, answers: nat -> Outcome, k0: nat) returns (ok: bool, k: nat, ghost es: seq<Event>)
      requires main != bak && pc == MainWrite(data)
      modifies this`pc, this`committed, main
      ensures pc == Idle
      ensures Plays(old(St()), es, St())
      ensures ok ==> main.bytes == data && committed == Some(data)
      ensures !ok ==> committed == old(committed)
    {
      ghost var s0 := St();
      var calls;
      ok, calls := SahWrite(main, data, answers, k0);
      TornFull(data, s0.files.main);
      k := k0 + calls;
      PlaysThen(s0, [], s0, Io(answers(k0)));
      ghost var s1 := After(s0, Io(answers(k0)));
      es := [] + [Io(answers(k0))];
      if calls >= 2 {
        PlaysThen(s0, es, s1, Io(answers(k0 + 1)));
        ghost var s2 := After(s1, Io(answers(k0 + 1)));
        es := es + [Io(answers(k0 + 1))];
        if calls == 3 {
          PlaysThen(s0, es, s2, Io(answers(k0 + 2)));
          es := es + [Io(answers(k0 + 2))];
        }
      }
      pc := Idle;
      if ok {
        committed := Some(data);
      }
    }

    /** The whole write-through.  Ok means the memfs bytes are in main, except for
        the no-op return, which only looks at what was committed before. */
    method WriteConfigThrough(snap: Snapshot, readable: bool, answers: nat -> Outcome)
      returns (ok: bool, ghost es: seq<Event>)
      requires main != bak && pc == Idle
      modifies this, main, bak
      ensures pc == Idle
      ensures Plays(old(St()), es, St())
      ensures ok && snap.FileSnap? ==>
                || (committed == Some(snap.data) && main.bytes == snap.data)
                || (St() == old(St()) && Previous(old(St()), readable) == Some(snap.data))
      ensures ok && snap.Missing? ==> main.bytes == "" && committed == None
      ensures !ok ==> committed == old(committed)
    {
      ghost var s0 := St();
      ghost var start := Sync(snap, readable);
      PlaysThen(s0, [], s0, start);
      es := [] + [start];
      match snap {
        case DirSnap =>
          ok := true;
        case Missing =>
          pc := WipeTruncate;
          PlaysThen(s0, es, St(), Io(answers(0)));
          es := es + [Io(answers(0))];
          ok := main.Truncate(0, answers(0));
          if !ok {
            pc := Idle;
            return;
          }
          pc := WipeFlush;
          PlaysThen(s0, es, St(), Io(answers(1)));
          es := es + [Io(answers(1))];
          pc := Idle;
          ok := answers(1).Done?;
          if ok {
            committed := None;
          }
        case FileSnap(data) =>
          var prev := committed;
          if prev == None {
            prev := ReadBack(main.bytes, readable);
          }
          if prev == Some(data) {
            return true, es;
          }
          var k := 0;
          if prev.Some? && prev.value != "" {
            pc := BakWrite(prev.value, data);
            ghost var s1 := St();
            ghost var part;
            k, part := RefreshBak(prev.value, data, answers, 0);
            PlaysConcat(s0, es, s1, part, St());
            es := es + part;
          } else {
            pc := MainWrite(data);
          }
          ghost var s2 := St();
          ghost var rest;
          ok, k, rest := CommitMain(data, answers, k);
          PlaysConcat(s0, es, s2, rest, St());
          es := es + rest;
      }
    }
  }

  lemma {:induction false} PlaysConcat(s: Session, es: seq<Event>, s': Session, es': seq<Event>, s'': Session)
    requires Plays(s, es, s') && Plays(s', es', s'')
    ensures Plays(s, es + es', s'')
    decreases |es|
  {
    if es == [] {
      assert es + es' == es';
    } else {
      assert (es + es')[1..] == es[1..] + es';
      PlaysConcat(After(s, es[0]), es[1..], s', es', s'');
    }
  }

  /** Every run of a session has a vouching record, so the crash theorems of
      `Commit` speak about what the class does. */
  lemma {:induction false} PlaysReaches(v: Vouched, es: seq<Event>, s': Session)
    requires Plays(v.s, es, s')
    ensures exists claim :: Reaches(v, es, Vouched(s', claim))
    decreases |es|
  {
    if es == [] {
      assert Reaches(v, es, Vouched(s', v.claim));
    } else {
      var v1 := Next(v, es[0]);
      PlaysReaches(v1, es[1..], s');
      var claim :| Reaches(v1, es[1..], Vouched(s', claim));
      assert Reaches(v, es, Vouched(s', claim));
    }
  }

  /** The no-op return can hide a torn main: after a failed write of `b` over the
      committed `a`, syncing `a` again returns Ok with `b`'s prefix still there. */
  lemma NoOpHidesTornMain(a: string, b: string, k: nat)
    requires a != "" && b != a
    ensures var s := Session(Files(Torn(b, a, k), a), Some(a), Idle);
            && Plays(Session(Files(a, a), Some(a), MainWrite(b)), [Io(Failed(k))], s)
            && After(s, Sync(FileSnap(a), true)) == s
            && (0 < k <= |b| && b[0] != a[0] ==> s.files.main != a)
  {
    var s := Session(Files(Torn(b, a, k), a), Some(a), Idle);
    assert [Io(Failed(k))][1..] == [] && Plays(s, [], s);
    if 0 < k <= |b| && b[0] != a[0] {
      assert Torn(b, a, k)[0] == b[0];
    }
  }
}
