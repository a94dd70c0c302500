/** When a sync that has nothing to do may report success (`write_config_through`
    compares with what was committed and does not look at main). */
module SyncVerdict {
  import opened Wrappers
  import opened SyncAccess
  import opened Commit

  /** How an attempt on main failed; a failed truncation to nothing changes nothing. */
  datatype Failure =
    | NotWritten(data: string, written: nat)
    | NotTruncated(data: string)
    | NotFlushed(data: string)
    | WipeNotFlushed

  datatype Failures = Clean | Then(before: Failures, failure: Failure)

  function Noted(s: Session, e: Event, failures: Failures): Failures {
    if e.Sync? then failures
    else if e.outcome.Done? then
      if s.pc.MainFlush? || s.pc.WipeFlush? then Clean else failures
    else
      match s.pc
      case MainWrite(data) => Then(failures, NotWritten(data, e.outcome.written))
      case MainTruncate(data) => Then(failures, NotTruncated(data))
      case MainFlush(data) => Then(failures, NotFlushed(data))
      case WipeFlush => Then(failures, WipeNotFlushed)
      case _ => failures
  }

  /** The failures since the last commit or wipe of a run. */
  function Since(v: Vouched, es: seq<Event>, failures: Failures): Failures
    decreases |es|
  {
    if es == [] then failures else Since(Next(v, es[0]), es[1..], Noted(v.s, es[0], failures))
  }

  // --- what the failures make of main ---

  function Patched(c: string, failures: Failures): string {
    match failures
    case Clean => c
    case Then(before, NotWritten(data, written)) => Torn(data, Patched(c, before), written)
    case Then(before, NotTruncated(data)) => Torn(data, Patched(c, before), |data|)
    case Then(_, NotFlushed(data)) => data
    case Then(_, WipeNotFlushed) => ""
  }

  ghost predicate MainPatched(s: Session, failures: Failures) {
    MainReady(s) && (s.committed.Some? ==>
      var main := Patched(s.committed.value, failures);
      match s.pc
      case MainTruncate(data) => s.files.main == Torn(data, main, |data|)
      case MainFlush(_) => true
      case WipeFlush => s.files.main == ""
      case _ => s.files.main == main)
  }

  lemma {:induction false} RunPatches(v: Vouched, es: seq<Event>, v': Vouched, failures: Failures)
    requires MainPatched(v.s, failures) && Reaches(v, es, v')
    ensures MainPatched(v'.s, Since(v, es, failures))
    decreases |es|
  {
    if es != [] {
      RunPatches(Next(v, es[0]), es[1..], v', Noted(v.s, es[0], failures));
    }
  }

  // --- the exact condition ---

  function From(bytes: string, n: nat): string {
    if n <= |bytes| then bytes[n..] else ""
  }

  function Wrote(failure: Failure): (w: nat)
    requires failure.NotWritten? || failure.NotTruncated?
    ensures w <= |failure.data|
  {
    if failure.NotWritten? && failure.written <= |failure.data| then failure.written else |failure.data|
  }

  /** From byte `n` on, whatever a failure wrote and no later one wrote over is
      what `c` has there. */
  predicate Intact(c: string, n: nat, failures: Failures)
    requires n <= |c|
    decreases failures
  {
    match failures
    case Clean => true
    case Then(before, failure) =>
      if failure.NotFlushed? then From(failure.data, n) == c[n..]
      else if failure.WipeNotFlushed? then n == |c|
      else
        var w := Wrote(failure);
        if w <= n then Intact(c, n, before)
        else w <= |c| && failure.data[n..w] == c[n..w] && Intact(c, w, before)
  }

  lemma TornFrom(c: string, n: nat, data: string, prior: string, w: nat)
    requires n <= |c| && w <= |data|
    ensures From(Torn(data, prior, w), n) == c[n..] <==>
            if w <= n then From(prior, n) == c[n..]
            else w <= |c| && data[n..w] == c[n..w] && From(prior, w) == c[w..]
  {
    var torn := Torn(data, prior, w);
    assert torn == data[..w] + From(prior, w);
    if w <= n {
      assert From(torn, n) == From(prior, n);
    } else {
      assert From(torn, n) == data[n..w] + From(prior, w);
      if w <= |c| {
        assert c[n..] == c[n..w] + c[w..];
        assert |data[n..w]| == |c[n..w]|;
        if data[n..w] + From(prior, w) == c[n..w] + c[w..] {
          assert (data[n..w] + From(prior, w))[..w - n] == data[n..w];
          assert (c[n..w] + c[w..])[..w - n] == c[n..w];
          assert (data[n..w] + From(prior, w))[w - n..] == From(prior, w);
          assert (c[n..w] + c[w..])[w - n..] == c[w..];
        }
      }
    }
  }

  lemma {:induction false} IntactExactly(c: string, n: nat, failures: Failures)
    requires n <= |c|
    ensures Intact(c, n, failures) <==> From(Patched(c, failures), n) == c[n..]
    decreases failures
  {
    match failures
    case Clean =>
    case Then(before, failure) =>
      if failure.NotWritten? || failure.NotTruncated? {
        var w := Wrote(failure);
        TornFrom(c, n, failure.data, Patched(c, before), w);
        IntactExactly(c, n, before);
        if w <= |c| {
          IntactExactly(c, w, before);
        }
      }
  }

  /** Syncing the committed registry does nothing and succeeds.  Over all runs of
      a session main then really holds it exactly when the attempts that failed
      since that commit left no byte that disagrees with it. */
  lemma SuccessMeansMain(f: Files, es: seq<Event>, v: Vouched, readable: bool)
    requires Reaches(Booted(f), es, v) && v.s.pc.Idle? && v.s.committed.Some?
    ensures var c := v.s.committed.value;
            && After(v.s, Sync(FileSnap(c), readable)) == v.s
            && (v.s.files.main == c <==> Intact(c, 0, Since(Booted(f), es, Clean)))
  {
    var c := v.s.committed.value;
    RunPatches(Booted(f), es, v, Clean);
    IntactExactly(c, 0, Since(Booted(f), es, Clean));
    assert From(v.s.files.main, 0) == v.s.files.main && c[0..] == c;
  }

  /** With nothing failed it holds it; after the first failure, exactly when what
      was written agrees, and never when only the flush was missing. */
  lemma AfterOneFailure(f: Files, es: seq<Event>, v: Vouched)
    requires Reaches(Booted(f), es, v) && v.s.pc.Idle? && v.s.committed.Some?
    ensures var c, failures := v.s.committed.value, Since(Booted(f), es, Clean);
            && (failures.Clean? ==> v.s.files.main == c)
            && (failures.Then? && failures.before.Clean? ==>
                  (v.s.files.main == c <==>
                   match failures.failure
                   case NotFlushed(data) => data == c
                   case WipeNotFlushed => c == ""
                   case partial => partial.data[..Wrote(partial)] <= c))
  {
    SuccessMeansMain(f, es, v, true);
  }
}
