/** Retry policy for one queued write-through (`durability.rs`). */
module Durability {

  /** The first try plus three retries. */
  const MAX_ATTEMPTS: nat := 4
  const BACKOFF_MS: seq<nat> := [50, 200, 800]

  datatype Next = Done | Retry(afterMs: nat) | Permanent

  /** The verdict on the `attempt`-th try, counted from one. */
  function NextStep(ok: bool, attempt: nat): (next: Next)
    ensures next.Done? <==> ok
    ensures next.Permanent? <==> !ok && attempt >= MAX_ATTEMPTS
  {
    if ok then Done
    else if attempt >= MAX_ATTEMPTS then Permanent
    else
      var slot := if attempt == 0 then 0 else attempt - 1;
      Retry(BACKOFF_MS[slot]) // the table has a slot for every attempt that gets here
  }

  function Sum(xs: seq<nat>): nat {
    if xs == [] then 0 else xs[0] + Sum(xs[1..])
  }

  lemma {:induction false} SumAppend(xs: seq<nat>, x: nat)
    ensures Sum(xs + [x]) == Sum(xs) + x
  {
    if xs != [] {
      assert (xs + [x])[1..] == xs[1..] + [x];
      SumAppend(xs[1..], x);
    }
  }

  /** One path's retry loop, `outcomes` standing for the reconcile results (a
      missing entry is another failure).  A path is given up exactly when its
      first four attempts all fail; the backoffs grow and stay near a second. */
  method Drive(outcomes: seq<bool>) returns (attempt: nat, slept: seq<nat>, lost: bool)
    ensures 1 <= attempt <= MAX_ATTEMPTS
    ensures lost <==> forall i :: 0 <= i < MAX_ATTEMPTS && i < |outcomes| ==> !outcomes[i]
    ensures lost ==> attempt == MAX_ATTEMPTS
    ensures !lost ==> attempt <= |outcomes| && outcomes[attempt - 1]
    ensures forall i :: 0 <= i < attempt - 1 && i < |outcomes| ==> !outcomes[i]
    ensures slept == BACKOFF_MS[..attempt - 1] && Sum(slept) <= 1050
  {
    attempt, slept := 1, [];
    while true
      invariant 1 <= attempt <= MAX_ATTEMPTS
      invariant slept == BACKOFF_MS[..attempt - 1]
      invariant Sum(slept) == (match attempt case 1 => 0 case 2 => 50 case 3 => 250 case _ => 1050)
      invariant forall i :: 0 <= i < attempt - 1 && i < |outcomes| ==> !outcomes[i]
      decreases MAX_ATTEMPTS - attempt
    {
      var ok := attempt - 1 < |outcomes| && outcomes[attempt - 1];
      match NextStep(ok, attempt) {
        case Done => return attempt, slept, false;
        case Permanent => return attempt, slept, true;
        case Retry(after) =>
          SumAppend(slept, after);
          slept := slept + [after];
          attempt := attempt + 1;
      }
    }
  }
}
