/** The observable call-state machine (`call-state.ts`). */
module CallState {

  datatype State = Idle | Ringing | Connecting | Connected | Ended

  /** Everything not listed is rejected; `Ended` is terminal. */
  function Allowed(from: State): set<State> {
    match from
    case Idle => {Ringing, Ended}
    case Ringing => {Connecting, Ended}
    case Connecting => {Connected, Ended}
    case Connected => {Ended}
    case Ended => {}
  }

  /** A listener's notification. */
  datatype Notice = Notice(listener: nat, from: State, to: State)

  class CallStateMachine {
    var currentState: State
    var listeners: seq<nat>
    var nextListener: nat
    /** Every notification ever delivered, in order. */
    ghost var delivered: seq<Notice>
    /** The states gone through. */
    ghost var path: seq<State>

    ghost predicate Valid()
      reads this
    {
      && path != [] && path[0] == Idle && path[|path| - 1] == currentState && IsPath(path)
      && (forall l :: l in listeners ==> l < nextListener)
      && (forall i, j :: 0 <= i < j < |listeners| ==> listeners[i] != listeners[j])
    }

    constructor ()
      ensures Valid() && currentState == Idle && listeners == [] && delivered == []
    {
      currentState, listeners, nextListener, delivered, path := Idle, [], 0, [], [Idle];
    }

    /** A disallowed or same-state transition is a silent no-op; an effective one
        tells every listener exactly once. */
    method Transition(to: State) returns (changed: bool)
      requires Valid()
      modifies this
      ensures Valid() && listeners == old(listeners) && nextListener == old(nextListener)
      ensures changed <==> to in Allowed(old(currentState))
      ensures currentState == if changed then to else old(currentState)
      ensures path == if changed then old(path) + [to] else old(path)
      ensures delivered == old(delivered) + if changed then Notices(listeners, old(currentState), to) else []
    {
      var from := currentState;
      if to == from {
        return false;
      }
      if to !in Allowed(from) {
        return false;
      }
      currentState := to;
      path := path + [to];
      var snapshot := listeners;
      for i := 0 to |snapshot|
        invariant Valid() && listeners == old(listeners) && nextListener == old(nextListener)
        invariant currentState == to && path == old(path) + [to]
        invariant delivered == old(delivered) + Notices(snapshot, from, to)[..i]
      {
        delivered := delivered + [Notice(snapshot[i], from, to)];
      }
      return true;
    }

    method Subscribe() returns (listener: nat)
      requires Valid()
      modifies this
      ensures Valid() && listener !in old(listeners) && listeners == old(listeners) + [listener]
      ensures currentState == old(currentState) && delivered == old(delivered) && path == old(path)
    {
      listener := nextListener;
      nextListener := nextListener + 1;
      assert forall l :: l in listeners + [listener] ==> l in listeners || l == listener;
      listeners := listeners + [listener];
    }
  }

  function Notices(listeners: seq<nat>, from: State, to: State): (ns: seq<Notice>)
    ensures |ns| == |listeners|
    ensures forall i :: 0 <= i < |ns| ==> ns[i] == Notice(listeners[i], from, to)
  {
    seq(|listeners|, i requires 0 <= i < |listeners| => Notice(listeners[i], from, to))
  }

  ghost predicate IsPath(path: seq<State>) {
    forall i :: 0 < i < |path| ==> path[i] in Allowed(path[i - 1])
  }

  function Rank(s: State): nat {
    match s
    case Idle => 0
    case Ringing => 1
    case Connecting => 2
    case Connected => 3
    case Ended => 4
  }

  /** No run of the machine visits a state twice or makes more than four moves,
      and `Ended` can only be the last state. */
  lemma {:induction false} PathsAscend(path: seq<State>, i: nat, j: nat)
    requires IsPath(path) && i < j < |path|
    ensures Rank(path[i]) + (j - i) <= Rank(path[j])
    ensures path[i] != Ended
    decreases j - i
  {
    assert path[i + 1] in Allowed(path[i]);
    if i + 1 < j {
      PathsAscend(path, i + 1, j);
    }
  }

  lemma PathsAreShort(path: seq<State>)
    requires IsPath(path) && path != []
    ensures |path| <= 5
    ensures forall i :: 0 <= i < |path| && path[i] == Ended ==> i == |path| - 1
  {
    if |path| > 1 {
      PathsAscend(path, 0, |path| - 1);
    }
    forall i | 0 <= i < |path| && path[i] == Ended ensures i == |path| - 1 {
      if i < |path| - 1 {
        PathsAscend(path, i, |path| - 1);
      }
    }
  }
}
