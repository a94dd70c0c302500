/** The bridge between the engine and the far end (`bridge/index.ts`): who sends
    `endCall`, and how often. */
module CallBridge {
  import opened Wrappers

  /** The `placeOutgoingCall` round trip. */
  datatype Placement = NotAsked | InFlight | Settled

  datatype Notice = MessageId(id: nat) | Failed

  datatype State = State(
    outgoing: bool,
    callMessageId: Option<nat>,
    endCallSent: bool,
    ended: bool,              // the engine's state is `ended`
    placement: Placement,
    sent: seq<nat>,           // message ids `rpc.endCall` was called with
    notices: seq<Notice>)

  datatype Event =
    | Offer             // the engine's onLocalOffer
    | Placed(id: nat)   // placeOutgoingCall resolved
    | PlaceFailed
    | OwnerThrew        // the owner's onCallMessageId threw inside placeOutgoing
    | Answer            // the engine's onLocalAnswer
    | AnswerFailed
    | EngineEnded       // the engine ended on its own: failure, lost connection
    | Hangup
    | RemoteEnded
    | AcceptedElsewhere

  predicate Starts(s: State) {
    && !s.endCallSent && !s.ended && s.placement == NotAsked && s.sent == [] && s.notices == []
    && (s.outgoing <==> s.callMessageId == None)
  }

  /** Offers and answers come from a live engine, an offer once. */
  predicate Enabled(s: State, ev: Event) {
    match ev
    case Offer => s.outgoing && s.placement == NotAsked && !s.ended
    case Placed(_) => s.placement == InFlight
    case PlaceFailed => s.placement == InFlight
    case OwnerThrew => s.outgoing && s.callMessageId.Some? && !s.ended
    case Answer => !s.outgoing && !s.ended
    case AnswerFailed => !s.outgoing
    case _ => true
  }

  /** `sendEndCall`: at most once. */
  function SendEnd(s: State, id: nat): State {
    if s.endCallSent then s else s.(endCallSent := true, sent := s.sent + [id])
  }

  function After(s: State, ev: Event): State {
    match ev
    case Offer => s.(placement := InFlight)
    case Placed(id) =>
      var s1 := s.(callMessageId := Some(id), placement := Settled);
      if s.ended then SendEnd(s1, id) else s1.(notices := s.notices + [MessageId(id)])
    case PlaceFailed => s.(placement := Settled, ended := true, notices := s.notices + [Failed])
    case OwnerThrew => s.(ended := true, notices := s.notices + [Failed])
    case Answer => if s.callMessageId == None then s.(ended := true, notices := s.notices + [Failed]) else s
    case AnswerFailed => s.(ended := true, notices := s.notices + [Failed])
    case EngineEnded => s.(ended := true)
    case Hangup =>
      var s1 := s.(ended := true);
      if s.callMessageId.Some? then SendEnd(s1, s.callMessageId.value) else s1
    case RemoteEnded => s.(endCallSent := true, ended := true)
    case AcceptedElsewhere => s.(endCallSent := true, ended := true)
  }

  // --- runs ---

  ghost predicate IsRun(states: seq<State>, events: seq<Event>) {
    && |states| == |events| + 1 && Starts(states[0])
    && forall i :: 0 <= i < |events| ==> Enabled(states[i], events[i]) && states[i + 1] == After(states[i], events[i])
  }

  predicate FromFarEnd(ev: Event) {
    ev.RemoteEnded? || ev.AcceptedElsewhere?
  }

  /** The user hung up a call whose id is known, or the id of a call that is
      already over arrived. */
  predicate MustAnnounce(s: State, ev: Event) {
    (ev.Hangup? && s.callMessageId.Some?) || (ev.Placed? && s.ended)
  }

  ghost predicate Consistent(s: State) {
    && |s.sent| <= 1
    && (s.sent != [] ==> s.endCallSent && s.ended && s.callMessageId == Some(s.sent[0]))
    && (s.endCallSent ==> s.ended)
    && (s.outgoing ==> (s.callMessageId.Some? ==> s.placement == Settled))
    && (!s.outgoing ==> s.callMessageId.Some? && s.placement == NotAsked)
  }

  lemma StepKeepsConsistent(s: State, ev: Event)
    requires Consistent(s) && Enabled(s, ev)
    ensures Consistent(After(s, ev))
    ensures s.ended ==> After(s, ev).ended
    ensures s.sent <= After(s, ev).sent
    ensures After(s, ev).sent != s.sent ==> MustAnnounce(s, ev) && !s.endCallSent
  {
  }

  /** The events that end the call here. */
  predicate Finishes(s: State, ev: Event) {
    match ev
    case Offer => false
    case Placed(_) => false
    case Answer => s.callMessageId == None
    case _ => true
  }

  /** What the owner is told. */
  function Tells(s: State, ev: Event): seq<Notice> {
    match ev
    case Placed(id) => if s.ended then [] else [MessageId(id)]
    case PlaceFailed => [Failed]
    case OwnerThrew => [Failed]
    case AnswerFailed => [Failed]
    case Answer => if s.callMessageId == None then [Failed] else []
    case _ => []
  }

  /** What each event does to the call, to what the far end is told, and to what the
      owner is told. */
  lemma StepMeans(s: State, ev: Event)
    requires Consistent(s) && Enabled(s, ev)
    ensures var r := After(s, ev);
            && r.outgoing == s.outgoing && (r.ended <==> s.ended || Finishes(s, ev))
            && (r.endCallSent <==> s.endCallSent || FromFarEnd(ev) || MustAnnounce(s, ev))
            && r.callMessageId == (if ev.Placed? then Some(ev.id) else s.callMessageId)
            && r.sent == s.sent + (if MustAnnounce(s, ev) && !s.endCallSent then [r.callMessageId.value] else [])
            && r.notices == s.notices + Tells(s, ev)
            && r.placement == (if ev.Offer? then InFlight else if ev.Placed? || ev.PlaceFailed? then Settled else s.placement)
  {
    assert s.notices + [] == s.notices && s.sent + [] == s.sent;
  }

  /** `endCall` is sent at most once, with the id of this call, and only after
      the local engine was torn down. */
  lemma {:induction false} SentAtMostOnce(states: seq<State>, events: seq<Event>, i: nat)
    requires IsRun(states, events) && i < |states|
    ensures Consistent(states[i])
  {
    if i > 0 {
      SentAtMostOnce(states, events, i - 1);
      StepKeepsConsistent(states[i - 1], events[i - 1]);
    }
  }

  /** Something must be announced at `i`, and the far end had not spoken before. */
  ghost predicate Announces(states: seq<State>, events: seq<Event>, i: nat)
    requires |states| == |events| + 1
  {
    && i < |events| && MustAnnounce(states[i], events[i])
    && forall j :: 0 <= j < i ==> !FromFarEnd(events[j])
  }

  lemma {:induction false} WhyMarked(states: seq<State>, events: seq<Event>, k: nat)
    requires IsRun(states, events) && k < |states|
    ensures states[k].endCallSent <==>
              exists i :: 0 <= i < k && (FromFarEnd(events[i]) || MustAnnounce(states[i], events[i]))
  {
    if k > 0 {
      WhyMarked(states, events, k - 1);
      assert states[k] == After(states[k - 1], events[k - 1]);
      if states[k - 1].endCallSent {
        var i :| 0 <= i < k - 1 && (FromFarEnd(events[i]) || MustAnnounce(states[i], events[i]));
        assert states[k].endCallSent;
      }
    }
  }

  /** Exactly when `endCall` goes out: some event had to be announced before the
      far end ended the call or another device took it. */
  lemma {:induction false} SentExactlyWhen(states: seq<State>, events: seq<Event>, k: nat)
    requires IsRun(states, events) && k < |states|
    ensures states[k].sent != [] <==> exists i :: 0 <= i < k && Announces(states, events, i)
  {
    if k > 0 {
      var s, ev := states[k - 1], events[k - 1];
      SentExactlyWhen(states, events, k - 1);
      WhyMarked(states, events, k - 1);
      SentAtMostOnce(states, events, k - 1);
      StepKeepsConsistent(s, ev);
      assert states[k] == After(s, ev);
      if s.sent != [] {
        var i :| 0 <= i < k - 1 && Announces(states, events, i);
      } else if states[k].sent != [] {
        forall j | 0 <= j < k - 1 ensures !FromFarEnd(events[j]) {
        }
        assert Announces(states, events, k - 1);
      } else if Announces(states, events, k - 1) {
        assert s.endCallSent;
        var j :| 0 <= j < k - 1 && (FromFarEnd(events[j]) || MustAnnounce(states[j], events[j]));
        assert Announces(states, events, j);
      }
    }
  }

  /** The call is over exactly when one of the events that end it came. */
  lemma {:induction false} EndedExactly(states: seq<State>, events: seq<Event>, k: nat)
    requires IsRun(states, events) && k < |states|
    ensures states[k].ended <==> exists i :: 0 <= i < k && Finishes(states[i], events[i])
  {
    if k > 0 {
      EndedExactly(states, events, k - 1);
      SentAtMostOnce(states, events, k - 1);
      StepMeans(states[k - 1], events[k - 1]);
      if states[k - 1].ended {
        var i :| 0 <= i < k - 1 && Finishes(states[i], events[i]);
        assert 0 <= i < k;
      }
    }
  }

  /** The owner is given the id of exactly the placement that came to a live call. */
  lemma {:induction false} IdIsToldExactly(states: seq<State>, events: seq<Event>, k: nat, id: nat)
    requires IsRun(states, events) && k < |states|
    ensures MessageId(id) in states[k].notices <==> exists i :: 0 <= i < k && events[i] == Placed(id) && !states[i].ended
  {
    if k > 0 {
      IdIsToldExactly(states, events, k - 1, id);
      SentAtMostOnce(states, events, k - 1);
      StepMeans(states[k - 1], events[k - 1]);
      if MessageId(id) in states[k - 1].notices {
        var i :| 0 <= i < k - 1 && events[i] == Placed(id) && !states[i].ended;
        assert 0 <= i < k;
      }
    }
  }

  lemma {:induction false} EndedStays(states: seq<State>, events: seq<Event>, i: nat, k: nat)
    requires IsRun(states, events) && i <= k < |states| && states[i].ended
    ensures states[k].ended
    decreases k
  {
    if i < k {
      EndedStays(states, events, i, k - 1);
      SentAtMostOnce(states, events, k - 1);
      StepKeepsConsistent(states[k - 1], events[k - 1]);
    }
  }

  lemma {:induction false} IdFromPlacement(states: seq<State>, events: seq<Event>, k: nat)
    requires IsRun(states, events) && k < |states| && states[k].callMessageId.Some?
    ensures states[0].callMessageId == states[k].callMessageId
            || exists p :: 0 <= p < k && events[p] == Placed(states[k].callMessageId.value)
                           && forall j :: p < j <= k ==> states[j].callMessageId == states[k].callMessageId
    ensures states[0].callMessageId.Some? ==> forall j :: 0 <= j <= k ==> states[j].callMessageId == states[k].callMessageId
  {
    if k > 0 {
      SentAtMostOnce(states, events, k - 1);
      assert states[k] == After(states[k - 1], events[k - 1]);
      if events[k - 1].Placed? {
        assert states[k - 1].callMessageId == None;
        StartsUnknown(states, events, k - 1);
      } else {
        IdFromPlacement(states, events, k - 1);
        if states[0].callMessageId != states[k].callMessageId {
          var p :| 0 <= p < k - 1 && events[p] == Placed(states[k].callMessageId.value)
                   && forall j :: p < j <= k - 1 ==> states[j].callMessageId == states[k].callMessageId;
        }
      }
    }
  }

  lemma {:induction false} StartsUnknown(states: seq<State>, events: seq<Event>, k: nat)
    requires IsRun(states, events) && k < |states| && states[k].callMessageId == None
    ensures states[0].callMessageId == None
  {
    if k > 0 {
      assert states[k] == After(states[k - 1], events[k - 1]);
      StartsUnknown(states, events, k - 1);
    }
  }

  /** The promise to the user: a hang-up at `h` reaches the far end exactly once,
      with the call's id, even when it came before the id was known, unless the
      far end ended the call, or another device took it, before the hang-up or
      before the id arrived. */
  lemma HangupIsAnnounced(states: seq<State>, events: seq<Event>, h: nat, k: nat)
    requires IsRun(states, events) && h < k < |states| && events[h] == Hangup
    requires states[k].callMessageId.Some?
    requires forall j :: 0 <= j < k && FromFarEnd(events[j]) ==> h < j && states[j].callMessageId.Some?
    ensures states[k].sent == [states[k].callMessageId.value]
  {
    SentExactlyWhen(states, events, k);
    SentAtMostOnce(states, events, k);
    if states[h].callMessageId.Some? {
      assert Announces(states, events, h);
    } else {
      IdFromPlacement(states, events, k);
      StartsUnknown(states, events, h);
      var p :| 0 <= p < k && events[p] == Placed(states[k].callMessageId.value)
               && forall j :: p < j <= k ==> states[j].callMessageId == states[k].callMessageId;
      assert p >= h;
      assert states[h + 1] == After(states[h], events[h]);
      EndedStays(states, events, h + 1, p);
      NoIdBefore(states, events, p);
      assert Announces(states, events, p);
    }
  }

  /** Before the placement resolves no id is known. */
  lemma NoIdBefore(states: seq<State>, events: seq<Event>, p: nat)
    requires IsRun(states, events) && p < |events| && events[p].Placed?
    ensures forall j :: 0 <= j <= p ==> states[j].callMessageId == None
  {
    SentAtMostOnce(states, events, p);
    forall j | 0 <= j <= p ensures states[j].callMessageId == None {
      KnownStays(states, events, j, p);
    }
  }

  lemma {:induction false} KnownStays(states: seq<State>, events: seq<Event>, j: nat, p: nat)
    requires IsRun(states, events) && j <= p < |states| && states[p].callMessageId == None
    ensures states[j].callMessageId == None
    decreases p
  {
    if j < p {
      assert states[p] == After(states[p - 1], events[p - 1]);
      KnownStays(states, events, j, p - 1);
    }
  }

  /** An exception of the owner ends a call that was placed, and nobody tells
      the far end: that happens exactly if the user hangs up afterwards, before the
      far end speaks. */
  lemma OwnerThrewIsSilent(states: seq<State>, events: seq<Event>, t: nat, k: nat)
    requires IsRun(states, events) && t < k < |states| && events[t] == OwnerThrew
    requires forall j :: 0 <= j < t ==> !FromFarEnd(events[j])
    ensures states[k].sent != [] <==> exists h :: t < h < k && events[h] == Hangup && Announces(states, events, h)
  {
    SentExactlyWhen(states, events, k);
    SentAtMostOnce(states, events, t);
    if states[k].sent != [] {
      var i :| 0 <= i < k && Announces(states, events, i);
      if i < t {
        assert states[i + 1] == After(states[i], events[i]);
        if events[i].Hangup? || states[i].ended {
          EndedStays(states, events, i + 1, t);
        }
      }
      if events[i].Placed? {
        SentAtMostOnce(states, events, i);
        KnownStays(states, events, t, i);
      }
    }
  }

  // --- the object ---

  class Bridge {
    const outgoing: bool
    var callMessageId: Option<nat>
    var endCallSent: bool
    var ended: bool
    var placement: Placement
    var sent: seq<nat>
    var notices: seq<Notice>

    ghost function St(): State
      reads this
    {
      State(outgoing, callMessageId, endCallSent, ended, placement, sent, notices)
    }

    /** What every run keeps (`SentAtMostOnce`), of the object. */
    ghost predicate Valid()
      reads this
    {
      Consistent(St())
    }

    constructor (id: Option<nat>)
      ensures Valid() && Starts(St()) && callMessageId == id
    {
      outgoing, callMessageId := id == None, id;
      endCallSent, ended, placement, sent, notices := false, false, NotAsked, [], [];
    }

    /** The first time the end is announced, and never again. */
    method SendEndCall(id: nat)
      requires Valid() && ended && callMessageId == Some(id)
      modifies `endCallSent, `sent
      ensures Valid() && St() == SendEnd(old(St()), id)
      ensures endCallSent && sent == if old(endCallSent) then old(sent) else [id]
    {
      if endCallSent {
        return;
      }
      endCallSent := true;
      sent := sent + [id];
    }

    /** The call is over at once; the far end learns of it, once, if its id is
        known and nobody ended the call before. */
    method UserHangup()
      requires Valid()
      modifies this
      ensures Valid() && St() == After(old(St()), Hangup)
      ensures ended && callMessageId == old(callMessageId) && notices == old(notices)
      ensures if callMessageId.Some? && !old(endCallSent) then sent == [callMessageId.value] else sent == old(sent)
      ensures callMessageId.Some? ==> endCallSent
      ensures old(ended) && (callMessageId == None || old(endCallSent)) ==> St() == old(St())
    {
      var id := callMessageId;
      ended := true;
      if id.Some? {
        SendEndCall(id.value);
      }
    }

    method OnRemoteEnded()
      requires Valid()
      modifies `endCallSent, `ended
      ensures Valid() && St() == After(old(St()), RemoteEnded)
    {
      endCallSent := true;
      ended := true;
    }

    method OnAcceptedElsewhere()
      requires Valid()
      modifies `endCallSent, `ended
      ensures Valid() && St() == After(old(St()), AcceptedElsewhere)
    {
      endCallSent := true;
      ended := true;
    }

    /** `placeOutgoing` up to its await, from the engine's offer. */
    method PlaceOutgoing()
      requires Valid() && Enabled(St(), Offer)
      modifies `placement
      ensures Valid() && St() == After(old(St()), Offer)
    {
      placement := InFlight;
    }

    /** The rest of `placeOutgoing`.  Whatever happened during the round trip, a
        placed call is either announced to the owner or cancelled at the far end,
        never both, and neither only when the far end ended it itself.  An owner
        that `throws` at the announcement ends the call without a word to the far
        end. */
    method OnPlaced(result: Option<nat>, throws: bool)
      requires Valid() && placement == InFlight
      modifies this
      ensures Valid()
      ensures var s := After(old(St()), match result case Some(id) => Placed(id) case None => PlaceFailed);
              St() == if Enabled(s, OwnerThrew) && throws then After(s, OwnerThrew) else s
      ensures old(sent) == [] && old(callMessageId) == None && callMessageId == result
      ensures result.Some? ==>
                && (sent == [result.value] <==> old(ended) && !old(endCallSent)) && (sent != [] ==> sent == [result.value])
                && (ended <==> old(ended) || throws)
                && notices == old(notices) + (if old(ended) then [] else [MessageId(result.value)])
                              + (if throws && !old(ended) then [Failed] else [])
      ensures result.None? ==> ended && sent == [] && notices == old(notices) + [Failed]
    {
      placement := Settled;
      match result
      case Some(id) =>
        callMessageId := Some(id);
        if ended {
          SendEndCall(id);
          return;
        }
        notices := notices + [MessageId(id)];
        if throws {
          ended := true;
          notices := notices + [Failed];
        }
      case None =>
        ended := true;
        notices := notices + [Failed];
    }

    /** `sendAnswer` up to its await; `asked` when the far end is asked.  In an
        object that was only used through its methods the guard never fires: an
        incoming call knows its id from the start. */
    method SendAnswer() returns (asked: bool)
      requires Enabled(St(), Answer)
      modifies `ended, `notices
      ensures St() == After(old(St()), Answer)
      ensures old(Valid()) ==> Valid() && asked && St() == old(St())
    {
      if callMessageId == None {
        ended := true;
        notices := notices + [Failed];
        return false;
      }
      return true;
    }

    method OnAnswerFailed()
      requires Valid() && !outgoing
      modifies `ended, `notices
      ensures Valid() && St() == After(old(St()), AnswerFailed)
    {
      ended := true;
      notices := notices + [Failed];
    }

    method OnEngineEnded()
      requires Valid()
      modifies `ended
      ensures Valid() && St() == After(old(St()), EngineEnded)
    {
      ended := true;
    }
  }
}
