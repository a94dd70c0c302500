/** What the engine tells its owner, in which order: the state changes form a path
    of the transition table, media callbacks come only from a live call, and the
    one failure report comes after the end. */
module CallEngineLog {
  import opened Wrappers
  import opened CallEngine
  import opened CallEngineRuns
  import CS = CallState

  /** `log` is a possible history of an engine now in state `s`. */
  ghost predicate Traced(log: seq<Callback>, s: CS.State) {
    if log == [] then s == CS.Idle
    else
      var earlier := log[..|log| - 1];
      match log[|log| - 1]
      case StateChange(from, to) => to == s && to in CS.Allowed(from) && Traced(earlier, from)
      case Failure => s == CS.Ended && Failure !in earlier && Traced(earlier, s)
      case DeviceError => Traced(earlier, s)
      case ShareError => Traced(earlier, s)
      case _ => s != CS.Ended && Traced(earlier, s)
  }

  /** The part of the engine its history depends on. */
  datatype Voice = Voice(log: seq<Callback>, state: CS.State, epoch: Option<nat>) {
    ghost predicate Told() {
      Traced(log, state) && (epoch.Some? ==> state != CS.Ended)
    }

    function Say(c: Callback): Voice {
      this.(log := log + [c])
    }

    function Move(to: CS.State): Voice {
      if to in CS.Allowed(state) then Voice(log + [StateChange(state, to)], to, epoch) else this
    }

    function End(): Voice {
      if state == CS.Ended then this else Move(CS.Ended).(epoch := None)
    }

    function Fail(of: nat): Voice {
      if epoch == Some(of) then End().Say(Failure) else this
    }
  }

  function V(e: Engine): Voice {
    Voice(e.log, e.state, e.epoch)
  }

  // --- what keeps a history possible ---

  lemma Say(v: Voice, c: Callback)
    requires v.Told()
    requires match c
             case StateChange(from, to) => false
             case Failure => v.state == CS.Ended && Failure !in v.log
             case DeviceError => true
             case ShareError => true
             case _ => v.state != CS.Ended
    ensures v.Say(c).Told()
  {
    assert (v.log + [c])[..|v.log|] == v.log;
  }

  lemma Move(v: Voice, to: CS.State)
    requires v.Told() && to != CS.Ended
    ensures v.Move(to).Told()
  {
    var c := StateChange(v.state, to);
    assert (v.log + [c])[..|v.log|] == v.log;
  }

  lemma {:induction false} NoEarlyFailure(log: seq<Callback>, s: CS.State)
    requires Traced(log, s) && s != CS.Ended
    ensures Failure !in log
  {
    if log != [] {
      var earlier, c := log[..|log| - 1], log[|log| - 1];
      NoEarlyFailure(earlier, if c.StateChange? then c.from else s);
      assert log == earlier + [c];
    }
  }

  lemma End(v: Voice)
    requires v.Told()
    ensures v.End().Told()
    ensures v.state != CS.Ended ==> Failure !in v.End().log
  {
    if v.state != CS.Ended {
      var c := StateChange(v.state, CS.Ended);
      assert (v.log + [c])[..|v.log|] == v.log;
      NoEarlyFailure(v.log, v.state);
    }
  }

  lemma Fail(v: Voice, epoch: nat)
    requires v.Told()
    ensures v.Fail(epoch).Told()
  {
    if v.epoch == Some(epoch) {
      End(v);
      Say(v.End(), Failure);
    }
  }

  // --- what each stretch says ---

  lemma FailingVoice(e: Engine, epoch: nat)
    ensures V(Ending(e)) == V(e).End() || e.state == CS.Ended
    ensures V(Failing(e, epoch)) == V(e).Fail(epoch)
    ensures V(Promote(e, epoch, true)) == if IsActive(e, epoch) then V(e).Move(CS.Connected) else V(e)
    ensures Promote(e, epoch, false) == e
  {
  }

  /** Silent, or a failure of the call. */
  ghost predicate QuietOrFails(e: Engine, epoch: nat, r: Engine) {
    V(r) == V(e) || V(r) == V(e).Fail(epoch)
  }

  lemma NegotiateVoice(e: Engine, id: nat, epoch: nat, outgoing: bool, env: Env)
    ensures QuietOrFails(e, epoch, NegotiateVideo(e, id, epoch, outgoing, env))
  {
    if env.tracksThrow {
      FailingVoice(e, epoch);
    }
  }

  lemma TracksVoice(e: Engine, id: nat, epoch: nat, outgoing: bool, env: Env)
    ensures QuietOrFails(e, epoch, AddTracks(e, id, epoch, outgoing, env))
  {
    if OfKind(LocalTracks(e), Video) == {} {
      var e1 := WithPlaceholder(e, env.placeholder);
      assert V(e1) == V(e);
      NegotiateVoice(e1, id, epoch, outgoing, env);
    } else if env.tracksThrow {
      FailingVoice(e, epoch);
    }
  }

  lemma ConnectVoice(e: Engine, id: nat, epoch: nat, outgoing: bool, env: Env)
    ensures QuietOrFails(e, epoch, Connect(e, id, epoch, outgoing, env))
  {
    FailingVoice(e, epoch);
    if env.pc.Some? {
      var e1 := CreateConnection(e, env.pc.value);
      FailingVoice(e1, epoch);
      TracksVoice(e1, id, epoch, outgoing, env);
    }
  }

  lemma NotifyTold(e: Engine, epoch: nat, audio: Option<Track>, video: Option<Track>)
    requires V(e).Told() && IsActive(e, epoch)
    ensures V(FlushCameraError(NotifyLocal(e, audio, video), epoch)).Told()
  {
    var v := V(e);
    var v1 := if audio.Some? then v.Say(LocalTrack(audio.value)) else v;
    if audio.Some? {
      Say(v, LocalTrack(audio.value));
    }
    var v2 := if video.Some? then v1.Say(LocalVideo(video)) else v1;
    if video.Some? {
      Say(v1, LocalVideo(video));
    }
    Say(v2, DeviceError);
    assert v2 == V(NotifyLocal(e, audio, video));
    assert v2.log + [] == v2.log;
  }

  lemma AdoptTold(e: Engine, id: nat, epoch: nat, outgoing: bool, audio: Option<Track>, video: Option<Track>, env: Env)
    requires V(e).Told()
    ensures V(Adopt(e, id, epoch, outgoing, audio, video, env)).Told()
  {
    if IsActive(e, epoch) {
      var e1 := e.(local := Some(Some1(audio) + Some1(video)));
      NotifyTold(e1, epoch, audio, video);
      var e2 := FlushCameraError(NotifyLocal(e1, audio, video), epoch);
      ConnectVoice(e2, id, epoch, outgoing, env);
      Fail(V(e2), epoch);
    }
  }

  lemma GatheredTold(e: Engine, epoch: nat, connected: bool)
    requires V(e).Told() && IsActive(e, epoch)
    ensures V(Log(e, LocalOffer)).Told() && V(Promote(Log(e, LocalAnswer), epoch, connected)).Told()
  {
    Say(V(e), LocalOffer);
    Say(V(e), LocalAnswer);
    FailingVoice(Log(e, LocalAnswer), epoch);
    Move(V(e).Say(LocalAnswer), CS.Connected);
  }

  lemma SetupVoice(e: Engine, id: nat, epoch: nat, outgoing: bool, stage: Stage, a: Answer, env: Env)
    requires match stage case Acquire(_) => !a.Stream? case Retry => !a.Stream? case Gather => a.Threw? || !IsActive(e, epoch) case _ => true
    ensures QuietOrFails(e, epoch, ResumeSetup(e, id, epoch, outgoing, stage, a, env))
  {
    if stage.SetRemote? && !a.Threw? && IsActive(e, epoch) {
      TracksVoice(e, id, epoch, outgoing, env);
    } else {
      FailingVoice(e, epoch);
    }
  }

  lemma SetupTold(e: Engine, id: nat, epoch: nat, outgoing: bool, stage: Stage, a: Answer, env: Env)
    requires V(e).Told()
    ensures V(ResumeSetup(e, id, epoch, outgoing, stage, a, env)).Told()
  {
    if (stage.Acquire? || stage.Retry?) && a.Stream? {
      AdoptTold(if stage.Retry? then e.(cameraError := true) else e, id, epoch, outgoing, a.audio, a.video, env);
    } else if stage.Gather? && !a.Threw? && IsActive(e, epoch) {
      GatheredTold(e, epoch, env.connected);
    } else {
      SetupVoice(e, id, epoch, outgoing, stage, a, env);
      Fail(V(e), epoch);
    }
  }

  lemma ReplacingVoice(e: Engine, id: nat, epoch: nat, got: Option<Track>, ts: set<Track>, ready: bool, f: Frame, report: Callback)
    ensures V(Replacing(e, id, epoch, got, ts, ready, f, report)) in {V(e), V(e).Say(report)}
  {
  }

  lemma AcquiredVoice(e: Engine, id: nat, f: Frame, a: Answer, env: Env)
    requires f.MicAcquire? || f.CamAcquire? || f.ShareAcquire?
    ensures V(ResumeFrame(e, id, f, a, env)) in {V(e), V(e).Say(if f.ShareAcquire? then ShareError else DeviceError)}
  {
    var report := if f.ShareAcquire? then ShareError else DeviceError;
    var got := if !a.Stream? then None else if f.MicAcquire? then a.audio else a.video;
    ReplacingVoice(e, id, f.epoch, None, {}, false, f, report);
    if got.Some? {
      var t := got.value;
      var g := if f.MicAcquire? then MicReplace(f.epoch, t) else if f.CamAcquire? then CamReplace(f.epoch, t) else ShareReplace(f.epoch, t);
      ReplacingVoice(e, id, f.epoch, got, {t}, f.MicAcquire? ==> env.senderFound, g, report);
    }
  }

  lemma ReplacedVoice(e: Engine, epoch: nat, t: Track, a: Answer)
    ensures V(ResumeMicReplace(e, epoch, t, a)) in {V(e), V(e).Say(DeviceError)}
            || (IsActive(e, epoch) && V(ResumeMicReplace(e, epoch, t, a)) == V(e).Say(LocalTrack(t)))
    ensures V(ResumeCamReplace(e, epoch, t, a)) in {V(e), V(e).Say(DeviceError)}
            || (IsActive(e, epoch) && V(ResumeCamReplace(e, epoch, t, a)) == V(e).Say(LocalVideo(Some(t))))
    ensures V(ResumeShareReplace(e, epoch, t, a)) in {V(e), V(e).Say(ShareError)}
            || (IsActive(e, epoch) && V(ResumeShareReplace(e, epoch, t, a)) == V(e).Say(ShareChanged(true)).Say(LocalVideo(Some(t))))
  {
    var v := SwapVideo(e, t);
    assert V(v) == V(e);
  }

  lemma VideoOffVoice(e: Engine, id: nat, f: Frame, a: Answer, env: Env)
    requires f.CamOff? || f.ShareStop? || f.CamContinue?
    ensures var r := ResumeFrame(e, id, f, a, env);
            V(r) in {V(e), V(e).Say(DeviceError), V(e).Say(ShareError)} || (IsActive(e, f.epoch) && V(r) == V(e).Say(LocalVideo(None)))
  {
    assert V(DropVideo(e)) == V(e);
  }

  lemma ResumeTold(e: Engine, id: nat, f: Frame, a: Answer, env: Env)
    requires V(e).Told()
    ensures V(ResumeFrame(e, id, f, a, env)).Told()
  {
    var v := V(e);
    Say(v, DeviceError);
    Say(v, ShareError);
    if f.Setup? {
      SetupTold(e, id, f.epoch, f.outgoing, f.stage, a, env);
    } else if f.MicAcquire? || f.CamAcquire? || f.ShareAcquire? {
      AcquiredVoice(e, id, f, a, env);
    } else if f.MicReplace? || f.CamReplace? || f.ShareReplace? {
      ReplacedTold(e, f.epoch, f.track, a);
    } else if f.Answering? {
      FailingVoice(e, f.epoch);
      Fail(v, f.epoch);
      Move(v, CS.Connected);
    } else {
      VideoOffVoice(e, id, f, a, env);
      if IsActive(e, f.epoch) {
        Say(v, LocalVideo(None));
      }
    }
  }

  lemma ReplacedTold(e: Engine, epoch: nat, t: Track, a: Answer)
    requires V(e).Told()
    ensures V(ResumeMicReplace(e, epoch, t, a)).Told()
    ensures V(ResumeCamReplace(e, epoch, t, a)).Told()
    ensures V(ResumeShareReplace(e, epoch, t, a)).Told()
  {
    var v := V(e);
    ReplacedVoice(e, epoch, t, a);
    Say(v, DeviceError);
    Say(v, ShareError);
    if IsActive(e, epoch) {
      Say(v, LocalTrack(t));
      Say(v, LocalVideo(Some(t)));
      Say(v, ShareChanged(true));
      Say(v.Say(ShareChanged(true)), LocalVideo(Some(t)));
    }
  }

  lemma CalledVoice(e: Engine, id: nat, r: Request)
    ensures var v, w := V(e), V(Called(e, id, r));
            || w in {v, v.Say(DeviceError), v.Say(ShareError)}
            || (e.state == CS.Idle && w == v.(epoch := Some(e.epochs)).Move(CS.Ringing))
            || (e.state == CS.Ringing && w == v.Move(CS.Connecting))
            || (e.sharing && w == v.Say(ShareChanged(false)))
  {
  }

  lemma CalledTold(e: Engine, id: nat, r: Request)
    requires V(e).Told() && (e.sharing ==> e.state != CS.Ended)
    ensures V(Called(e, id, r)).Told()
  {
    var v := V(e);
    CalledVoice(e, id, r);
    Say(v, DeviceError);
    Say(v, ShareError);
    Move(v, CS.Connecting);
    if e.state == CS.Idle {
      Move(v.(epoch := Some(e.epochs)), CS.Ringing);
    }
    if e.sharing {
      Say(v, ShareChanged(false));
    }
  }

  lemma StepTold(e: Engine, ev: Event)
    requires V(e).Told() && (e.sharing ==> e.state != CS.Ended) && Enabled(e, ev)
    ensures V(After(e, ev)).Told()
  {
    match ev
    case Call(id, r) => CalledTold(e, id, r);
    case Resume(id, a, env) => ResumeTold(Taken(e, id, a), id, e.frames[id], a, env);
    case End =>
      FailingVoice(e, 0);
      End(V(e));
    case RemoteTrack =>
      if e.state != CS.Ended {
        Say(V(e), RemoteStream);
      }
    case ConnectionState(connected, gone) =>
      FailingVoice(e, 0);
      End(V(e));
      Move(V(e), CS.Connected);
  }

  lemma {:induction false} RunIsTold(states: seq<Engine>, events: seq<Event>, i: nat)
    requires IsRun(states, events) && i < |states|
    ensures V(states[i]).Told()
  {
    if i > 0 {
      var k := i - 1;
      RunIsTold(states, events, k);
      RunIsTidy(states, events, k);
      assert Steps(states[k], events[k], states[k + 1]);
      StepTold(states[k], events[k]);
    }
  }

  // --- what it says ---

  /** The states a history goes through. */
  function Visited(log: seq<Callback>): seq<CS.State> {
    if log == [] then [CS.Idle]
    else
      var c := log[|log| - 1];
      Visited(log[..|log| - 1]) + if c.StateChange? then [c.to] else []
  }

  lemma {:induction false} TracedPath(log: seq<Callback>, s: CS.State)
    requires Traced(log, s)
    ensures var p := Visited(log); CS.IsPath(p) && p != [] && p[0] == CS.Idle && p[|p| - 1] == s
  {
    if log != [] {
      var c := log[|log| - 1];
      TracedPath(log[..|log| - 1], if c.StateChange? then c.from else s);
    }
  }

  /** After the change to `Ended` at `i`, only late errors follow, and at most one
      failure of the call. */
  lemma {:induction false} SilentAfterEnd(log: seq<Callback>, s: CS.State, i: nat, j: nat)
    requires Traced(log, s) && i < j < |log| && log[i].StateChange? && log[i].to == CS.Ended
    ensures log[j] in {DeviceError, ShareError, Failure} && s == CS.Ended
  {
    var earlier, c := log[..|log| - 1], log[|log| - 1];
    if j < |log| - 1 {
      SilentAfterEnd(earlier, if c.StateChange? then c.from else s, i, j);
    } else if i < |log| - 2 {
      SilentAfterEnd(earlier, if c.StateChange? then c.from else s, i, |log| - 2);
    } else {
      assert earlier[|earlier| - 1] == log[i];
    }
  }

  lemma {:induction false} OneFailure(log: seq<Callback>, s: CS.State, i: nat, j: nat)
    requires Traced(log, s) && i <= j < |log| && log[i] == Failure && log[j] == Failure
    ensures i == j && s == CS.Ended
  {
    var earlier, c := log[..|log| - 1], log[|log| - 1];
    assert i < |earlier| ==> earlier[i] == log[i];
    if j < |log| - 1 {
      OneFailure(earlier, if c.StateChange? then c.from else s, i, j);
    }
  }

  /** In every run: the states are a path of the transition table; after `Ended`
      no offer, answer, remote stream, local track or share notice is given; a
      failure is reported at most once, and only by an ended engine. */
  lemma EndedIsAbsorbing(states: seq<Engine>, events: seq<Event>, k: nat)
    requires IsRun(states, events) && k < |states|
    ensures var p := Visited(states[k].log); CS.IsPath(p) && 0 < |p| <= 5 && p[0] == CS.Idle && p[|p| - 1] == states[k].state
    ensures forall i, j :: 0 <= i < j < |states[k].log| && states[k].log[i].StateChange? && states[k].log[i].to == CS.Ended ==>
              states[k].log[j] in {DeviceError, ShareError, Failure}
    ensures forall i, j :: 0 <= i <= j < |states[k].log| && states[k].log[i] == Failure && states[k].log[j] == Failure ==>
              i == j && states[k].state == CS.Ended
  {
    RunIsTold(states, events, k);
    var log, s := states[k].log, states[k].state;
    TracedPath(log, s);
    CS.PathsAreShort(Visited(log));
    forall i, j | 0 <= i < j < |log| && log[i].StateChange? && log[i].to == CS.Ended
      ensures log[j] in {DeviceError, ShareError, Failure}
    {
      SilentAfterEnd(log, s, i, j);
    }
    forall i, j | 0 <= i <= j < |log| && log[i] == Failure && log[j] == Failure
      ensures i == j && s == CS.Ended
    {
      OneFailure(log, s, i, j);
    }
  }
}
