/** What makes a call advance, and what its undisturbed operations lead to
    (`audio-call.ts`). */
module CallEngineProgress {
  import opened Wrappers
  import opened CallEngine
  import opened CallEngineLog
  import opened CallEngineSafety
  import opened CallEngineRuns
  import CS = CallState

  // --- what moves the state ---

  /** The resumed step of the running setup, or of the answer's application, that
      can end the call: it threw, or the platform refuses what follows. */
  predicate MayFail(e: Engine, ev: Event) {
    && ev.Resume? && ev.id in e.frames && (e.frames[ev.id].Setup? || e.frames[ev.id].Answering?)
    && Some(e.frames[ev.id].epoch) == e.epoch
    && (ev.answer.Threw? || ev.env.pc == None || ev.env.channelsThrow || ev.env.tracksThrow)
  }

  /** The connection is up: reported, or found so when a description was applied. */
  predicate ReportsConnected(e: Engine, ev: Event) {
    match ev
    case ConnectionState(connected, _) => connected && e.pc.Some?
    case Resume(id, a, env) =>
      && id in e.frames && env.connected && !a.Threw? && Some(e.frames[id].epoch) == e.epoch
      && (e.frames[id].Answering? || (e.frames[id].Setup? && e.frames[id].stage.Gather? && !e.frames[id].outgoing))
    case _ => false
  }

  predicate Hangs(e: Engine, ev: Event) {
    ev.End? || (ev.ConnectionState? && !ev.connected && ev.gone && e.pc.Some?)
  }

  predicate Begins(ev: Event) {
    ev.Call? && (ev.request.Place? || ev.request.Receive?)
  }

  /** The callee accepts, or the caller is given the callee's answer. */
  predicate Agrees(e: Engine, ev: Event) {
    ev.Call? && match ev.request
                case Accept(_) => e.direction == Some(Incoming)
                case ProvideAnswer => e.direction == Some(Outgoing) && e.pc.Some?
                case _ => false
  }

  /** The one reason for each move of the state. */
  ghost predicate Caused(e: Engine, ev: Event, to: CS.State) {
    match to
    case Idle => false
    case Ringing => e.state == CS.Idle && Begins(ev)
    case Connecting => e.state == CS.Ringing && Agrees(e, ev)
    case Connected => e.state == CS.Connecting && ReportsConnected(e, ev)
    case Ended => e.state != CS.Ended && (Hangs(e, ev) || MayFail(e, ev))
  }

  ghost predicate StaysOrEnds(e: Engine, r: Engine) {
    r.state == e.state || r.state == CS.Ended
  }

  lemma FailingState(e: Engine, epoch: nat)
    ensures Failing(e, epoch).state == if e.epoch == Some(epoch) then CS.Ended else e.state
    ensures Failing(e, epoch).epoch == if e.epoch == Some(epoch) && e.state != CS.Ended then None else e.epoch
  {
  }

  ghost predicate Refuses(e: Engine, epoch: nat, r: Engine) {
    e.epoch == Some(epoch) && r.state == CS.Ended
  }

  lemma NegotiateState(e: Engine, id: nat, epoch: nat, outgoing: bool, env: Env)
    ensures var r := NegotiateVideo(e, id, epoch, outgoing, env);
            if env.tracksThrow then StaysOrEnds(e, r) && (r.state != e.state ==> Refuses(e, epoch, r)) else r.state == e.state
  {
    if env.tracksThrow {
      FailingState(e, epoch);
    }
  }

  lemma TracksState(e: Engine, id: nat, epoch: nat, outgoing: bool, env: Env)
    ensures var r := AddTracks(e, id, epoch, outgoing, env);
            r.state == e.state || (env.tracksThrow && Refuses(e, epoch, r))
  {
    if OfKind(LocalTracks(e), Video) == {} {
      var e1 := WithPlaceholder(e, env.placeholder);
      assert e1.state == e.state && e1.epoch == e.epoch;
      NegotiateState(e1, id, epoch, outgoing, env);
    } else if env.tracksThrow {
      FailingState(e, epoch);
    }
  }

  lemma ConnectState(e: Engine, id: nat, epoch: nat, outgoing: bool, env: Env)
    ensures var r := Connect(e, id, epoch, outgoing, env);
            r.state == e.state || (Refuses(e, epoch, r) && (env.pc == None || env.channelsThrow || env.tracksThrow))
  {
    if env.pc == None {
      FailingState(e, epoch);
    } else {
      var e1 := CreateConnection(e, env.pc.value);
      assert e1.state == e.state && e1.epoch == e.epoch;
      if env.channelsThrow {
        FailingState(e1, epoch);
      } else if outgoing {
        TracksState(e1, id, epoch, outgoing, env);
      }
    }
  }

  lemma AdoptState(e: Engine, id: nat, epoch: nat, outgoing: bool, audio: Option<Track>, video: Option<Track>, env: Env)
    ensures var r := Adopt(e, id, epoch, outgoing, audio, video, env);
            r.state == e.state || (Refuses(e, epoch, r) && (env.pc == None || env.channelsThrow || env.tracksThrow))
  {
    if IsActive(e, epoch) {
      var e2 := FlushCameraError(NotifyLocal(e.(local := Some(Some1(audio) + Some1(video))), audio, video), epoch);
      assert e2.state == e.state && e2.epoch == e.epoch;
      ConnectState(e2, id, epoch, outgoing, env);
    }
  }

  lemma LocalStepState(e: Engine, id: nat, epoch: nat, outgoing: bool, stage: Stage, env: Env)
    requires stage.Tracks? || stage.Create? || stage.SetLocal?
    ensures ResumeSetup(e, id, epoch, outgoing, stage, Resolved, env).state == e.state
  {
    if stage.Tracks? {
      assert e.(cameraOn := false).state == e.state;
    }
  }

  lemma GatherState(e: Engine, id: nat, epoch: nat, outgoing: bool, env: Env)
    ensures var r := ResumeSetup(e, id, epoch, outgoing, Gather, Resolved, env);
            r.state == e.state
            || (r.state == CS.Connected && e.state == CS.Connecting && e.epoch == Some(epoch) && !outgoing && env.connected)
  {
  }

  /** The setup step that resolved goes on; the last one of a callee may connect. */
  lemma ResolvedState(e: Engine, id: nat, epoch: nat, outgoing: bool, stage: Stage, env: Env)
    requires !stage.Acquire? && !stage.Retry?
    ensures var r := ResumeSetup(e, id, epoch, outgoing, stage, Resolved, env);
            || r.state == e.state
            || (Refuses(e, epoch, r) && env.tracksThrow)
            || (r.state == CS.Connected && e.state == CS.Connecting && e.epoch == Some(epoch) && stage.Gather? && !outgoing && env.connected)
  {
    if stage.SetRemote? {
      TracksState(e, id, epoch, outgoing, env);
    } else if stage.Gather? {
      GatherState(e, id, epoch, outgoing, env);
    } else {
      LocalStepState(e, id, epoch, outgoing, stage, env);
    }
  }

  /** An answer other than a throw resolves a step that asked for no stream. */
  lemma OnlyThrewMatters(e: Engine, id: nat, epoch: nat, outgoing: bool, stage: Stage, a: Answer, env: Env)
    requires !stage.Acquire? && !stage.Retry? && !a.Threw?
    ensures ResumeSetup(e, id, epoch, outgoing, stage, a, env) == ResumeSetup(e, id, epoch, outgoing, stage, Resolved, env)
  {
  }

  lemma ThrewState(e: Engine, id: nat, epoch: nat, outgoing: bool, stage: Stage, env: Env)
    ensures var r := ResumeSetup(e, id, epoch, outgoing, stage, Threw, env); r.state == e.state || Refuses(e, epoch, r)
  {
    FailingState(e, epoch);
  }

  lemma SetupState(e: Engine, id: nat, epoch: nat, outgoing: bool, stage: Stage, a: Answer, env: Env)
    requires !a.Stream? ==> a.Threw? || !(stage.Acquire? || stage.Retry?)
    ensures var r := ResumeSetup(e, id, epoch, outgoing, stage, a, env);
            || r.state == e.state
            || (Refuses(e, epoch, r) && (a.Threw? || env.pc == None || env.channelsThrow || env.tracksThrow))
            || (r.state == CS.Connected && e.state == CS.Connecting && e.epoch == Some(epoch) && stage.Gather? && !outgoing
                && env.connected && !a.Threw?)
  {
    if a.Threw? {
      ThrewState(e, id, epoch, outgoing, stage, env);
    } else if stage.Acquire? || stage.Retry? {
      AdoptState(if stage.Retry? then e.(cameraError := true) else e, id, epoch, outgoing, a.audio, a.video, env);
    } else {
      OnlyThrewMatters(e, id, epoch, outgoing, stage, a, env);
      ResolvedState(e, id, epoch, outgoing, stage, env);
    }
  }

  lemma OtherState(e: Engine, id: nat, f: Frame, a: Answer, env: Env)
    requires !f.Setup? && !f.Answering?
    ensures ResumeFrame(e, id, f, a, env).state == e.state
  {
    match f
    case MicReplace(epoch, t) => ReplacedVoice(e, epoch, t, a);
    case CamReplace(epoch, t) => ReplacedVoice(e, epoch, t, a);
    case ShareReplace(epoch, t) => ReplacedVoice(e, epoch, t, a);
    case MicAcquire(_) => AcquiredVoice(e, id, f, a, env);
    case CamAcquire(_) => AcquiredVoice(e, id, f, a, env);
    case ShareAcquire(_) => AcquiredVoice(e, id, f, a, env);
    case _ => VideoOffVoice(e, id, f, a, env);
  }

  lemma ResumeCaused(e: Engine, ev: Event)
    requires Enabled(e, ev) && ev.Resume?
    ensures var r := After(e, ev); r.state == e.state || Caused(e, ev, r.state)
  {
    var f, e0 := e.frames[ev.id], Taken(e, ev.id, ev.answer);
    assert e0.state == e.state && e0.epoch == e.epoch;
    if f.Setup? {
      SetupState(e0, ev.id, f.epoch, f.outgoing, f.stage, ev.answer, ev.env);
    } else if f.Answering? {
      FailingState(e0, f.epoch);
    } else {
      OtherState(e0, ev.id, f, ev.answer, ev.env);
    }
  }

  lemma StopSharingState(e: Engine, id: nat, thenCamera: Option<bool>)
    ensures StopSharing(e, id, thenCamera).state == e.state
  {
  }

  lemma DeviceState(e: Engine, id: nat, r: Request)
    requires r.SwitchMic? || r.SwitchCamera? || r.SetCamera? || r.StartShare? || r.StopShare?
    ensures Called(e, id, r).state == e.state
  {
    StopSharingState(e, id, if r.SetCamera? then Some(r.on) else None);
  }

  lemma CallCaused(e: Engine, ev: Event)
    requires ev.Call?
    ensures var r := Called(e, ev.id, ev.request); r.state == e.state || Caused(e, ev, r.state)
  {
    var q := ev.request;
    if q.SwitchMic? || q.SwitchCamera? || q.SetCamera? || q.StartShare? || q.StopShare? {
      DeviceState(e, ev.id, q);
    }
  }

  /** Every move of the call's state has its one reason. */
  lemma MovesHaveCauses(e: Engine, ev: Event)
    requires Enabled(e, ev)
    ensures var r := After(e, ev); r.state == e.state || Caused(e, ev, r.state)
  {
    match ev
    case Call(_, _) => CallCaused(e, ev);
    case Resume(_, _, _) => ResumeCaused(e, ev);
    case _ =>
  }

  lemma AnswerMoves(e: Engine, ev: Event)
    requires Tidy(e) && Enabled(e, ev) && ev.Resume? && ReportsConnected(e, ev) && e.state == CS.Connecting
    ensures After(e, ev).state == CS.Connected
  {
    var f, e0 := e.frames[ev.id], Taken(e, ev.id, ev.answer);
    assert IsActive(e0, f.epoch);
  }

  /** And each of these reasons moves it, the failures apart. */
  lemma CausesMove(e: Engine, ev: Event, to: CS.State)
    requires Tidy(e) && Enabled(e, ev) && Caused(e, ev, to) && (to == CS.Ended ==> Hangs(e, ev))
    ensures After(e, ev).state == to
  {
    if ev.Resume? {
      AnswerMoves(e, ev);
    }
  }

  /** The call is over, with one failure, and nothing of it is left. */
  ghost predicate FailedFrom(e: Engine, id: nat, r: Engine) {
    && r.state == CS.Ended && r.log == e.log + [StateChange(e.state, CS.Ended), Failure]
    && NothingHeld(r) && r.abort == Aborted && r.frames == e.frames - {id}
    && r.live == e.live - e.screen - LocalTracks(e) - Some1(e.placeholder)
  }

  lemma FailingMeans(e: Engine, id: nat, epoch: nat)
    requires Tidy(e) && IsActive(e, epoch)
    ensures FailedFrom(e, id, Failing(e.(frames := e.frames - {id}), epoch))
  {
    assert e.log + [StateChange(e.state, CS.Ended)] + [Failure] == e.log + [StateChange(e.state, CS.Ended), Failure];
  }

  lemma TakenThrew(e: Engine, id: nat)
    ensures Taken(e, id, Threw) == e.(frames := e.frames - {id})
  {
    assert e.live + {} == e.live && e.seen + {} == e.seen;
  }

  /** The far end's media is announced whenever it arrives for a connection of a call
      that is not over. */
  lemma RemoteIsTold(e: Engine)
    ensures After(e, RemoteTrack) == if e.pc.Some? && e.state != CS.Ended then e.(log := e.log + [RemoteStream]) else e
  {
  }

  /** A step of the setup that threw ends the call it belongs to; only a camera
      that is refused at the start is asked for again without. */
  lemma FailureEnds(e: Engine, id: nat, env: Env)
    requires Tidy(e) && Enabled(e, Resume(id, Threw, env)) && IsActive(e, e.frames[id].epoch)
    requires e.frames[id].Setup? || e.frames[id].Answering?
    ensures var f, r := e.frames[id], After(e, Resume(id, Threw, env));
            if f.Setup? && f.stage == Acquire(true) then
              r == e.(frames := (e.frames - {id})[id := Setup(f.epoch, f.outgoing, Retry)])
            else FailedFrom(e, id, r)
  {
    TakenThrew(e, id);
    var f := e.frames[id];
    if !(f.Setup? && f.stage == Acquire(true)) {
      assert Resumed(e, id, Threw, env) == Failing(e.(frames := e.frames - {id}), f.epoch);
      FailingMeans(e, id, f.epoch);
    }
  }
}
