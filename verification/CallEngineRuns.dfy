/** The engine's promises over whole runs: any calls, any answers, any order. */
module CallEngineRuns {
  import opened Wrappers
  import opened CallEngine
  import opened CallEngineSafety
  import CS = CallState

  // --- every event keeps the engine tidy ---

  lemma MicAcquireKeeps(e: Engine, id: nat, a: Answer, env: Env)
    requires Tidy(e) && Enabled(e, Resume(id, a, env)) && e.frames[id].MicAcquire?
    ensures Tidy(Resumed(e, id, a, env))
  {
    TakenFrame(e, id, a, env);
    var e0, epoch := Taken(e, id, a), e.frames[id].epoch;
    if !a.Stream? {
      LogTidy(e0, DeviceError, {});
    } else if a.audio == None {
      assert StreamTracks(a) == {};
      ReplacingKeeps(e0, id, epoch, None, {}, false, e.frames[id], DeviceError);
    } else {
      assert StreamTracks(a) == {a.audio.value};
      ReplacingKeeps(e0, id, epoch, a.audio, {a.audio.value}, env.senderFound, MicReplace(epoch, a.audio.value), DeviceError);
    }
  }

  lemma VideoAcquireKeeps(e: Engine, id: nat, a: Answer, env: Env)
    requires Tidy(e) && Enabled(e, Resume(id, a, env)) && (e.frames[id].CamAcquire? || e.frames[id].ShareAcquire?)
    ensures Tidy(Resumed(e, id, a, env))
  {
    TakenFrame(e, id, a, env);
    var e0, f, epoch := Taken(e, id, a), e.frames[id], e.frames[id].epoch;
    var report := if f.CamAcquire? then DeviceError else ShareError;
    if !a.Stream? {
      LogTidy(e0, report, {});
    } else if a.video == None {
      assert StreamTracks(a) == {};
      ReplacingKeeps(e0, id, epoch, None, {}, false, f, report);
    } else {
      var t := a.video.value;
      assert StreamTracks(a) == {t};
      ReplacingKeeps(e0, id, epoch, a.video, {t}, true, if f.CamAcquire? then CamReplace(epoch, t) else ShareReplace(epoch, t), report);
    }
  }

  lemma HolderKeeps(e: Engine, id: nat, a: Answer, env: Env)
    requires Tidy(e) && Enabled(e, Resume(id, a, env))
    requires e.frames[id].MicReplace? || e.frames[id].CamReplace? || e.frames[id].ShareReplace?
    ensures Tidy(Resumed(e, id, a, env))
  {
    TakenFrame(e, id, a, env);
    assert StreamTracks(a) == {};
    var e0, f := Taken(e, id, a), e.frames[id];
    match f
    case MicReplace(epoch, t) => MicReplaceKeeps(e0, id, epoch, t, a);
    case CamReplace(epoch, t) => CamReplaceKeeps(e0, id, epoch, t, a);
    case ShareReplace(epoch, t) => ShareReplaceKeeps(e0, id, epoch, t, a);
  }

  lemma AnsweringKeeps(e: Engine, id: nat, epoch: nat, a: Answer, env: Env)
    requires Core(e, {}) && Running(e, id)
    ensures Tidy(if a.Threw? then Failing(e, epoch) else Promote(e, epoch, env.connected))
  {
    if a.Threw? {
      FailingKeeps(e, epoch);
    } else if env.connected {
      PromoteKeeps(e, CS.Connected);
    }
  }

  lemma OtherResumeKeeps(e: Engine, id: nat, a: Answer, env: Env)
    requires Tidy(e) && Enabled(e, Resume(id, a, env))
    requires var f := e.frames[id]; f.Answering? || f.CamOff? || f.CamContinue? || f.ShareStop?
    ensures Tidy(Resumed(e, id, a, env))
  {
    TakenFrame(e, id, a, env);
    assert StreamTracks(a) == {};
    var e0, f := Taken(e, id, a), e.frames[id];
    match f
    case Answering(epoch) => AnsweringKeeps(e0, id, epoch, a, env);
    case CamOff(epoch) => CamOffKeeps(e0, id, epoch, a);
    case CamContinue(epoch, on) =>
      if IsActive(e0, epoch) {
        SuspendTidy(e0, {}, id, if on then CamAcquire(epoch) else CamOff(epoch));
      }
    case ShareStop(epoch, thenCamera) => ShareStopKeeps(e0, id, epoch, thenCamera, a);
    case _ =>
  }

  lemma ResumeKeeps(e: Engine, id: nat, a: Answer, env: Env)
    requires Tidy(e) && Enabled(e, Resume(id, a, env))
    ensures Tidy(Resumed(e, id, a, env))
  {
    match e.frames[id]
    case Setup(_, _, _) => SetupResumeKeeps(e, id, a, env);
    case MicAcquire(_) => MicAcquireKeeps(e, id, a, env);
    case CamAcquire(_) => VideoAcquireKeeps(e, id, a, env);
    case ShareAcquire(_) => VideoAcquireKeeps(e, id, a, env);
    case MicReplace(_, _) => HolderKeeps(e, id, a, env);
    case CamReplace(_, _) => HolderKeeps(e, id, a, env);
    case ShareReplace(_, _) => HolderKeeps(e, id, a, env);
    case _ => OtherResumeKeeps(e, id, a, env);
  }

  lemma StopSharingKeeps(e: Engine, id: nat, thenCamera: Option<bool>)
    requires Tidy(e) && id !in e.frames
    ensures Tidy(StopSharing(e, id, thenCamera))
  {
    if e.sharing {
      var e1 := Log(Stop(e, e.screen).(screen := {}, sharing := false), ShareChanged(false));
      if !(e.epoch == None || e.state == CS.Ended || !e.sender) {
        SuspendTidy(e1, {}, id, ShareStop(e.epoch.value, thenCamera));
      }
    }
  }

  lemma BegunKeeps(e: Engine, b: Engine, to: CS.State)
    requires Tidy(e) && e.state == CS.Idle && to == CS.Ringing
    requires b.direction.Some? && b == BeginEpoch(e.(direction := b.direction, wantsVideo := b.wantsVideo))
    ensures var r := Transition(b, to);
            Core(r, {}) && NothingHeld(r) && r.frames == map[] && r.epoch == Some(r.epochs - 1) && FramesOk(r)
  {
    var r := Transition(b, to);
    assert r.state == CS.Ringing && r.live == e.live;
  }

  lemma FirstSuspends(e: Engine, id: nat, outgoing: bool, video: bool)
    requires Core(e, {}) && NothingHeld(e) && e.frames == map[] && !Unstarted(e) && e.epoch.Some?
    ensures Tidy(Suspend(e, id, Setup(e.epoch.value, outgoing, Acquire(video))))
  {
    SuspendKeeps(e, {}, id, Setup(e.epoch.value, outgoing, Acquire(video)));
  }

  lemma PlaceKeeps(e: Engine, id: nat)
    requires Tidy(e) && id !in e.frames
    ensures Tidy(Called(e, id, Place)) && Tidy(Called(e, id, Receive))
  {
    if e.state == CS.Idle {
      var b := BeginEpoch(e.(direction := Some(Outgoing)));
      BegunKeeps(e, b, CS.Ringing);
      FirstSuspends(Transition(b, CS.Ringing), id, true, e.wantsVideo);
      BegunKeeps(e, BeginEpoch(e.(direction := Some(Incoming), wantsVideo := false)), CS.Ringing);
    }
  }

  lemma AnswerKeeps(e: Engine, id: nat)
    requires Tidy(e) && id !in e.frames
    ensures Tidy(Called(e, id, ProvideAnswer))
  {
    if e.epoch.Some? && e.state == CS.Ringing && e.direction == Some(Outgoing) && e.pc.Some? {
      PromoteKeeps(e, CS.Connecting);
      var e1 := Transition(e, CS.Connecting);
      SuspendTidy(e1, {}, id, Answering(e.epoch.value));
    }
  }

  lemma SwitchKeeps(e: Engine, id: nat, r: Request)
    requires Tidy(e) && id !in e.frames
    requires r.SwitchMic? || r.SwitchCamera? || r.SetCamera? || r.StartShare?
    ensures Tidy(Called(e, id, r))
  {
    LogTidy(e, DeviceError, {});
    LogTidy(e, ShareError, {});
    if e.epoch.Some? && e.state != CS.Ended && (if r.SwitchMic? then e.pc.Some? else e.sender) {
      var epoch := e.epoch.value;
      match r
      case SwitchMic => SuspendTidy(e, {}, id, MicAcquire(epoch));
      case SwitchCamera => SuspendTidy(e, {}, id, CamAcquire(epoch));
      case SetCamera(on) =>
        StopSharingKeeps(e, id, Some(on));
        SuspendTidy(e, {}, id, if on then CamAcquire(epoch) else CamOff(epoch));
      case StartShare(_) => SuspendTidy(e, {}, id, ShareAcquire(epoch));
      case _ =>
    }
  }

  /** The inductive step: no event of any kind leaks a track. */
  lemma StepKeepsTidy(e: Engine, ev: Event)
    requires Tidy(e) && Enabled(e, ev)
    ensures Tidy(After(e, ev))
  {
    match ev
    case Call(id, r) =>
      match r {
        case Place => PlaceKeeps(e, id);
        case Receive => PlaceKeeps(e, id);
        case Accept(_) =>
        case ProvideAnswer => AnswerKeeps(e, id);
        case StopShare => StopSharingKeeps(e, id, None);
        case _ => SwitchKeeps(e, id, r);
      }
    case Resume(id, a, env) => ResumeKeeps(e, id, a, env);
    case End => EndingKeeps(e, {});
    case RemoteTrack => LogTidy(e, RemoteStream, {});
    case ConnectionState(connected, gone) =>
      EndingKeeps(e, {});
      if e.pc.Some? {
        PromoteKeeps(e, CS.Connected);
      }
  }

  // --- after the end ---

  /** How many more times a frame of an ended engine can be resumed. */
  predicate Continues(f: Frame) {
    match f
    case Setup(_, _, Acquire(video)) => video
    case ShareStop(_, thenCamera) => thenCamera.Some?
    case _ => false
  }

  function Continuing(frames: map<nat, Frame>): set<nat> {
    set id | id in frames && Continues(frames[id])
  }

  function Pending(e: Engine): nat {
    |e.frames.Keys| + |Continuing(e.frames)|
  }

  /** The frame is gone, or continues one last time. */
  ghost predicate Resolves(frames: map<nat, Frame>, id: nat, f: Frame, after: map<nat, Frame>) {
    || after == frames
    || (Continues(f) && id in after && !Continues(after[id]) && after == frames[id := after[id]])
  }

  lemma EndedReplaced(e: Engine, id: nat, epoch: nat, t: Track, a: Answer, thenCamera: Option<bool>)
    requires e.state == CS.Ended
    ensures var r := ResumeMicReplace(e, epoch, t, a); r.state == CS.Ended && r.frames == e.frames
    ensures var r := ResumeCamReplace(e, epoch, t, a); r.state == CS.Ended && r.frames == e.frames
    ensures var r := ResumeShareReplace(e, epoch, t, a); r.state == CS.Ended && r.frames == e.frames
    ensures var r := ResumeShareStop(e, id, epoch, thenCamera, a);
            && r.state == CS.Ended
            && r.frames == if thenCamera.Some? then e.frames[id := CamContinue(epoch, thenCamera.value)] else e.frames
  {
  }

  ghost predicate EndsWell(e: Engine, id: nat, f: Frame, r: Engine) {
    r.state == CS.Ended && Resolves(e.frames, id, f, r.frames)
  }

  lemma EndedAcquire(e: Engine, id: nat, f: Frame, a: Answer, env: Env)
    requires e.state == CS.Ended && e.epoch == None
    requires f.MicAcquire? || f.CamAcquire? || f.ShareAcquire?
    ensures EndsWell(e, id, f, ResumeFrame(e, id, f, a, env))
  {
    var report := if f.ShareAcquire? then ShareError else DeviceError;
    var got := if !a.Stream? then None else if f.MicAcquire? then a.audio else a.video;
    if got.Some? {
      var t := got.value;
      var g := if f.MicAcquire? then MicReplace(f.epoch, t) else if f.CamAcquire? then CamReplace(f.epoch, t) else ShareReplace(f.epoch, t);
    }
  }

  lemma EndedOther(e: Engine, id: nat, f: Frame, a: Answer, env: Env)
    requires e.state == CS.Ended && e.epoch == None
    requires f.CamOff? || f.CamContinue? || f.Answering?
    ensures EndsWell(e, id, f, ResumeFrame(e, id, f, a, env))
  {
    var r := ResumeFrame(e, id, f, a, env);
    assert r.frames == e.frames;
  }

  lemma EndedReplace(e: Engine, id: nat, f: Frame, a: Answer, env: Env)
    requires e.state == CS.Ended && e.epoch == None
    requires f.MicReplace? || f.CamReplace? || f.ShareReplace? || f.ShareStop?
    ensures EndsWell(e, id, f, ResumeFrame(e, id, f, a, env))
  {
    match f
    case MicReplace(epoch, t) => EndedReplaced(e, id, epoch, t, a, None);
    case CamReplace(epoch, t) => EndedReplaced(e, id, epoch, t, a, None);
    case ShareReplace(epoch, t) => EndedReplaced(e, id, epoch, t, a, None);
    case ShareStop(epoch, thenCamera) => EndedReplaced(e, id, epoch, Track(0, Video), a, thenCamera);
    case _ =>
  }

  lemma EndedResume(e: Engine, id: nat, f: Frame, a: Answer, env: Env)
    requires e.state == CS.Ended && e.epoch == None
    ensures EndsWell(e, id, f, ResumeFrame(e, id, f, a, env))
  {
    if f.Setup? {
      assert !IsActive(e, f.epoch);
    } else if f.MicAcquire? || f.CamAcquire? || f.ShareAcquire? {
      EndedAcquire(e, id, f, a, env);
    } else if f.CamOff? || f.CamContinue? || f.Answering? {
      EndedOther(e, id, f, a, env);
    } else {
      EndedReplace(e, id, f, a, env);
    }
  }

  lemma FewerPending(e: Engine, id: nat, r: Engine)
    requires id in e.frames && Resolves(e.frames - {id}, id, e.frames[id], r.frames)
    ensures Pending(r) < Pending(e)
  {
    var c, d := Continuing(e.frames), Continuing(r.frames);
    assert id in e.frames.Keys;
    assert d == c - {id};
    assert id in c || d == c;
    if r.frames == e.frames - {id} {
      assert r.frames.Keys == e.frames.Keys - {id};
    } else {
      assert r.frames.Keys == e.frames.Keys && id in c;
    }
  }

  /** Ended engines drain: every resumption leaves strictly less to resume, and
      nothing else adds to it. */
  lemma EndedDrains(e: Engine, ev: Event)
    requires Tidy(e) && e.state == CS.Ended && Enabled(e, ev)
    ensures After(e, ev).state == CS.Ended
    ensures if ev.Resume? then Pending(After(e, ev)) < Pending(e) else After(e, ev).frames == e.frames
  {
    if ev.Resume? {
      EndedResume(Taken(e, ev.id, ev.answer), ev.id, e.frames[ev.id], ev.answer, ev.env);
      FewerPending(e, ev.id, After(e, ev));
    }
  }

  /** An ended engine holds no connection, stream or sender; what is still live
      belongs to a suspended operation; once those resumed, nothing is live. */
  lemma EndedHoldsNothing(e: Engine)
    requires Tidy(e) && e.state == CS.Ended
    ensures e.pc == None && e.openPcs == {} && e.local == None && e.screen == {} && e.placeholder == None && !e.sender
    ensures forall t :: t in e.live ==> exists id :: id in e.frames && t in Holds(e.frames[id])
    ensures e.frames == map[] ==> e.live == {}
    ensures e.frames != map[] ==> e.abort == Aborted
  {
    forall t | t in e.live ensures exists id :: id in e.frames && t in Holds(e.frames[id]) {
      assert Owned(e, t);
    }
    if e.frames != map[] {
      var id :| id in e.frames;
    }
  }

  // --- runs ---

  ghost predicate Steps(e: Engine, ev: Event, r: Engine) {
    Enabled(e, ev) && r == After(e, ev)
  }

  ghost predicate IsRun(states: seq<Engine>, events: seq<Event>) {
    && |states| == |events| + 1 && Fresh(states[0])
    && forall i {:trigger Steps(states[i], events[i], states[i + 1])} :: 0 <= i < |events| ==> Steps(states[i], events[i], states[i + 1])
  }

  lemma {:induction false} RunIsTidy(states: seq<Engine>, events: seq<Event>, i: nat)
    requires IsRun(states, events) && i < |states|
    ensures Tidy(states[i])
  {
    if i == 0 {
    } else {
      var k := i - 1;
      RunIsTidy(states, events, k);
      assert Steps(states[k], events[k], states[k + 1]);
      StepKeepsTidy(states[k], events[k]);
    }
  }

  /** At every moment of every run each live track has an owner, the local
      stream has at most one track of each kind, and at most one connection is
      open: the engine's own. */
  lemma NoLeakedMedia(states: seq<Engine>, events: seq<Event>, i: nat)
    requires IsRun(states, events) && i < |states|
    ensures forall t :: t in states[i].live ==> Owned(states[i], t)
    ensures OnePerKind(LocalTracks(states[i]))
    ensures forall p :: p in states[i].openPcs ==> states[i].pc == Some(p)
  {
    RunIsTidy(states, events, i);
  }

  function Resumptions(events: seq<Event>): nat {
    if events == [] then 0
    else Resumptions(events[..|events| - 1]) + if events[|events| - 1].Resume? then 1 else 0
  }

  lemma EndedStepOfRun(states: seq<Engine>, events: seq<Event>, j: nat)
    requires IsRun(states, events) && j < |events| && states[j].state == CS.Ended
    ensures states[j + 1].state == CS.Ended
    ensures Pending(states[j + 1]) + (if events[j].Resume? then 1 else 0) <= Pending(states[j])
  {
    RunIsTidy(states, events, j);
    assert Steps(states[j], events[j], states[j + 1]);
    EndedDrains(states[j], events[j]);
  }

  lemma ResumptionsNext(events: seq<Event>, i: nat, j: nat)
    requires i < j <= |events|
    ensures Resumptions(events[i..j]) == Resumptions(events[i..j - 1]) + if events[j - 1].Resume? then 1 else 0
  {
    var es := events[i..j];
    assert es[..|es| - 1] == events[i..j - 1] && es[|es| - 1] == events[j - 1];
  }

  lemma {:induction false} EndedForGood(states: seq<Engine>, events: seq<Event>, i: nat, j: nat)
    requires IsRun(states, events) && i <= j < |states| && states[i].state == CS.Ended
    ensures states[j].state == CS.Ended
    ensures Pending(states[j]) + Resumptions(events[i..j]) <= Pending(states[i])
    decreases j
  {
    if i < j {
      EndedForGood(states, events, i, j - 1);
      EndedStepOfRun(states, events, j - 1);
      ResumptionsNext(events, i, j);
    }
  }

  /** Teardown wins: after `end()` the engine stays ended and holds nothing; at
      most `Pending` resumptions follow, and when no operation is suspended no
      track is live. */
  lemma TeardownWins(states: seq<Engine>, events: seq<Event>, i: nat, j: nat)
    requires IsRun(states, events) && i <= j < |states| && states[i].state == CS.Ended
    ensures states[j].state == CS.Ended && NothingHeld(states[j])
    ensures Resumptions(events[i..j]) <= Pending(states[i])
    ensures states[j].frames == map[] ==> states[j].live == {}
  {
    EndedForGood(states, events, i, j);
    RunIsTidy(states, events, j);
    EndedHoldsNothing(states[j]);
  }
}
