/** What each device and share operation of a live call leads to, from the request
    to its last await (`audio-call.ts`). */
module CallEngineDevices {
  import opened Wrappers
  import opened CallEngine
  import opened CallEngineSafety
  import opened CallEngineRuns
  import CS = CallState

  /** A live call that can exchange its outgoing tracks. */
  ghost predicate Up(e: Engine, epoch: nat) {
    Tidy(e) && IsActive(e, epoch) && e.sender && e.pc.Some?
  }

  /** The tracks of one kind are exchanged for `now` and stopped; nothing else of
      the call is touched but what is said of the camera and the share. */
  ghost predicate Exchanges(e: Engine, r: Engine, kind: Kind, now: set<Track>) {
    && r.local == Some(LocalTracks(e) - OfKind(LocalTracks(e), kind) + now)
    && r.live == e.live - OfKind(LocalTracks(e), kind) + now && r.frames == e.frames
    && r.state == e.state && r.epoch == e.epoch && r.direction == e.direction && r.pc == e.pc && r.openPcs == e.openPcs
    && r.sender == e.sender && r.placeholder == e.placeholder && r.abort == e.abort
  }

  /** The engine while the device call `id` waits with `f`; `got` was acquired. */
  function Waits(e: Engine, id: nat, f: Frame, got: set<Track>): Engine {
    e.(frames := e.frames[id := f], live := e.live + got, seen := e.seen + got)
  }

  lemma WaitsIs(e: Engine, id: nat, f: Frame)
    ensures Suspend(e, id, f) == Waits(e, id, f, {})
  {
    assert e.live + {} == e.live && e.seen + {} == e.seen;
  }

  lemma Answered(e: Engine, id: nat, f: Frame, got: set<Track>, a: Answer)
    requires StreamTracks(a) == {} && id !in e.frames
    ensures Taken(Waits(e, id, f, got), id, a) == e.(live := e.live + got, seen := e.seen + got)
  {
    assert e.frames[id := f] - {id} == e.frames;
    assert e.live + got + {} == e.live + got && e.seen + got + {} == e.seen + got;
  }

  /** The frame in which the acquired track is put in place. */
  function Replacement(f: Frame, t: Track): Frame
    requires f.MicAcquire? || f.CamAcquire? || f.ShareAcquire?
  {
    if f.MicAcquire? then MicReplace(f.epoch, t) else if f.CamAcquire? then CamReplace(f.epoch, t) else ShareReplace(f.epoch, t)
  }

  function StreamOf(f: Frame, t: Track): Answer {
    if f.MicAcquire? then Stream(Some(t), None) else Stream(None, Some(t))
  }

  lemma Delivered(e: Engine, id: nat, f: Frame, t: Track)
    requires id !in e.frames
    ensures Taken(Waits(e, id, f, {}), id, StreamOf(f, t)) == e.(live := e.live + {t}, seen := e.seen + {t})
  {
    assert e.frames[id := f] - {id} == e.frames;
    assert e.live + {} == e.live && e.seen + {} == e.seen;
    assert StreamTracks(StreamOf(f, t)) == {t};
  }

  /** A stream that arrives for a live call is held until it is in place. */
  lemma Acquired(e: Engine, id: nat, f: Frame, t: Track, env: Env, r: Engine)
    requires id !in e.frames && (f.MicAcquire? || f.CamAcquire? || f.ShareAcquire?) && IsActive(e, f.epoch)
    requires f.MicAcquire? ==> env.senderFound
    requires Steps(Waits(e, id, f, {}), Resume(id, StreamOf(f, t), env), r)
    ensures r == Waits(e, id, Replacement(f, t), {t}) && t !in e.seen
  {
    Delivered(e, id, f, t);
    assert t in StreamTracks(StreamOf(f, t));
  }

  /** Putting it in place resumes with the engine as it was and the track acquired. */
  lemma Placed(e: Engine, id: nat, f: Frame, t: Track, env: Env, r: Engine)
    requires id !in e.frames && Steps(Waits(e, id, f, {t}), Resume(id, Resolved, env), r)
    ensures r == ResumeFrame(e.(live := e.live + {t}, seen := e.seen + {t}), id, f, Resolved, env)
  {
    Answered(e, id, f, {t}, Resolved);
  }

  /** From the request's wait to the end of the replacement. */
  lemma Installed(e: Engine, e1: Engine, e2: Engine, e3: Engine, id: nat, f: Frame, t: Track, env: Env, env': Env)
    requires id !in e.frames && (f.MicAcquire? || f.CamAcquire? || f.ShareAcquire?) && IsActive(e, f.epoch)
    requires f.MicAcquire? ==> env.senderFound
    requires e1 == Suspend(e, id, f) && Steps(e1, Resume(id, StreamOf(f, t), env), e2) && Steps(e2, Resume(id, Resolved, env'), e3)
    ensures t !in e.seen
    ensures e3 == ResumeFrame(e.(live := e.live + {t}, seen := e.seen + {t}), id, Replacement(f, t), Resolved, env')
  {
    WaitsIs(e, id, f);
    Acquired(e, id, f, t, env, e2);
    Placed(e, id, Replacement(f, t), t, env', e3);
  }

  /** The local set after an exchange. */
  lemma Swapped(e: Engine, t: Track, r: Engine)
    requires e.local.Some? && LocalTracks(e) <= e.seen && t !in e.seen && e.live <= e.seen
    requires r == e.(live := e.live + {t}, seen := e.seen + {t})
    ensures var s := SwapVideo(r, t);
            && s.local == Some(LocalTracks(e) - OfKind(LocalTracks(e), Video) + {t})
            && s.live == e.live - OfKind(LocalTracks(e), Video) + {t}
            && s == r.(local := s.local, live := s.live)
  {
  }

  // --- the camera ---

  lemma CamReplaced(e: Engine, r: Engine, epoch: nat, t: Track)
    requires Up(e, epoch) && t !in e.seen && r == e.(live := e.live + {t}, seen := e.seen + {t})
    ensures var s := ResumeCamReplace(r, epoch, t, Resolved);
            && Exchanges(e, s, Video, {t}) && s.cameraOn && s.screen == e.screen && s.sharing == e.sharing
            && s.log == e.log + [LocalVideo(Some(t))]
  {
    Swapped(e, t, r);
  }

  lemma CameraWaits(e: Engine, epoch: nat, id: nat, first: bool)
    requires Up(e, epoch) && !e.sharing && e.cameraOn == !first
    ensures Called(e, id, if first then SetCamera(true) else SwitchCamera) == Suspend(e, id, CamAcquire(epoch))
  {
  }

  /** Turning the camera on, and switching to another one, end in the new camera's
      track alone being sent and shown. */
  lemma CameraOn(e: Engine, e1: Engine, e2: Engine, e3: Engine, epoch: nat, id: nat, t: Track, env: Env, env': Env, first: bool)
    requires Up(e, epoch) && !e.sharing && e.cameraOn == !first
    requires Steps(e, Call(id, if first then SetCamera(true) else SwitchCamera), e1)
    requires Steps(e1, Resume(id, Stream(None, Some(t)), env), e2)
    requires Steps(e2, Resume(id, Resolved, env'), e3)
    ensures Exchanges(e, e3, Video, {t}) && e3.cameraOn && e3.screen == e.screen && !e3.sharing
    ensures e3.log == e.log + [LocalVideo(Some(t))]
  {
    CameraWaits(e, epoch, id, first);
    Installed(e, e1, e2, e3, id, CamAcquire(epoch), t, env, env');
    var r := e.(live := e.live + {t}, seen := e.seen + {t});
    assert e3 == ResumeCamReplace(r, epoch, t, Resolved);
    CamReplaced(e, r, epoch, t);
  }

  lemma CameraOff(e: Engine, e1: Engine, e2: Engine, epoch: nat, id: nat, env: Env)
    requires Up(e, epoch) && !e.sharing && e.cameraOn
    requires Steps(e, Call(id, SetCamera(false)), e1) && Steps(e1, Resume(id, Resolved, env), e2)
    ensures Exchanges(e, e2, Video, {}) && !e2.cameraOn && e2.screen == e.screen && !e2.sharing
    ensures e2.log == e.log + [LocalVideo(None)]
  {
    WaitsIs(e, id, CamOff(epoch));
    Answered(e, id, CamOff(epoch), {}, Resolved);
    assert e.live + {} == e.live && e.seen + {} == e.seen;
    assert e2 == Log(DropVideo(e).(cameraOn := false), LocalVideo(None));
    EmptyExchange(e);
  }

  lemma EmptyExchange(e: Engine)
    ensures LocalTracks(e) - OfKind(LocalTracks(e), Video) + {} == LocalTracks(e) - OfKind(LocalTracks(e), Video)
    ensures e.live - OfKind(LocalTracks(e), Video) + {} == e.live - OfKind(LocalTracks(e), Video)
  {
  }

  // --- the microphone ---

  lemma MicReplaced(e: Engine, r: Engine, epoch: nat, t: Track)
    requires Up(e, epoch) && t !in e.seen && r == e.(live := e.live + {t}, seen := e.seen + {t})
    ensures var s := ResumeMicReplace(r, epoch, t, Resolved);
            && Exchanges(e, s, Audio, {t}) && s.cameraOn == e.cameraOn && s.screen == e.screen && s.sharing == e.sharing
            && s.log == e.log + [LocalTrack(t)]
  {
    assert LocalTracks(r) == LocalTracks(e) <= e.seen;
  }

  lemma MicSwitched(e: Engine, e1: Engine, e2: Engine, e3: Engine, epoch: nat, id: nat, t: Track, env: Env, env': Env)
    requires Up(e, epoch) && env.senderFound
    requires Steps(e, Call(id, SwitchMic), e1) && Steps(e1, Resume(id, Stream(Some(t), None), env), e2)
    requires Steps(e2, Resume(id, Resolved, env'), e3)
    ensures Exchanges(e, e3, Audio, {t}) && e3.cameraOn == e.cameraOn && e3.screen == e.screen && e3.sharing == e.sharing
    ensures e3.log == e.log + [LocalTrack(t)]
  {
    Installed(e, e1, e2, e3, id, MicAcquire(epoch), t, env, env');
    MicReplaced(e, e.(live := e.live + {t}, seen := e.seen + {t}), epoch, t);
  }

  // --- the screen ---

  lemma ShareReplaced(e: Engine, r: Engine, epoch: nat, t: Track)
    requires Up(e, epoch) && t !in e.seen && r == e.(live := e.live + {t}, seen := e.seen + {t})
    ensures var s := ResumeShareReplace(r, epoch, t, Resolved);
            && Exchanges(e, s, Video, {t}) && !s.cameraOn && s.screen == {t} && s.sharing
            && s.log == e.log + [ShareChanged(true), LocalVideo(Some(t))]
  {
    Swapped(e, t, r);
    assert e.log + [ShareChanged(true)] + [LocalVideo(Some(t))] == e.log + [ShareChanged(true), LocalVideo(Some(t))];
  }

  lemma ShareWaits(e: Engine, epoch: nat, id: nat)
    requires Up(e, epoch) && !e.sharing
    ensures Called(e, id, StartShare(true)) == Suspend(e, id, ShareAcquire(epoch))
  {
  }

  /** Sharing puts the screen in the camera's place. */
  lemma ShareStarted(e: Engine, e1: Engine, e2: Engine, e3: Engine, epoch: nat, id: nat, t: Track, env: Env, env': Env)
    requires Up(e, epoch) && !e.sharing
    requires Steps(e, Call(id, StartShare(true)), e1) && Steps(e1, Resume(id, Stream(None, Some(t)), env), e2)
    requires Steps(e2, Resume(id, Resolved, env'), e3)
    ensures Exchanges(e, e3, Video, {t}) && !e3.cameraOn && e3.screen == {t} && e3.sharing
    ensures e3.log == e.log + [ShareChanged(true), LocalVideo(Some(t))]
  {
    ShareWaits(e, epoch, id);
    Installed(e, e1, e2, e3, id, ShareAcquire(epoch), t, env, env');
    var r := e.(live := e.live + {t}, seen := e.seen + {t});
    assert e3 == ResumeShareReplace(r, epoch, t, Resolved);
    ShareReplaced(e, r, epoch, t);
  }

  /** The capture has stopped at once, whatever becomes of the sender. */
  function CaptureOff(e: Engine): Engine {
    e.(live := e.live - e.screen, screen := {}, sharing := false, log := e.log + [ShareChanged(false)])
  }

  /** `e` without its screen share and without video. */
  ghost predicate Unshared(e: Engine, r: Engine) {
    && r.local == Some(LocalTracks(e) - OfKind(LocalTracks(e), Video))
    && r.live == e.live - e.screen - OfKind(LocalTracks(e), Video)
    && !r.sharing && r.screen == {} && r.cameraOn == e.cameraOn
    && r.state == e.state && r.epoch == e.epoch && r.direction == e.direction && r.pc == e.pc && r.sender == e.sender
    && r.log == e.log + [ShareChanged(false), LocalVideo(None)]
  }

  lemma VideoDropped(e: Engine)
    requires e.local.Some?
    ensures var c := CaptureOff(e);
            LocalTracks(c) == LocalTracks(e) && Unshared(e, Log(DropVideo(c), LocalVideo(None)))
            && Log(DropVideo(c), LocalVideo(None)).frames == e.frames && Log(DropVideo(c), LocalVideo(None)).seen == e.seen
  {
    assert e.log + [ShareChanged(false)] + [LocalVideo(None)] == e.log + [ShareChanged(false), LocalVideo(None)];
  }

  lemma ShareOff(e: Engine, epoch: nat, id: nat, thenCamera: Option<bool>)
    requires Up(e, epoch) && e.sharing && id !in e.frames
    ensures StopSharing(e, id, thenCamera) == Waits(CaptureOff(e), id, ShareStop(epoch, thenCamera), {})
  {
    WaitsIs(CaptureOff(e), id, ShareStop(epoch, thenCamera));
  }

  /** A share stopped by the user or by the platform. */
  lemma ShareStopped(e: Engine, e1: Engine, e2: Engine, epoch: nat, id: nat, env: Env)
    requires Up(e, epoch) && e.sharing
    requires Steps(e, Call(id, StopShare), e1) && Steps(e1, Resume(id, Resolved, env), e2)
    ensures !e1.sharing && e1.live == e.live - e.screen && e1.log == e.log + [ShareChanged(false)]
    ensures Unshared(e, e2) && e2.frames == e.frames
  {
    ShareOff(e, epoch, id, None);
    var c := CaptureOff(e);
    assert c.live + {} == c.live && c.seen + {} == c.seen;
    Answered(c, id, ShareStop(epoch, None), {}, Resolved);
    assert e2 == Log(DropVideo(c), LocalVideo(None));
    VideoDropped(e);
  }

  /** Turning the camera on during a share ends the share first. */
  lemma CameraEndsShare(e: Engine, e1: Engine, e2: Engine, e3: Engine, epoch: nat, id: nat, env: Env, a: Answer, env': Env)
    requires Up(e, epoch) && e.sharing && !e.cameraOn && StreamTracks(a) == {}
    requires Steps(e, Call(id, SetCamera(true)), e1) && Steps(e1, Resume(id, Resolved, env), e2) && Steps(e2, Resume(id, a, env'), e3)
    ensures Unshared(e, e3) && e3.frames == e.frames[id := CamAcquire(epoch)]
  {
    ShareOff(e, epoch, id, Some(true));
    var c := CaptureOff(e);
    assert c.live + {} == c.live && c.seen + {} == c.seen;
    Answered(c, id, ShareStop(epoch, Some(true)), {}, Resolved);
    VideoDropped(e);
    var d := Log(DropVideo(c), LocalVideo(None));
    WaitsIs(d, id, CamContinue(epoch, true));
    assert e2 == Waits(d, id, CamContinue(epoch, true), {});
    Answered(d, id, CamContinue(epoch, true), {}, a);
    assert d.live + {} == d.live && d.seen + {} == d.seen;
    assert e3 == Suspend(d, id, CamAcquire(epoch));
  }

  // --- what fails and what is ignored ---

  function ReportOf(f: Frame): Callback {
    if f.ShareAcquire? || f.ShareReplace? || f.ShareStop? then ShareError else DeviceError
  }

  lemma ReplaceFails(e: Engine, id: nat, f: Frame, env: Env)
    requires f.MicReplace? || f.CamReplace? || f.ShareReplace?
    ensures ResumeFrame(e, id, f, Threw, env) == e.(live := e.live - Holds(f), log := e.log + [ReportOf(f)])
  {
  }

  lemma RequestFails(e: Engine, id: nat, f: Frame, env: Env)
    requires f.MicAcquire? || f.CamAcquire? || f.CamOff? || f.ShareAcquire? || (f.ShareStop? && f.thenCamera == None)
    ensures ResumeFrame(e, id, f, Threw, env) == e.(log := e.log + [ReportOf(f)])
  {
  }

  /** A device operation that throws stops what it acquired, is reported once, and
      changes nothing else of the call. */
  lemma DeviceFails(e: Engine, id: nat, env: Env)
    requires Tidy(e) && Enabled(e, Resume(id, Threw, env))
    requires var f := e.frames[id]; !f.Setup? && !f.Answering? && !f.CamContinue? && (f.ShareStop? ==> f.thenCamera == None)
    ensures var f := e.frames[id];
            After(e, Resume(id, Threw, env)) ==
              e.(frames := e.frames - {id}, live := e.live - Holds(f), log := e.log + [ReportOf(f)])
  {
    var f, e0 := e.frames[id], e.(frames := e.frames - {id});
    assert e.live + {} == e.live && e.seen + {} == e.seen && e.live - {} == e.live;
    if f.MicReplace? || f.CamReplace? || f.ShareReplace? {
      ReplaceFails(e0, id, f, env);
    } else {
      RequestFails(e0, id, f, env);
    }
  }

  lemma LateSetup(e: Engine, id: nat, f: Frame, a: Answer, env: Env)
    requires f.Setup? && (f.stage.Acquire? || f.stage.Retry?) && a.Stream? && !IsActive(e, f.epoch)
    ensures ResumeFrame(e, id, f, a, env) == Stop(e, StreamTracks(a)).(cameraError := f.stage.Retry? || e.cameraError)
  {
  }

  /** What was acquired for a call that is over is stopped, and nobody is told. */
  lemma LateStreamIsStopped(e: Engine, id: nat, a: Answer, env: Env)
    requires Tidy(e) && Enabled(e, Resume(id, a, env)) && a.Stream? && !IsActive(e, e.frames[id].epoch)
    requires StreamTracks(a) != {}
    ensures var r := After(e, Resume(id, a, env));
            r.live == e.live && r.log == e.log && r.frames == e.frames - {id} && r.local == e.local && r.state == e.state
  {
    var f, e0 := e.frames[id], Taken(e, id, a);
    assert e0.live - StreamTracks(a) == e.live;
    if f.Setup? {
      LateSetup(e0, id, f, a, env);
    } else {
      OneKind(e, id, a, env);
      assert After(e, Resume(id, a, env)) == Stop(e0, StreamTracks(a));
    }
  }

  lemma OneKind(e: Engine, id: nat, a: Answer, env: Env)
    requires Enabled(e, Resume(id, a, env)) && a.Stream? && StreamTracks(a) != {}
    ensures var f := e.frames[id];
            && (f.MicAcquire? ==> a.audio.Some? && StreamTracks(a) == {a.audio.value})
            && (f.CamAcquire? || f.ShareAcquire? ==> a.video.Some? && StreamTracks(a) == {a.video.value})
  {
  }

  /** Requests that there is nothing to do about. */
  predicate Pointless(e: Engine, r: Request) {
    match r
    case SwitchCamera => e.sharing || !e.cameraOn
    case SetCamera(on) => e.sender && on == e.cameraOn
    case StartShare(_) => e.sharing
    case StopShare => !e.sharing
    case _ => false
  }

  predicate Impossible(e: Engine, r: Request) {
    match r
    case SwitchMic => e.pc == None
    case SwitchCamera => !e.sender
    case SetCamera(_) => !e.sender
    case StartShare(available) => !e.sender || !available
    case _ => false
  }

  predicate DeviceRequest(r: Request) {
    r.SwitchMic? || r.SwitchCamera? || r.SetCamera? || r.StartShare? || r.StopShare?
  }

  /** What a request that can be met waits for first. */
  function Awaited(e: Engine, r: Request, epoch: nat): Frame
    requires DeviceRequest(r)
  {
    match r
    case SwitchMic => MicAcquire(epoch)
    case SwitchCamera => CamAcquire(epoch)
    case SetCamera(on) => if e.sharing then ShareStop(epoch, Some(on)) else if on then CamAcquire(epoch) else CamOff(epoch)
    case StartShare(_) => ShareAcquire(epoch)
    case StopShare => ShareStop(epoch, None)
  }

  lemma NotMet(e: Engine, id: nat, r: Request)
    requires Tidy(e) && DeviceRequest(r) && (e.epoch == None || Pointless(e, r) || Impossible(e, r))
    ensures Called(e, id, r) ==
              if e.epoch == None || Pointless(e, r) then e
              else e.(log := e.log + [if r.StartShare? then ShareError else DeviceError])
  {
  }

  lemma Met(e: Engine, id: nat, r: Request)
    requires Tidy(e) && DeviceRequest(r) && e.epoch.Some? && !Pointless(e, r) && !Impossible(e, r) && (r.StopShare? ==> e.sender)
    ensures Called(e, id, r).frames == e.frames[id := Awaited(e, r, e.epoch.value)]
  {
  }

  /** A device request is ignored when it is pointless or the call is not live, is
      reported when the call cannot do it yet, and otherwise waits for the platform. */
  lemma RequestsExactly(e: Engine, id: nat, r: Request)
    requires Tidy(e) && Enabled(e, Call(id, r)) && DeviceRequest(r) && (r.StopShare? ==> e.sender)
    ensures var s := After(e, Call(id, r));
            if e.epoch == None || Pointless(e, r) then s == e
            else if Impossible(e, r) then s == e.(log := e.log + [if r.StartShare? then ShareError else DeviceError])
            else s.frames == e.frames[id := Awaited(e, r, e.epoch.value)]
  {
    if e.epoch == None || Pointless(e, r) || Impossible(e, r) {
      NotMet(e, id, r);
    } else {
      Met(e, id, r);
    }
  }

  /** Without a sender a share that stops leaves nothing to wait for. */
  lemma StoppedAtOnce(e: Engine, id: nat)
    requires Tidy(e) && Enabled(e, Call(id, StopShare)) && !e.sender
    ensures After(e, Call(id, StopShare)) == if e.sharing then CaptureOff(e) else e
  {
  }
}
