/** One setup per call, one offer or answer per setup, and no camera without consent. */
module CallEngineSetup {
  import opened Wrappers
  import opened CallEngine
  import opened CallEngineSafety
  import opened CallEngineRuns
  import opened CallEngineLog
  import CS = CallState

  /** The suspended setups. */
  function Setups(e: Engine): map<nat, Frame> {
    map id | id in e.frames && e.frames[id].Setup? :: e.frames[id]
  }

  predicate IsDescription(c: Callback) {
    c.LocalOffer? || c.LocalAnswer?
  }

  /** Offers and answers among the first `n` callbacks. */
  function DescriptionsTo(log: seq<Callback>, n: nat): seq<Callback>
    requires n <= |log|
  {
    if n == 0 then [] else DescriptionsTo(log, n - 1) + if IsDescription(log[n - 1]) then [log[n - 1]] else []
  }

  /** Offers and answers surfaced so far. */
  function Descriptions(log: seq<Callback>): seq<Callback> {
    DescriptionsTo(log, |log|)
  }

  lemma {:induction false} LongerLog(log: seq<Callback>, c: Callback, n: nat)
    requires n <= |log|
    ensures DescriptionsTo(log + [c], n) == DescriptionsTo(log, n)
  {
    if n > 0 {
      LongerLog(log, c, n - 1);
    }
  }

  /** Nothing about setups changed. */
  ghost predicate Same(e: Engine, r: Engine) {
    && Setups(r) == Setups(e) && Descriptions(r.log) == Descriptions(e.log)
    && r.wantsVideo == e.wantsVideo && r.direction == e.direction
  }

  /** The setup that was running is suspended again, past its acquisition. */
  ghost predicate Goes(e: Engine, id: nat, epoch: nat, outgoing: bool, r: Engine) {
    && r.wantsVideo == e.wantsVideo && r.direction == e.direction && Descriptions(r.log) == Descriptions(e.log)
    && exists stage: Stage :: !stage.Acquire? && Setups(r) == Setups(e)[id := Setup(epoch, outgoing, stage)]
  }

  lemma Quiet(log: seq<Callback>, c: Callback)
    ensures Descriptions(log + [c]) == Descriptions(log) + if IsDescription(c) then [c] else []
  {
    LongerLog(log, c, |log|);
  }

  lemma SuspendSame(e: Engine, id: nat, f: Frame)
    requires id !in e.frames
    ensures if f.Setup? then Setups(Suspend(e, id, f)) == Setups(e)[id := f] else Same(e, Suspend(e, id, f))
  {
  }

  lemma LogSame(e: Engine, c: Callback)
    requires !IsDescription(c)
    ensures Same(e, Log(e, c))
  {
    Quiet(e.log, c);
  }

  lemma EndingSame(e: Engine)
    ensures Same(e, Ending(e))
  {
    Quiet(e.log, StateChange(e.state, CS.Ended));
    assert Ending(e).frames == e.frames;
  }

  lemma FailingSame(e: Engine, epoch: nat)
    ensures Same(e, Failing(e, epoch))
  {
    EndingSame(e);
    LogSame(Ending(e), Failure);
  }

  lemma PromoteSame(e: Engine, epoch: nat, connected: bool)
    ensures Same(e, Promote(e, epoch, connected))
  {
    Quiet(e.log, StateChange(e.state, CS.Connected));
  }

  lemma NegotiateGoes(e: Engine, id: nat, epoch: nat, outgoing: bool, env: Env)
    requires id !in e.frames
    ensures var r := NegotiateVideo(e, id, epoch, outgoing, env); Same(e, r) || Goes(e, id, epoch, outgoing, r)
  {
    if env.tracksThrow {
      FailingSame(e, epoch);
    } else {
      var e2 := if env.awaits then e.(sender := outgoing || env.senderFound)
                else e.(sender := outgoing || env.senderFound, cameraOn := false);
      SuspendSame(e2, id, Setup(epoch, outgoing, Tracks(env.awaits)));
    }
  }

  lemma TracksGo(e: Engine, id: nat, epoch: nat, outgoing: bool, env: Env)
    requires id !in e.frames
    ensures var r := AddTracks(e, id, epoch, outgoing, env); Same(e, r) || Goes(e, id, epoch, outgoing, r)
  {
    if OfKind(LocalTracks(e), Video) == {} {
      NegotiateGoes(WithPlaceholder(e, env.placeholder), id, epoch, outgoing, env);
    } else if env.tracksThrow {
      FailingSame(e, epoch);
    } else {
      var e2 := e.(sender := env.senderFound, cameraOn := env.senderFound);
      SuspendSame(e2, id, Setup(epoch, outgoing, Tracks(false)));
    }
  }

  lemma ConnectGoes(e: Engine, id: nat, epoch: nat, outgoing: bool, env: Env)
    requires id !in e.frames
    ensures var r := Connect(e, id, epoch, outgoing, env); Same(e, r) || Goes(e, id, epoch, outgoing, r)
  {
    if env.pc == None {
      FailingSame(e, epoch);
    } else {
      var e1 := CreateConnection(e, env.pc.value);
      if env.channelsThrow {
        FailingSame(e1, epoch);
      } else if outgoing {
        TracksGo(e1, id, epoch, outgoing, env);
      } else {
        SuspendSame(e1, id, Setup(epoch, outgoing, SetRemote));
      }
    }
  }

  lemma {:induction false} QuietAll(log: seq<Callback>, more: seq<Callback>)
    requires forall i :: 0 <= i < |more| ==> !IsDescription(more[i])
    ensures Descriptions(log + more) == Descriptions(log)
  {
    if more == [] {
      assert log + more == log;
    } else {
      var front, c := more[..|more| - 1], more[|more| - 1];
      QuietAll(log, front);
      Quiet(log + front, c);
      assert log + more == (log + front) + [c];
    }
  }

  /** What the arrival of the first stream says. */
  function Said(e: Engine, epoch: nat, audio: Option<Track>, video: Option<Track>): seq<Callback> {
    (if audio.Some? then [LocalTrack(audio.value)] else []) + (if video.Some? then [LocalVideo(video)] else [])
    + if e.cameraError && IsActive(e, epoch) then [DeviceError] else []
  }

  lemma NotifyLogs(e: Engine, epoch: nat, audio: Option<Track>, video: Option<Track>)
    ensures FlushCameraError(NotifyLocal(e, audio, video), epoch).log == e.log + Said(e, epoch, audio, video)
  {
  }

  lemma NotifySame(e: Engine, epoch: nat, audio: Option<Track>, video: Option<Track>)
    ensures Same(e, FlushCameraError(NotifyLocal(e, audio, video), epoch))
  {
    NotifyLogs(e, epoch, audio, video);
    NotifyIsQuiet(e, epoch, audio, video);
    QuietAll(e.log, Said(e, epoch, audio, video));
  }

  lemma AdoptGoes(e: Engine, id: nat, epoch: nat, outgoing: bool, audio: Option<Track>, video: Option<Track>, env: Env)
    requires id !in e.frames
    ensures var r := Adopt(e, id, epoch, outgoing, audio, video, env); Same(e, r) || Goes(e, id, epoch, outgoing, r)
  {
    if IsActive(e, epoch) {
      var e1 := e.(local := Some(Some1(audio) + Some1(video)));
      NotifySame(e1, epoch, audio, video);
      NotifyIsQuiet(e1, epoch, audio, video);
      ConnectGoes(FlushCameraError(NotifyLocal(e1, audio, video), epoch), id, epoch, outgoing, env);
    }
  }

  /** The one description a call of this direction has. */
  function DescriptionOf(d: Direction): Callback {
    match d case Outgoing => LocalOffer case Incoming => LocalAnswer
  }

  function DirectionOf(outgoing: bool): Direction {
    if outgoing then Outgoing else Incoming
  }

  /** The setup surfaces its description and is over. */
  ghost predicate Surfaces(e: Engine, outgoing: bool, r: Engine) {
    && Setups(r) == Setups(e) && Descriptions(r.log) == Descriptions(e.log) + [DescriptionOf(DirectionOf(outgoing))]
    && r.wantsVideo == e.wantsVideo && r.direction == e.direction
  }

  lemma GatheredSurfaces(e: Engine, epoch: nat, connected: bool)
    ensures Surfaces(e, true, Log(e, LocalOffer)) && Surfaces(e, false, Promote(Log(e, LocalAnswer), epoch, connected))
  {
    Quiet(e.log, LocalOffer);
    Quiet(e.log, LocalAnswer);
    PromoteSame(Log(e, LocalAnswer), epoch, connected);
  }

  lemma AcquireGoes(e: Engine, id: nat, epoch: nat, outgoing: bool, stage: Stage, a: Answer, env: Env)
    requires id !in e.frames && (stage.Acquire? || stage.Retry?)
    ensures var r := ResumeSetup(e, id, epoch, outgoing, stage, a, env); Same(e, r) || Goes(e, id, epoch, outgoing, r)
  {
    if a.Stream? {
      AdoptGoes(if stage.Retry? then e.(cameraError := true) else e, id, epoch, outgoing, a.audio, a.video, env);
    } else {
      FailingSame(e, epoch);
      SuspendSame(e, id, Setup(epoch, outgoing, Retry));
    }
  }

  lemma SuspendGoes(e: Engine, id: nat, epoch: nat, outgoing: bool, to: Stage)
    requires id !in e.frames && !to.Acquire?
    ensures Goes(e, id, epoch, outgoing, Suspend(e, id, Setup(epoch, outgoing, to)))
  {
    SuspendSame(e, id, Setup(epoch, outgoing, to));
  }

  lemma TracksAddedGoes(e: Engine, id: nat, epoch: nat, outgoing: bool, placeholder: bool)
    requires id !in e.frames
    ensures var e1 := if placeholder then e.(cameraOn := false) else e;
            Same(e, e1) && Goes(e, id, epoch, outgoing, Suspend(e1, id, Setup(epoch, outgoing, Create)))
  {
    var e1 := if placeholder then e.(cameraOn := false) else e;
    SuspendGoes(e1, id, epoch, outgoing, Create);
  }

  lemma ContinueGoes(e: Engine, id: nat, epoch: nat, outgoing: bool, stage: Stage, a: Answer, env: Env)
    requires id !in e.frames && (stage.Tracks? || stage.Create? || stage.SetLocal?)
    ensures var r := ResumeSetup(e, id, epoch, outgoing, stage, a, env); Same(e, r) || Goes(e, id, epoch, outgoing, r)
  {
    if a.Threw? {
      FailingSame(e, epoch);
    } else if stage.Tracks? {
      TracksAddedGoes(e, id, epoch, outgoing, stage.placeholder);
    } else {
      SuspendGoes(e, id, epoch, outgoing, if stage.Create? then SetLocal else Gather);
    }
  }

  lemma SetupGoes(e: Engine, id: nat, epoch: nat, outgoing: bool, stage: Stage, a: Answer, env: Env)
    requires id !in e.frames
    ensures var r := ResumeSetup(e, id, epoch, outgoing, stage, a, env);
            Same(e, r) || Goes(e, id, epoch, outgoing, r) || Surfaces(e, outgoing, r)
  {
    if stage.Acquire? || stage.Retry? {
      AcquireGoes(e, id, epoch, outgoing, stage, a, env);
    } else if stage.Tracks? || stage.Create? || stage.SetLocal? {
      ContinueGoes(e, id, epoch, outgoing, stage, a, env);
    } else if a.Threw? {
      FailingSame(e, epoch);
    } else if stage.SetRemote? {
      TracksGo(e, id, epoch, outgoing, env);
    } else {
      GatheredSurfaces(e, epoch, env.connected);
    }
  }

  lemma ReplacingSame(e: Engine, id: nat, epoch: nat, got: Option<Track>, ts: set<Track>, ready: bool, f: Frame, report: Callback)
    requires id !in e.frames && !f.Setup? && !IsDescription(report)
    ensures Same(e, Replacing(e, id, epoch, got, ts, ready, f, report))
  {
    LogSame(Stop(e, ts), report);
    SuspendSame(e, id, f);
  }

  lemma AcquiredSame(e: Engine, id: nat, f: Frame, a: Answer, env: Env)
    requires id !in e.frames && (f.MicAcquire? || f.CamAcquire? || f.ShareAcquire?)
    ensures Same(e, ResumeFrame(e, id, f, a, env))
  {
    var report := if f.ShareAcquire? then ShareError else DeviceError;
    var got := if !a.Stream? then None else if f.MicAcquire? then a.audio else a.video;
    LogSame(e, report);
    ReplacingSame(e, id, f.epoch, None, {}, false, f, report);
    if got.Some? {
      var t := got.value;
      var g := if f.MicAcquire? then MicReplace(f.epoch, t) else if f.CamAcquire? then CamReplace(f.epoch, t) else ShareReplace(f.epoch, t);
      ReplacingSame(e, id, f.epoch, got, {t}, f.MicAcquire? ==> env.senderFound, g, report);
    }
  }

  /** Frames, direction and wish are as before. */
  ghost predicate Plain(e: Engine, r: Engine) {
    r.frames == e.frames && r.wantsVideo == e.wantsVideo && r.direction == e.direction
  }

  lemma MicReplacedPlain(e: Engine, epoch: nat, t: Track, a: Answer)
    ensures Plain(e, ResumeMicReplace(e, epoch, t, a))
  {
  }

  lemma ReplacedPlain(e: Engine, epoch: nat, t: Track, a: Answer)
    ensures Plain(e, ResumeCamReplace(e, epoch, t, a))
    ensures Plain(e, ResumeShareReplace(e, epoch, t, a))
  {
    assert Plain(e, SwapVideo(e, t));
  }

  lemma ReplacedSame(e: Engine, epoch: nat, t: Track, a: Answer)
    ensures Same(e, ResumeMicReplace(e, epoch, t, a)) && Same(e, ResumeCamReplace(e, epoch, t, a))
    ensures Same(e, ResumeShareReplace(e, epoch, t, a))
  {
    MicReplacedPlain(e, epoch, t, a);
    ReplacedPlain(e, epoch, t, a);
    ReplacedVoice(e, epoch, t, a);
    QuietWords(e.log, t);
  }

  lemma QuietWords(log: seq<Callback>, t: Track)
    ensures Descriptions(log + [DeviceError]) == Descriptions(log + [ShareError]) == Descriptions(log + [LocalTrack(t)])
            == Descriptions(log + [LocalVideo(Some(t))]) == Descriptions(log + [LocalVideo(None)])
            == Descriptions(log + [ShareChanged(true)] + [LocalVideo(Some(t))]) == Descriptions(log)
  {
    Quiet(log, DeviceError);
    Quiet(log, ShareError);
    Quiet(log, LocalTrack(t));
    Quiet(log, LocalVideo(Some(t)));
    Quiet(log, LocalVideo(None));
    Quiet(log, ShareChanged(true));
    Quiet(log + [ShareChanged(true)], LocalVideo(Some(t)));
  }

  lemma ShareStopPlain(e: Engine, id: nat, epoch: nat, thenCamera: Option<bool>, a: Answer)
    requires id !in e.frames
    ensures var r := ResumeShareStop(e, id, epoch, thenCamera, a);
            Setups(r) == Setups(e) && r.wantsVideo == e.wantsVideo && r.direction == e.direction
  {
    assert Plain(e, DropVideo(e));
    var e1 := ResumeShareStop(e, id, epoch, None, a);
    assert Plain(e, e1);
    if thenCamera.Some? {
      SuspendSame(e1, id, CamContinue(epoch, thenCamera.value));
    }
  }

  lemma CamOffPlain(e: Engine, id: nat, f: Frame, a: Answer, env: Env)
    requires f.CamOff?
    ensures Plain(e, ResumeFrame(e, id, f, a, env))
  {
    assert Plain(e, DropVideo(e));
  }

  lemma CameraPlain(e: Engine, id: nat, f: Frame, a: Answer, env: Env)
    requires id !in e.frames && (f.CamOff? || f.CamContinue?)
    ensures var r := ResumeFrame(e, id, f, a, env);
            Setups(r) == Setups(e) && r.wantsVideo == e.wantsVideo && r.direction == e.direction
  {
    if f.CamContinue? {
      SuspendSame(e, id, if f.on then CamAcquire(f.epoch) else CamOff(f.epoch));
    } else {
      CamOffPlain(e, id, f, a, env);
    }
  }

  lemma OtherSame(e: Engine, id: nat, f: Frame, a: Answer, env: Env)
    requires id !in e.frames && (f.CamOff? || f.ShareStop? || f.CamContinue? || f.Answering?)
    ensures Same(e, ResumeFrame(e, id, f, a, env))
  {
    if f.Answering? {
      FailingSame(e, f.epoch);
      PromoteSame(e, f.epoch, env.connected);
    } else {
      if f.ShareStop? {
        ShareStopPlain(e, id, f.epoch, f.thenCamera, a);
      } else {
        CameraPlain(e, id, f, a, env);
      }
      VideoOffVoice(e, id, f, a, env);
      QuietWords(e.log, Track(0, Video));
    }
  }

  lemma CaptureStopped(e: Engine)
    ensures var e1 := Log(Stop(e, e.screen).(screen := {}, sharing := false), ShareChanged(false));
            Same(e, e1) && e1.frames == e.frames && e1.state == e.state
  {
    Quiet(e.log, ShareChanged(false));
  }

  lemma StopSharingSame(e: Engine, id: nat, thenCamera: Option<bool>)
    requires id !in e.frames
    ensures Same(e, StopSharing(e, id, thenCamera)) && StopSharing(e, id, thenCamera).state == e.state
  {
    CaptureStopped(e);
    if e.sharing && e.epoch.Some? {
      SuspendSame(Log(Stop(e, e.screen).(screen := {}, sharing := false), ShareChanged(false)), id, ShareStop(e.epoch.value, thenCamera));
    }
  }

  // --- the invariant ---

  /** A call has one setup, then one offer or answer, as its direction asks. */
  ghost predicate OneSetup(e: Engine) {
    && (forall i, j :: i in Setups(e) && j in Setups(e) ==> i == j)
    && |Descriptions(e.log)| + (if Setups(e) == map[] then 0 else 1) <= 1
    && (Unstarted(e) ==> Setups(e) == map[] && Descriptions(e.log) == [])
    && (forall i :: i in Setups(e) ==> e.direction == Some(DirectionOf(Setups(e)[i].outgoing)))
    && (forall c :: c in Descriptions(e.log) ==> e.direction.Some? && c == DescriptionOf(e.direction.value))
    && (e.state == CS.Idle ==> e.direction == None)
  }

  /** An incoming call asks for the camera only when the user accepted with video. */
  ghost predicate Consents(e: Engine) {
    e.direction == Some(Incoming) && !e.wantsVideo ==>
      forall id :: id in Setups(e) && Setups(e)[id].stage.Acquire? ==> !Setups(e)[id].stage.video
  }

  lemma SameKeeps(e: Engine, r: Engine)
    requires OneSetup(e) && Consents(e) && Same(e, r) && (Unstarted(r) ==> Unstarted(e)) && (r.state == CS.Idle ==> e.state == CS.Idle)
    ensures OneSetup(r) && Consents(r)
  {
  }

  lemma ResumeGoes(e: Engine, id: nat, f: Frame, a: Answer, env: Env)
    requires id !in e.frames
    ensures var r := ResumeFrame(e, id, f, a, env);
            Same(e, r) || (f.Setup? && (Goes(e, id, f.epoch, f.outgoing, r) || Surfaces(e, f.outgoing, r)))
  {
    if f.Setup? {
      SetupGoes(e, id, f.epoch, f.outgoing, f.stage, a, env);
    } else if f.MicAcquire? || f.CamAcquire? || f.ShareAcquire? {
      AcquiredSame(e, id, f, a, env);
    } else if f.MicReplace? || f.CamReplace? || f.ShareReplace? {
      ReplacedSame(e, f.epoch, f.track, a);
    } else {
      OtherSame(e, id, f, a, env);
    }
  }

  /** Taking a setup out leaves none, and nothing surfaced yet. */
  lemma TakenSetups(e: Engine, id: nat, a: Answer)
    requires OneSetup(e) && Consents(e) && id in e.frames
    ensures var e0 := Taken(e, id, a);
            && OneSetup(e0) && Consents(e0) && id !in e0.frames
            && (e.frames[id].Setup? ==> Setups(e0) == map[] && Descriptions(e0.log) == [])
  {
    var e0 := Taken(e, id, a);
    assert forall i :: i in Setups(e0) ==> i in Setups(e);
    assert e.frames[id].Setup? ==> id in Setups(e);
  }

  /** A resumption leaves the state, ends the call, or connects it. */
  ghost predicate Onward(e: Engine, r: Engine) {
    r.state == e.state || r.state == CS.Ended || r.state == CS.Connected
  }

  lemma AdoptOnward(e: Engine, id: nat, epoch: nat, outgoing: bool, audio: Option<Track>, video: Option<Track>, env: Env)
    ensures Onward(e, Adopt(e, id, epoch, outgoing, audio, video, env))
  {
    var e1 := e.(local := Some(Some1(audio) + Some1(video)));
    NotifyIsQuiet(e1, epoch, audio, video);
    ConnectVoice(FlushCameraError(NotifyLocal(e1, audio, video), epoch), id, epoch, outgoing, env);
  }

  lemma SetupOnward(e: Engine, id: nat, epoch: nat, outgoing: bool, stage: Stage, a: Answer, env: Env)
    ensures Onward(e, ResumeSetup(e, id, epoch, outgoing, stage, a, env))
  {
    if (stage.Acquire? || stage.Retry?) && a.Stream? {
      AdoptOnward(if stage.Retry? then e.(cameraError := true) else e, id, epoch, outgoing, a.audio, a.video, env);
    } else if stage.Gather? && !a.Threw? && IsActive(e, epoch) {
      FailingVoice(Log(e, LocalAnswer), epoch);
    } else {
      SetupVoice(e, id, epoch, outgoing, stage, a, env);
    }
  }

  lemma ResumeOnward(e: Engine, id: nat, f: Frame, a: Answer, env: Env)
    ensures Onward(e, ResumeFrame(e, id, f, a, env))
  {
    if f.Setup? {
      SetupOnward(e, id, f.epoch, f.outgoing, f.stage, a, env);
    } else if f.MicAcquire? || f.CamAcquire? || f.ShareAcquire? {
      AcquiredVoice(e, id, f, a, env);
    } else if f.MicReplace? || f.CamReplace? || f.ShareReplace? {
      ReplacedVoice(e, f.epoch, f.track, a);
    } else if f.Answering? {
      FailingVoice(e, f.epoch);
    } else {
      VideoOffVoice(e, id, f, a, env);
    }
  }

  lemma GoesKeeps(e: Engine, id: nat, epoch: nat, outgoing: bool, r: Engine)
    requires OneSetup(e) && Setups(e) == map[] && Descriptions(e.log) == [] && e.direction == Some(DirectionOf(outgoing))
    requires Goes(e, id, epoch, outgoing, r) && !Unstarted(r) && r.state != CS.Idle
    ensures OneSetup(r) && Consents(r)
  {
    var stage: Stage :| !stage.Acquire? && Setups(r) == Setups(e)[id := Setup(epoch, outgoing, stage)];
    assert Setups(r) == map[id := Setup(epoch, outgoing, stage)];
  }

  lemma SurfacesKeeps(e: Engine, outgoing: bool, r: Engine)
    requires OneSetup(e) && Setups(e) == map[] && Descriptions(e.log) == [] && e.direction == Some(DirectionOf(outgoing))
    requires Surfaces(e, outgoing, r) && !Unstarted(r) && r.state != CS.Idle
    ensures OneSetup(r) && Consents(r)
  {
    assert Descriptions(r.log) == [DescriptionOf(DirectionOf(outgoing))];
  }

  lemma OnwardIsStarted(e: Engine, r: Engine)
    requires !Unstarted(e) && Onward(e, r) && r.direction == e.direction
    ensures !Unstarted(r) && r.state != CS.Idle
  {
  }

  lemma ResumeKeepsSetup(e: Engine, id: nat, a: Answer, env: Env)
    requires Tidy(e) && OneSetup(e) && Consents(e) && Enabled(e, Resume(id, a, env))
    ensures OneSetup(Resumed(e, id, a, env)) && Consents(Resumed(e, id, a, env))
  {
    TakenSetups(e, id, a);
    var e0, f, r := Taken(e, id, a), e.frames[id], Resumed(e, id, a, env);
    assert !Unstarted(e) && e0.state == e.state && e0.direction == e.direction;
    ResumeGoes(e0, id, f, a, env);
    ResumeOnward(e0, id, f, a, env);
    OnwardIsStarted(e0, r);
    if Same(e0, r) {
      SameKeeps(e0, r);
    } else {
      assert id in Setups(e) && Setups(e)[id] == f;
      if Goes(e0, id, f.epoch, f.outgoing, r) {
        GoesKeeps(e0, id, f.epoch, f.outgoing, r);
      } else {
        SurfacesKeeps(e0, f.outgoing, r);
      }
    }
  }

  // --- the owner's calls ---

  lemma TransitionSame(e: Engine, to: CS.State)
    ensures Same(e, Transition(e, to))
  {
    Quiet(e.log, StateChange(e.state, to));
  }

  lemma AnswerSame(e: Engine, id: nat)
    requires id !in e.frames
    ensures Same(e, Called(e, id, ProvideAnswer))
    ensures Called(e, id, ProvideAnswer).state == e.state || Called(e, id, ProvideAnswer).state == CS.Connecting
  {
    var e1 := Transition(e, CS.Connecting);
    TransitionSame(e, CS.Connecting);
    if !(e.epoch == None || e.state == CS.Ended || e.direction != Some(Outgoing) || e.pc == None || e.state != CS.Ringing) {
      SuspendSame(e1, id, Answering(e.epoch.value));
    }
  }

  lemma SwitchSame(e: Engine, id: nat, r: Request)
    requires id !in e.frames && (r.SwitchMic? || r.SwitchCamera? || r.StartShare?)
    ensures Same(e, Called(e, id, r)) && Called(e, id, r).state == e.state
  {
    LogSame(e, DeviceError);
    LogSame(e, ShareError);
    if e.epoch.Some? {
      var epoch := e.epoch.value;
      SuspendSame(e, id, if r.SwitchMic? then MicAcquire(epoch) else if r.SwitchCamera? then CamAcquire(epoch) else ShareAcquire(epoch));
    }
  }

  lemma SetCameraSame(e: Engine, id: nat, on: bool)
    requires id !in e.frames
    ensures Same(e, Called(e, id, SetCamera(on))) && Called(e, id, SetCamera(on)).state == e.state
  {
    LogSame(e, DeviceError);
    StopSharingSame(e, id, Some(on));
    if e.epoch.Some? {
      SuspendSame(e, id, if on then CamAcquire(e.epoch.value) else CamOff(e.epoch.value));
    }
  }

  /** A call that is not a start changes nothing about setups. */
  lemma CalledSame(e: Engine, id: nat, r: Request)
    requires id !in e.frames && !r.Place? && !r.Receive? && !r.Accept?
    ensures Same(e, Called(e, id, r)) && (Called(e, id, r).state == e.state || Called(e, id, r).state == CS.Connecting)
  {
    match r
    case SetCamera(on) => SetCameraSame(e, id, on);
    case StopShare => StopSharingSame(e, id, None);
    case ProvideAnswer => AnswerSame(e, id);
    case _ => SwitchSame(e, id, r);
  }

  lemma PlaceKeepsSetup(e: Engine, id: nat)
    requires Tidy(e) && OneSetup(e) && Consents(e) && id !in e.frames
    ensures var r := Called(e, id, Place); OneSetup(r) && Consents(r)
    ensures var r := Called(e, id, Receive); OneSetup(r) && Consents(r)
  {
    if e.state == CS.Idle {
      Quiet(e.log, StateChange(CS.Idle, CS.Ringing));
      var e1 := Transition(BeginEpoch(e.(direction := Some(Outgoing))), CS.Ringing);
      assert Setups(e1) == map[];
      SuspendSame(e1, id, Setup(e1.epoch.value, true, Acquire(e1.wantsVideo)));
      assert Setups(Called(e, id, Receive)) == map[];
    }
  }

  lemma AcceptKeepsSetup(e: Engine, id: nat, withVideo: bool)
    requires Tidy(e) && OneSetup(e) && Consents(e) && id !in e.frames
    ensures var r := Called(e, id, Accept(withVideo)); OneSetup(r) && Consents(r)
  {
    if e.direction == Some(Incoming) && e.state == CS.Ringing {
      Quiet(e.log, StateChange(CS.Ringing, CS.Connecting));
      var e1 := Transition(e.(wantsVideo := e.wantsVideo || withVideo), CS.Connecting);
      assert Setups(e1) == map[] && Descriptions(e1.log) == [];
      SuspendSame(e1, id, Setup(e.epoch.value, false, Acquire(e1.wantsVideo)));
    }
  }

  lemma CallKeepsSetup(e: Engine, id: nat, r: Request)
    requires Tidy(e) && OneSetup(e) && Consents(e) && id !in e.frames
    ensures OneSetup(Called(e, id, r)) && Consents(Called(e, id, r))
  {
    if r.Place? || r.Receive? {
      PlaceKeepsSetup(e, id);
    } else if r.Accept? {
      AcceptKeepsSetup(e, id, r.withVideo);
    } else {
      CalledSame(e, id, r);
      SameKeeps(e, Called(e, id, r));
    }
  }

  lemma EndKeepsSetup(e: Engine)
    requires OneSetup(e) && Consents(e)
    ensures OneSetup(Ending(e)) && Consents(Ending(e))
  {
    EndingSame(e);
    EndsEnded(e);
    SameKeeps(e, Ending(e));
  }

  lemma ConnectedKeepsSetup(e: Engine)
    requires OneSetup(e) && Consents(e)
    ensures OneSetup(Transition(e, CS.Connected)) && Consents(Transition(e, CS.Connected))
  {
    TransitionSame(e, CS.Connected);
    SameKeeps(e, Transition(e, CS.Connected));
  }

  lemma StepKeepsSetup(e: Engine, ev: Event)
    requires Tidy(e) && OneSetup(e) && Consents(e) && Enabled(e, ev)
    ensures OneSetup(After(e, ev)) && Consents(After(e, ev))
  {
    match ev
    case Call(id, r) => CallKeepsSetup(e, id, r);
    case Resume(id, a, env) => ResumeKeepsSetup(e, id, a, env);
    case End => EndKeepsSetup(e);
    case RemoteTrack =>
      LogSame(e, RemoteStream);
      SameKeeps(e, Log(e, RemoteStream));
    case ConnectionState(_, _) =>
      EndKeepsSetup(e);
      ConnectedKeepsSetup(e);
  }

  lemma EndsEnded(e: Engine)
    ensures Ending(e).state == CS.Ended
  {
  }

  lemma {:induction false} RunHasOneSetup(states: seq<Engine>, events: seq<Event>, i: nat)
    requires IsRun(states, events) && i < |states|
    ensures OneSetup(states[i]) && Consents(states[i])
  {
    if i > 0 {
      var k := i - 1;
      RunHasOneSetup(states, events, k);
      RunIsTidy(states, events, k);
      assert Steps(states[k], events[k], states[k + 1]);
      StepKeepsSetup(states[k], events[k]);
    }
  }

  lemma {:induction false} TwoCountTwice(log: seq<Callback>, n: nat, i: nat, j: nat)
    requires i < j < n <= |log| && IsDescription(log[i]) && IsDescription(log[j])
    ensures |DescriptionsTo(log, n)| >= 2
  {
    if j < n - 1 {
      TwoCountTwice(log, n - 1, i, j);
    } else {
      CountsOnce(log, n - 1, i);
    }
  }

  lemma {:induction false} CountsOnce(log: seq<Callback>, n: nat, i: nat)
    requires i < n <= |log| && IsDescription(log[i])
    ensures log[i] in DescriptionsTo(log, n)
  {
    if i < n - 1 {
      CountsOnce(log, n - 1, i);
    }
  }

  /** A call surfaces one offer or answer at most, in every run. */
  lemma OneDescription(states: seq<Engine>, events: seq<Event>, k: nat, i: nat, j: nat)
    requires IsRun(states, events) && k < |states| && i < |states[k].log| && j < |states[k].log|
    requires IsDescription(states[k].log[i]) && IsDescription(states[k].log[j])
    ensures i == j
  {
    RunHasOneSetup(states, events, k);
    if i < j {
      TwoCountTwice(states[k].log, |states[k].log|, i, j);
    } else if j < i {
      TwoCountTwice(states[k].log, |states[k].log|, j, i);
    }
  }

  /** In every run an offer is surfaced only by an outgoing call and an answer only
      by an incoming one. */
  lemma DescriptionFits(states: seq<Engine>, events: seq<Event>, k: nat, i: nat)
    requires IsRun(states, events) && k < |states| && i < |states[k].log|
    ensures states[k].log[i] == LocalOffer ==> states[k].direction == Some(Outgoing)
    ensures states[k].log[i] == LocalAnswer ==> states[k].direction == Some(Incoming)
  {
    RunHasOneSetup(states, events, k);
    if IsDescription(states[k].log[i]) {
      CountsOnce(states[k].log, |states[k].log|, i);
    }
  }

  lemma GatherStep(e: Engine, id: nat, a: Answer, env: Env)
    requires id in e.frames && e.frames[id].Setup? && e.frames[id].stage.Gather? && IsActive(e, e.frames[id].epoch)
    requires !a.Threw?
    ensures var r, told := Resumed(e, id, a, env), e.log + [DescriptionOf(DirectionOf(e.frames[id].outgoing))];
            && r.direction == e.direction && id !in r.frames
            && r.log == if !e.frames[id].outgoing && env.connected && CS.Connected in CS.Allowed(e.state)
                        then told + [StateChange(e.state, CS.Connected)] else told
  {
  }

  /** The last step of a setup: gathering that resolves while the call is active
      surfaces the description of the call's direction, at once and nothing else;
      an incoming call may be connected with it. */
  lemma GatheredIsSurfaced(states: seq<Engine>, events: seq<Event>, k: nat)
    requires IsRun(states, events) && k < |events| && events[k].Resume? && events[k].id in states[k].frames
    requires var f := states[k].frames[events[k].id]; f.Setup? && f.stage.Gather? && IsActive(states[k], f.epoch)
    requires !events[k].answer.Threw?
    ensures var e, r := states[k], states[k + 1];
            && e.direction.Some? && r.direction == e.direction && events[k].id !in r.frames
            && r.log == e.log + [if e.direction == Some(Outgoing) then LocalOffer else LocalAnswer]
                        + (if e.direction == Some(Incoming) && events[k].env.connected && CS.Connected in CS.Allowed(e.state)
                           then [StateChange(e.state, CS.Connected)] else [])
  {
    RunHasOneSetup(states, events, k);
    assert Steps(states[k], events[k], states[k + 1]);
    assert events[k].id in Setups(states[k]);
    GatherStep(states[k], events[k].id, events[k].answer, events[k].env);
  }

  /** The user accepted with video. */
  predicate AcceptsWithVideo(ev: Event) {
    ev.Call? && ev.request == Accept(true)
  }

  lemma WishStep(e: Engine, ev: Event)
    requires Tidy(e) && OneSetup(e) && Enabled(e, ev)
    ensures var r := After(e, ev);
            r.direction == Some(Incoming) && r.wantsVideo ==> AcceptsWithVideo(ev) || (e.direction == Some(Incoming) && e.wantsVideo)
  {
    match ev
    case Call(id, r) =>
      if r.Place? || r.Receive? || r.Accept? {
      } else {
        CalledSame(e, id, r);
      }
    case Resume(id, a, env) => ResumeGoes(Taken(e, id, a), id, e.frames[id], a, env);
    case End => EndingSame(e);
    case RemoteTrack =>
    case ConnectionState(_, _) => EndingSame(e);
  }

  /** Consent: in every run, an incoming call asks the platform for the camera at its
      start only if the user accepted with video, whatever the caller sent. */
  lemma {:induction false} CameraNeedsConsent(states: seq<Engine>, events: seq<Event>, i: nat)
    requires IsRun(states, events) && i < |states| && states[i].direction == Some(Incoming)
    requires forall k :: 0 <= k < i ==> !AcceptsWithVideo(events[k])
    ensures !states[i].wantsVideo
    ensures forall id :: id in states[i].frames && states[i].frames[id].Setup? ==> states[i].frames[id].stage != Acquire(true)
  {
    NoWish(states, events, i);
    RunHasOneSetup(states, events, i);
    forall id | id in states[i].frames && states[i].frames[id].Setup? ensures states[i].frames[id].stage != Acquire(true) {
      assert id in Setups(states[i]);
    }
  }

  lemma {:induction false} NoWish(states: seq<Engine>, events: seq<Event>, i: nat)
    requires IsRun(states, events) && i < |states|
    requires forall k :: 0 <= k < i ==> !AcceptsWithVideo(events[k])
    ensures states[i].direction == Some(Incoming) ==> !states[i].wantsVideo
  {
    if i > 0 {
      var k := i - 1;
      NoWish(states, events, k);
      RunIsTidy(states, events, k);
      RunHasOneSetup(states, events, k);
      assert Steps(states[k], events[k], states[k + 1]);
      WishStep(states[k], events[k]);
    }
  }
}
