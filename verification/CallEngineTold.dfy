/** What the owner was told last is what holds: the local tracks on show and the
    screen share, over all interleavings. */
module CallEngineTold {
  import opened Wrappers
  import opened CallEngine
  import opened CallEngineSafety
  import opened CallEngineRuns
  import CS = CallState

  /** The last word on each subject. */
  datatype Word = Word(audio: Option<Track>, video: Option<Track>, sharing: bool)

  function Hear(w: Word, c: Callback): Word {
    match c
    case LocalTrack(t) => w.(audio := Some(t))
    case LocalVideo(v) => w.(video := v)
    case ShareChanged(on) => w.(sharing := on)
    case _ => w
  }

  function HeardTo(log: seq<Callback>, n: nat): Word
    requires n <= |log|
  {
    if n == 0 then Word(None, None, false) else Hear(HeardTo(log, n - 1), log[n - 1])
  }

  function Heard(log: seq<Callback>): Word {
    HeardTo(log, |log|)
  }

  lemma {:induction false} HeardPrefix(log: seq<Callback>, more: seq<Callback>, n: nat)
    requires n <= |log|
    ensures HeardTo(log + more, n) == HeardTo(log, n)
  {
    if n > 0 {
      HeardPrefix(log, more, n - 1);
    }
  }

  lemma HeardMore(log: seq<Callback>, c: Callback)
    ensures Heard(log + [c]) == Hear(Heard(log), c)
  {
    HeardPrefix(log, [c], |log|);
  }

  /** A live call shows and sends exactly what it last announced. */
  ghost predicate Current(e: Engine) {
    e.state != CS.Ended ==>
      var w := Heard(e.log);
      && OfKind(LocalTracks(e), Audio) == Some1(w.audio) && OfKind(LocalTracks(e), Video) == Some1(w.video)
      && w.sharing == e.sharing
  }

  /** What `Current` looks at. */
  datatype View = View(ended: bool, tracks: set<Track>, sharing: bool, heard: Word)

  ghost function ViewOf(e: Engine): View {
    View(e.state == CS.Ended, LocalTracks(e), e.sharing, Heard(e.log))
  }

  ghost predicate Unchanged(e: Engine, r: Engine) {
    r.state == CS.Ended || ViewOf(r) == ViewOf(e)
  }

  lemma LogNeutral(e: Engine, c: Callback)
    requires !c.LocalTrack? && !c.LocalVideo? && !c.ShareChanged?
    ensures Unchanged(e, Log(e, c))
  {
    HeardMore(e.log, c);
  }

  lemma TransitionNeutral(e: Engine, to: CS.State)
    requires e.state != CS.Ended
    ensures Unchanged(e, Transition(e, to))
  {
    HeardMore(e.log, StateChange(e.state, to));
  }

  /** Neither what is sent nor what was told is touched, or the call is over. */
  ghost predicate Apart(e: Engine, r: Engine) {
    r.state == CS.Ended || (r.state == e.state && r.local == e.local && r.sharing == e.sharing && r.log == e.log)
  }

  lemma ApartIsNeutral(e: Engine, r: Engine)
    requires Apart(e, r)
    ensures Unchanged(e, r)
  {
  }

  lemma SmallApart(e: Engine, ts: set<Track>, id: nat, f: Frame)
    ensures Apart(e, Stop(e, ts)) && ViewOf(Stop(e, ts)) == ViewOf(e)
    ensures Apart(e, Suspend(e, id, f)) && ViewOf(Suspend(e, id, f)) == ViewOf(e)
  {
  }

  lemma FailingApart(e: Engine, epoch: nat)
    ensures Apart(e, Failing(e, epoch)) && Apart(e, Ending(e))
  {
  }

  lemma NegotiateApart(e: Engine, id: nat, epoch: nat, outgoing: bool, env: Env)
    ensures Apart(e, NegotiateVideo(e, id, epoch, outgoing, env))
  {
    FailingApart(e, epoch);
  }

  lemma TracksApart(e: Engine, id: nat, epoch: nat, outgoing: bool, env: Env)
    ensures Apart(e, AddTracks(e, id, epoch, outgoing, env))
  {
    if OfKind(LocalTracks(e), Video) == {} {
      var e1 := WithPlaceholder(e, env.placeholder);
      assert Apart(e, e1) && e1.state == e.state;
      NegotiateApart(e1, id, epoch, outgoing, env);
    } else {
      FailingApart(e, epoch);
    }
  }

  lemma ConnectApart(e: Engine, id: nat, epoch: nat, outgoing: bool, env: Env)
    ensures Apart(e, Connect(e, id, epoch, outgoing, env))
  {
    FailingApart(e, epoch);
    if env.pc.Some? {
      var e1 := CreateConnection(e, env.pc.value);
      FailingApart(e1, epoch);
      TracksApart(e1, id, epoch, outgoing, env);
    }
  }

  // --- the steps that change what is sent ---

  lemma NotifyHeard(e: Engine, audio: Option<Track>, video: Option<Track>)
    ensures var w := Heard(NotifyLocal(e, audio, video).log);
            w == Heard(e.log).(audio := if audio.Some? then audio else Heard(e.log).audio,
                               video := if video.Some? then video else Heard(e.log).video)
  {
    var log1 := e.log + (if audio.Some? then [LocalTrack(audio.value)] else []);
    if audio.Some? {
      HeardMore(e.log, LocalTrack(audio.value));
    } else {
      assert log1 == e.log;
    }
    if video.Some? {
      HeardMore(log1, LocalVideo(video));
    } else {
      assert log1 + [] == log1;
    }
  }

  lemma FlushNeutral(e: Engine, epoch: nat)
    ensures Unchanged(e, FlushCameraError(e, epoch))
  {
    HeardMore(e.log, DeviceError);
    assert e.log + [] == e.log;
  }

  lemma AdoptIsCurrent(e: Engine, id: nat, epoch: nat, outgoing: bool, audio: Option<Track>, video: Option<Track>, env: Env)
    requires Current(e) && e.local == None
    requires (audio.Some? ==> audio.value.kind == Audio) && (video.Some? ==> video.value.kind == Video)
    ensures Current(Adopt(e, id, epoch, outgoing, audio, video, env))
  {
    if IsActive(e, epoch) {
      var e1 := e.(local := Some(Some1(audio) + Some1(video)));
      var e2 := NotifyLocal(e1, audio, video);
      NotifyHeard(e1, audio, video);
      FirstHeard(e, audio, video);
      FlushNeutral(e2, epoch);
      ConnectApart(FlushCameraError(e2, epoch), id, epoch, outgoing, env);
    }
  }

  /** Nothing was sent before, so nothing was announced. */
  lemma FirstHeard(e: Engine, audio: Option<Track>, video: Option<Track>)
    requires Current(e) && e.local == None && e.state != CS.Ended
    requires (audio.Some? ==> audio.value.kind == Audio) && (video.Some? ==> video.value.kind == Video)
    ensures Heard(e.log).audio == None && Heard(e.log).video == None
    ensures OfKind(Some1(audio) + Some1(video), Audio) == Some1(audio) && OfKind(Some1(audio) + Some1(video), Video) == Some1(video)
  {
    var w := Heard(e.log);
    assert OfKind(LocalTracks(e), Audio) == {} && OfKind(LocalTracks(e), Video) == {};
    assert Some1(w.audio) == {} && Some1(w.video) == {};
  }

  lemma GatheredIsCurrent(e: Engine, id: nat, epoch: nat, outgoing: bool, a: Answer, env: Env)
    requires Current(e) && !a.Stream?
    ensures Current(ResumeSetup(e, id, epoch, outgoing, Gather, a, env))
  {
    if a.Threw? {
      FailingApart(e, epoch);
    } else if IsActive(e, epoch) {
      LogNeutral(e, LocalOffer);
      LogNeutral(e, LocalAnswer);
      TransitionNeutral(Log(e, LocalAnswer), CS.Connected);
    }
  }

  lemma SetupApart(e: Engine, id: nat, epoch: nat, outgoing: bool, stage: Stage, a: Answer, env: Env)
    requires !a.Stream? && !stage.Gather?
    ensures Apart(e, ResumeSetup(e, id, epoch, outgoing, stage, a, env))
  {
    FailingApart(e, epoch);
    if stage.SetRemote? {
      TracksApart(e, id, epoch, outgoing, env);
    } else if stage.Tracks? {
      var e1 := if stage.placeholder then e.(cameraOn := false) else e;
      SmallApart(e1, {}, id, Setup(epoch, outgoing, Create));
    } else {
      SmallApart(e, {}, id, Setup(epoch, outgoing, if stage.Acquire? then Retry else if stage.Create? then SetLocal else Gather));
    }
  }

  lemma SetupIsCurrent(e: Engine, id: nat, epoch: nat, outgoing: bool, stage: Stage, a: Answer, env: Env)
    requires Current(e) && (a.Stream? ==> (stage.Acquire? || stage.Retry?) && e.local == None)
    requires a.Stream? ==> (a.audio.Some? ==> a.audio.value.kind == Audio) && (a.video.Some? ==> a.video.value.kind == Video)
    ensures Current(ResumeSetup(e, id, epoch, outgoing, stage, a, env))
  {
    if a.Stream? {
      AdoptIsCurrent(if stage.Retry? then e.(cameraError := true) else e, id, epoch, outgoing, a.audio, a.video, env);
    } else if stage.Gather? {
      GatheredIsCurrent(e, id, epoch, outgoing, a, env);
    } else {
      SetupApart(e, id, epoch, outgoing, stage, a, env);
    }
  }

  /** One kind exchanged for one track. */
  lemma Exchanged(ts: set<Track>, t: Track, other: Kind)
    requires other != t.kind
    ensures var ts' := ts - OfKind(ts, t.kind) + {t}; OfKind(ts', t.kind) == {t} && OfKind(ts', other) == OfKind(ts, other)
  {
  }

  lemma MicReplacedIsCurrent(e: Engine, epoch: nat, t: Track, a: Answer)
    requires Current(e) && t.kind == Audio
    ensures Current(ResumeMicReplace(e, epoch, t, a))
  {
    LogNeutral(Stop(e, {t}), DeviceError);
    Exchanged(LocalTracks(e), t, Video);
    HeardMore(e.log, LocalTrack(t));
  }

  lemma CamReplacedIsCurrent(e: Engine, epoch: nat, t: Track, a: Answer)
    requires Current(e) && t.kind == Video && (e.local.Some? || e.state == CS.Ended)
    ensures Current(ResumeCamReplace(e, epoch, t, a))
  {
    LogNeutral(Stop(e, {t}), DeviceError);
    Exchanged(LocalTracks(e), t, Audio);
    HeardMore(e.log, LocalVideo(Some(t)));
  }

  lemma ShareReplacedIsCurrent(e: Engine, epoch: nat, t: Track, a: Answer)
    requires Current(e) && t.kind == Video && (e.local.Some? || e.state == CS.Ended)
    ensures Current(ResumeShareReplace(e, epoch, t, a))
  {
    LogNeutral(Stop(e, {t}), ShareError);
    Exchanged(LocalTracks(e), t, Audio);
    HeardMore(e.log, ShareChanged(true));
    HeardMore(e.log + [ShareChanged(true)], LocalVideo(Some(t)));
  }

  lemma VideoDropped(e: Engine)
    requires Current(e) && e.state != CS.Ended && e.local.Some?
    ensures Current(Log(DropVideo(e), LocalVideo(None)))
  {
    HeardMore(e.log, LocalVideo(None));
    var ts := LocalTracks(e);
    assert OfKind(ts - OfKind(ts, Video), Video) == {} && OfKind(ts - OfKind(ts, Video), Audio) == OfKind(ts, Audio);
  }

  lemma ReplacingNeutral(e: Engine, id: nat, epoch: nat, got: Option<Track>, ts: set<Track>, ready: bool, f: Frame, report: Callback)
    requires report.DeviceError? || report.ShareError?
    ensures Unchanged(e, Replacing(e, id, epoch, got, ts, ready, f, report))
  {
    SmallApart(e, ts, id, f);
    if IsActive(e, epoch) && (got == None || !ready) {
      LogNeutral(Stop(e, ts), report);
    }
  }

  lemma AcquiredNeutral(e: Engine, id: nat, f: Frame, a: Answer, env: Env)
    requires f.MicAcquire? || f.CamAcquire? || f.ShareAcquire?
    ensures Unchanged(e, ResumeFrame(e, id, f, a, env))
  {
    var report := if f.ShareAcquire? then ShareError else DeviceError;
    if !a.Stream? {
      LogNeutral(e, report);
    } else {
      var got := if f.MicAcquire? then a.audio else a.video;
      if got == None {
        ReplacingNeutral(e, id, f.epoch, None, {}, false, f, report);
      } else {
        var t := got.value;
        var g := if f.MicAcquire? then MicReplace(f.epoch, t) else if f.CamAcquire? then CamReplace(f.epoch, t) else ShareReplace(f.epoch, t);
        ReplacingNeutral(e, id, f.epoch, got, {t}, f.MicAcquire? ==> env.senderFound, g, report);
      }
    }
  }

  lemma AnsweredIsCurrent(e: Engine, epoch: nat, a: Answer, env: Env)
    requires Current(e)
    ensures Current(if a.Threw? then Failing(e, epoch) else Promote(e, epoch, env.connected))
  {
    FailingApart(e, epoch);
    if e.state != CS.Ended {
      TransitionNeutral(e, CS.Connected);
    }
  }

  lemma ShareStoppedIsCurrent(e: Engine, id: nat, epoch: nat, thenCamera: Option<bool>, a: Answer)
    requires Current(e) && (e.local.Some? || e.state == CS.Ended)
    ensures Current(ResumeShareStop(e, id, epoch, thenCamera, a))
  {
    LogNeutral(e, ShareError);
    if e.state != CS.Ended {
      VideoDropped(e);
    }
    var e1 := ResumeShareStop(e, id, epoch, None, a);
    assert Current(e1);
    if thenCamera.Some? {
      assert Apart(e1, Suspend(e1, id, CamContinue(epoch, thenCamera.value)));
    }
  }

  lemma CameraOffIsCurrent(e: Engine, id: nat, f: Frame, a: Answer, env: Env)
    requires Current(e) && (f.CamOff? || f.CamContinue?) && (e.local.Some? || e.state == CS.Ended)
    ensures Current(ResumeFrame(e, id, f, a, env))
  {
    LogNeutral(e, DeviceError);
    if f.CamOff? && e.state != CS.Ended {
      VideoDropped(e);
    }
  }

  lemma ResumeIsCurrent(e: Engine, id: nat, a: Answer, env: Env)
    requires Tidy(e) && Current(e) && Enabled(e, Resume(id, a, env))
    ensures Current(Resumed(e, id, a, env))
  {
    var f, e0 := e.frames[id], Taken(e, id, a);
    assert KindsOk(f);
    if f.Setup? {
      assert Acquiring(f) ==> NothingHeld(e);
      SetupIsCurrent(e0, id, f.epoch, f.outgoing, f.stage, a, env);
    } else if f.MicAcquire? || f.CamAcquire? || f.ShareAcquire? {
      AcquiredNeutral(e0, id, f, a, env);
    } else if f.MicReplace? {
      MicReplacedIsCurrent(e0, f.epoch, f.track, a);
    } else if f.CamReplace? {
      CamReplacedIsCurrent(e0, f.epoch, f.track, a);
    } else if f.ShareReplace? {
      ShareReplacedIsCurrent(e0, f.epoch, f.track, a);
    } else if f.Answering? {
      AnsweredIsCurrent(e0, f.epoch, a, env);
    } else if f.ShareStop? {
      ShareStoppedIsCurrent(e0, id, f.epoch, f.thenCamera, a);
    } else {
      CameraOffIsCurrent(e0, id, f, a, env);
    }
  }

  lemma StopSharingIsCurrent(e: Engine, id: nat, thenCamera: Option<bool>)
    requires Current(e)
    ensures Current(StopSharing(e, id, thenCamera))
  {
    HeardMore(e.log, ShareChanged(false));
  }

  lemma PlacedIsCurrent(e: Engine, id: nat, r: Request)
    requires Current(e) && (r.Place? || r.Receive?)
    ensures Current(Called(e, id, r))
  {
    if e.state == CS.Idle {
      var e0 := BeginEpoch(if r.Place? then e.(direction := Some(Outgoing)) else e.(direction := Some(Incoming), wantsVideo := false));
      assert ViewOf(e0) == ViewOf(e);
      TransitionNeutral(e0, CS.Ringing);
      var e1 := Transition(e0, CS.Ringing);
      SmallApart(e1, {}, id, Setup(e1.epoch.value, true, Acquire(e.wantsVideo)));
    }
  }

  lemma ConnectingNeutral(e: Engine, id: nat, f: Frame)
    requires e.state == CS.Ringing
    ensures ViewOf(Transition(e, CS.Connecting)) == ViewOf(e)
    ensures ViewOf(Suspend(Transition(e, CS.Connecting), id, f)) == ViewOf(e)
  {
    TransitionNeutral(e, CS.Connecting);
    SmallApart(Transition(e, CS.Connecting), {}, id, f);
  }

  lemma WishIsApart(e: Engine, wish: bool)
    ensures Current(e) ==> Current(e.(wantsVideo := wish))
    ensures e.(wantsVideo := wish).state == e.state && e.(wantsVideo := wish).epoch == e.epoch
  {
  }

  lemma AcceptedIs(e: Engine, id: nat, withVideo: bool)
    requires e.direction == Some(Incoming) && e.state == CS.Ringing
    ensures var e0 := e.(wantsVideo := e.wantsVideo || withVideo);
            var r := Transition(e0, CS.Connecting);
            Called(e, id, Accept(withVideo)) ==
              if e.epoch == None then r else Suspend(r, id, Setup(e.epoch.value, false, Acquire(e0.wantsVideo)))
  {
    var e0 := e.(wantsVideo := e.wantsVideo || withVideo);
    assert Transition(e0, CS.Connecting).wantsVideo == e0.wantsVideo;
  }

  lemma AcceptedIsCurrent(e: Engine, id: nat, withVideo: bool)
    requires Current(e)
    ensures Current(Called(e, id, Accept(withVideo)))
  {
    if e.direction == Some(Incoming) && e.state == CS.Ringing {
      var wish := e.wantsVideo || withVideo;
      AcceptedIs(e, id, withVideo);
      WishIsApart(e, wish);
      ConnectingNeutral(e.(wantsVideo := wish), id, Setup(if e.epoch.Some? then e.epoch.value else 0, false, Acquire(wish)));
    }
  }

  lemma AnswerTakenIsCurrent(e: Engine, id: nat)
    requires Current(e)
    ensures Current(Called(e, id, ProvideAnswer))
  {
    if e.epoch.Some? && e.state == CS.Ringing {
      ConnectingNeutral(e, id, Answering(e.epoch.value));
    }
  }

  lemma CalledIsCurrent(e: Engine, id: nat, r: Request)
    requires Current(e)
    ensures Current(Called(e, id, r))
  {
    if r.Place? || r.Receive? {
      PlacedIsCurrent(e, id, r);
    } else if r.Accept? {
      AcceptedIsCurrent(e, id, r.withVideo);
    } else if r.ProvideAnswer? {
      AnswerTakenIsCurrent(e, id);
    } else if r.SetCamera? {
      LogNeutral(e, DeviceError);
      StopSharingIsCurrent(e, id, Some(r.on));
    } else if r.StopShare? {
      StopSharingIsCurrent(e, id, None);
    } else {
      LogNeutral(e, DeviceError);
      LogNeutral(e, ShareError);
    }
  }

  lemma StepIsCurrent(e: Engine, ev: Event)
    requires Tidy(e) && Current(e) && Enabled(e, ev)
    ensures Current(After(e, ev))
  {
    match ev
    case Call(id, r) => CalledIsCurrent(e, id, r);
    case Resume(id, a, env) => ResumeIsCurrent(e, id, a, env);
    case End => FailingApart(e, 0);
    case RemoteTrack => LogNeutral(e, RemoteStream);
    case ConnectionState(_, _) =>
      FailingApart(e, 0);
      if e.state != CS.Ended {
        TransitionNeutral(e, CS.Connected);
      }
  }

  /** In every run, while the call is not over: the audio and the video track the
      owner was last told of are the ones in the local stream, and it was last told
      of a screen share exactly if one is on. */
  lemma {:induction false} ToldIsCurrent(states: seq<Engine>, events: seq<Event>, i: nat)
    requires IsRun(states, events) && i < |states|
    ensures Current(states[i])
  {
    if i > 0 {
      var k := i - 1;
      ToldIsCurrent(states, events, k);
      RunIsTidy(states, events, k);
      assert Steps(states[k], events[k], states[k + 1]);
      StepIsCurrent(states[k], events[k]);
    }
  }
}
