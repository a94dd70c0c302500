/** No track or connection outlives a call, over all interleavings. */
module CallEngineSafety {
  import opened Wrappers
  import opened CallEngine
  import CS = CallState

  function Holds(f: Frame): set<Track> {
    match f
    case MicReplace(_, t) => {t}
    case CamReplace(_, t) => {t}
    case ShareReplace(_, t) => {t}
    case _ => {}
  }

  ghost predicate Owned(e: Engine, t: Track) {
    || t in LocalTracks(e) || t in e.screen || e.placeholder == Some(t)
    || exists id :: id in e.frames && t in Holds(e.frames[id])
  }

  predicate Acquiring(f: Frame) {
    f.Setup? && (f.stage.Acquire? || f.stage.Retry?)
  }

  ghost predicate OnePerKind(ts: set<Track>) {
    forall a, b :: a in ts && b in ts && a.kind == b.kind ==> a == b
  }

  /** The call was not placed or accepted yet. */
  predicate Unstarted(e: Engine) {
    e.state == CS.Idle || (e.state == CS.Ringing && e.direction == Some(Incoming))
  }

  predicate NothingHeld(e: Engine) {
    e.pc == None && e.openPcs == {} && e.local == None && e.screen == {} && e.placeholder == None && !e.sender && !e.sharing
  }

  predicate KindsOk(f: Frame) {
    match f
    case MicReplace(_, t) => t.kind == Audio
    case CamReplace(_, t) => t.kind == Video
    case ShareReplace(_, t) => t.kind == Video
    case _ => true
  }

  ghost predicate FramesOk(e: Engine) {
    && (forall id :: id in e.frames ==> KindsOk(e.frames[id]) && Holds(e.frames[id]) <= e.seen && e.frames[id].epoch < e.epochs)
    && (Unstarted(e) ==> e.frames == map[])
    && (forall id :: id in e.frames && Acquiring(e.frames[id]) ==>
          e.frames.Keys == {id} && NothingHeld(e))
    && (forall id :: id in e.frames && !Acquiring(e.frames[id]) && e.state != CS.Ended ==> e.local.Some?)
  }

  ghost predicate Shape(e: Engine) {
    && e.openPcs <= (if e.pc.Some? then {e.pc.value} else {})
    && (e.pc.Some? || e.sender ==> e.local.Some?)
    && (e.state == CS.Ended ==> NothingHeld(e) && e.epoch == None && !e.cameraOn)
    && (Unstarted(e) ==> NothingHeld(e))
    && (e.epoch.Some? <==> e.state != CS.Idle && e.state != CS.Ended)
    && (e.epoch.Some? ==> e.epoch.value == e.epochs - 1 && e.abort == Armed)
    && (e.state == CS.Ended ==> e.abort != Armed)
    && (e.epochs > 0 ==> e.abort != NoController)
    && OnePerKind(LocalTracks(e))
    && (forall t :: t in e.screen ==> t.kind == Video)
    && (forall t :: t in e.screen && t in e.live ==> t in LocalTracks(e))
  }

  /** The invariant in the middle of a stretch: `loose` tracks have no owner yet,
      and frame `skip` is running. */
  ghost predicate Core(e: Engine, loose: set<Track>) {
    && Shape(e)
    && e.live <= e.seen && LocalTracks(e) <= e.seen && e.screen <= e.seen
    && forall t :: t in e.live ==> t in loose || Owned(e, t)
  }

  /** Every un-stopped track has an owner; ended engines hold nothing. */
  ghost predicate Tidy(e: Engine) {
    Core(e, {}) && FramesOk(e)
  }

  // --- the small steps ---

  lemma EndingKeeps(e: Engine, loose: set<Track>)
    requires Core(e, loose)
    ensures Core(Ending(e), loose) && Ending(e).state == CS.Ended
    ensures FramesOk(e) ==> FramesOk(Ending(e))
  {
    var r := Ending(e);
    assert r.frames == e.frames;
    forall t | t in r.live ensures t in loose || Owned(r, t) {
      if t !in loose && e.state != CS.Ended {
        var id :| id in e.frames && t in Holds(e.frames[id]);
        assert id in r.frames;
      }
    }
  }

  lemma StopKeeps(e: Engine, loose: set<Track>, ts: set<Track>)
    requires Core(e, loose)
    ensures Core(Stop(e, ts), loose - ts)
  {
    var r := Stop(e, ts);
    forall t | t in r.live ensures t in loose - ts || Owned(r, t) {
      if Owned(e, t) && !(t in LocalTracks(e) || t in e.screen || e.placeholder == Some(t)) {
        var id :| id in e.frames && t in Holds(e.frames[id]);
        assert id in r.frames;
      }
    }
  }

  /** Nothing an owner depends on changed. */
  ghost predicate SameHoldings(e: Engine, r: Engine) {
    && r.local == e.local && r.screen == e.screen && r.placeholder == e.placeholder && r.frames == e.frames
    && r.live == e.live && r.seen == e.seen
  }

  lemma SameOwners(e: Engine, r: Engine, loose: set<Track>)
    requires Core(e, loose) && SameHoldings(e, r) && Shape(r)
    ensures Core(r, loose)
  {
    forall t | t in r.live ensures t in loose || Owned(r, t) {
      if t !in loose && !(t in LocalTracks(e) || t in e.screen || e.placeholder == Some(t)) {
        var id :| id in e.frames && t in Holds(e.frames[id]);
        assert id in r.frames;
      }
    }
  }

  lemma SuspendKeeps(e: Engine, loose: set<Track>, id: nat, f: Frame)
    requires Core(e, loose) && id !in e.frames
    ensures Core(Suspend(e, id, f), loose - Holds(f))
  {
    var r := Suspend(e, id, f);
    forall t | t in r.live ensures t in loose - Holds(f) || Owned(r, t) {
      assert id in r.frames && r.frames[id] == f;
      if t !in loose && !(t in LocalTracks(e) || t in e.screen || e.placeholder == Some(t)) {
        var i :| i in e.frames && t in Holds(e.frames[i]);
        assert i in r.frames && r.frames[i] == e.frames[i];
      }
    }
  }

  /** Taking a frame out leaves what it held, and what it got, unowned. */
  lemma TakeFrame(e: Engine, id: nat, got: set<Track>)
    requires Tidy(e) && id in e.frames
    ensures var e0 := e.(frames := e.frames - {id}, live := e.live + got, seen := e.seen + got);
            got !! e.seen ==> Core(e0, Holds(e.frames[id]) + got)
  {
    var e0 := e.(frames := e.frames - {id}, live := e.live + got, seen := e.seen + got);
    if got !! e.seen {
      forall t | t in e0.live ensures t in Holds(e.frames[id]) + got || Owned(e0, t) {
        if t !in got && !(t in LocalTracks(e) || t in e.screen || e.placeholder == Some(t)) {
          var i :| i in e.frames && t in Holds(e.frames[i]);
          assert i != id ==> i in e0.frames && e0.frames[i] == e.frames[i];
        }
      }
    }
  }

  // --- each stretch ---

  lemma FailingKeeps(e: Engine, epoch: nat)
    requires Tidy(e)
    ensures Tidy(Failing(e, epoch))
  {
    EndingKeeps(e, {});
    SameOwners(Ending(e), Log(Ending(e), Failure), {});
  }

  /** Some frame is running, so no other frame is still acquiring its stream. */
  ghost predicate Running(e: Engine, id: nat) {
    && FramesOk(e) && id !in e.frames && !Unstarted(e)
    && forall i :: i in e.frames ==> !Acquiring(e.frames[i])
  }

  lemma SuspendTidy(e: Engine, loose: set<Track>, id: nat, f: Frame)
    requires Core(e, loose) && Running(e, id) && loose <= Holds(f) <= e.seen && KindsOk(f)
    requires !Acquiring(f) && f.epoch < e.epochs && (e.local.Some? || e.state == CS.Ended)
    ensures Tidy(Suspend(e, id, f))
  {
    SuspendKeeps(e, loose, id, f);
    assert loose - Holds(f) == {};
  }

  lemma NegotiateKeeps(e: Engine, id: nat, epoch: nat, outgoing: bool, env: Env)
    requires Core(e, {}) && Running(e, id) && IsActive(e, epoch) && e.local.Some?
    ensures Tidy(NegotiateVideo(e, id, epoch, outgoing, env))
  {
    if env.tracksThrow {
      FailingKeeps(e, epoch);
    } else {
      var e2 := if env.awaits then e.(sender := outgoing || env.senderFound)
                else e.(sender := outgoing || env.senderFound, cameraOn := false);
      SuspendTidy(e2, {}, id, Setup(epoch, outgoing, Tracks(env.awaits)));
    }
  }

  lemma PlaceholderKeeps(e: Engine, made: Option<Track>, id: nat)
    requires Core(e, {}) && Running(e, id) && e.local.Some? && (made.Some? ==> made.value !in e.seen)
    ensures var e1 := WithPlaceholder(e, made); Core(e1, {}) && Running(e1, id)
  {
    var e1 := WithPlaceholder(e, made);
    forall t | t in e1.live ensures Owned(e1, t) {
      if t in e.live && !(t in LocalTracks(e) || t in e.screen || e.placeholder == Some(t)) {
        var i :| i in e.frames && t in Holds(e.frames[i]);
        assert i in e1.frames;
      }
    }
  }

  lemma AddTracksKeeps(e: Engine, id: nat, epoch: nat, outgoing: bool, env: Env)
    requires Core(e, {}) && Running(e, id) && IsActive(e, epoch) && e.local.Some?
    requires env.placeholder.Some? ==> env.placeholder.value !in e.seen
    ensures Tidy(AddTracks(e, id, epoch, outgoing, env))
  {
    if OfKind(LocalTracks(e), Video) == {} {
      PlaceholderKeeps(e, env.placeholder, id);
      NegotiateKeeps(WithPlaceholder(e, env.placeholder), id, epoch, outgoing, env);
    } else if env.tracksThrow {
      FailingKeeps(e, epoch);
    } else {
      var e2 := e.(sender := env.senderFound, cameraOn := env.senderFound);
      SuspendTidy(e2, {}, id, Setup(epoch, outgoing, Tracks(false)));
    }
  }

  lemma ConnectKeeps(e: Engine, id: nat, epoch: nat, outgoing: bool, env: Env)
    requires Core(e, {}) && Running(e, id) && IsActive(e, epoch) && e.local.Some? && e.pc == None
    requires env.placeholder.Some? ==> env.placeholder.value !in e.seen
    ensures Tidy(Connect(e, id, epoch, outgoing, env))
  {
    if env.pc == None {
      FailingKeeps(e, epoch);
    } else {
      var e1 := CreateConnection(e, env.pc.value);
      if env.channelsThrow {
        FailingKeeps(e1, epoch);
      } else if outgoing {
        AddTracksKeeps(e1, id, epoch, outgoing, env);
      } else {
        SuspendTidy(e1, {}, id, Setup(epoch, outgoing, SetRemote));
      }
    }
  }

  lemma LogTidy(e: Engine, c: Callback, loose: set<Track>)
    requires Core(e, loose)
    ensures Core(Log(e, c), loose) && (FramesOk(e) ==> FramesOk(Log(e, c)))
  {
    SameOwners(e, Log(e, c), loose);
  }

  lemma NotifyIsQuiet(e: Engine, epoch: nat, audio: Option<Track>, video: Option<Track>)
    ensures var r := FlushCameraError(NotifyLocal(e, audio, video), epoch);
            r == e.(log := r.log, cameraError := r.cameraError)
  {
  }

  /** The first stream arrived: nothing was held before, so nothing is replaced. */
  lemma AdoptKeeps(e: Engine, id: nat, epoch: nat, outgoing: bool, audio: Option<Track>, video: Option<Track>, env: Env)
    requires Core(e, Some1(audio) + Some1(video)) && e.frames == map[] && !Unstarted(e) && NothingHeld(e)
    requires (audio.Some? ==> audio.value.kind == Audio) && (video.Some? ==> video.value.kind == Video)
    requires Some1(audio) + Some1(video) <= e.seen
    requires env.placeholder.Some? ==> env.placeholder.value !in e.seen
    ensures Tidy(Adopt(e, id, epoch, outgoing, audio, video, env))
  {
    var ts := Some1(audio) + Some1(video);
    if !IsActive(e, epoch) {
      StopKeeps(e, ts, ts);
      assert ts - ts == {};
    } else {
      var e0 := e.(local := Some(ts));
      ConnectKeeps(FlushCameraError(NotifyLocal(e0, audio, video), epoch), id, epoch, outgoing, env);
    }
  }

  lemma PromoteKeeps(e: Engine, to: CS.State)
    requires Tidy(e) && (to == CS.Connected || to == CS.Connecting) && !Unstarted(e)
    ensures Tidy(Transition(e, to))
  {
    if to in CS.Allowed(e.state) {
      var e1 := Log(e, StateChange(e.state, to));
      LogTidy(e, StateChange(e.state, to), {});
      SameOwners(e1, e1.(state := to), {});
    }
  }

  lemma GatheredKeeps(e: Engine, id: nat, epoch: nat, outgoing: bool, env: Env)
    requires Core(e, {}) && Running(e, id) && IsActive(e, epoch)
    ensures Tidy(if outgoing then Log(e, LocalOffer) else Promote(Log(e, LocalAnswer), epoch, env.connected))
  {
    if outgoing {
      LogTidy(e, LocalOffer, {});
    } else {
      LogTidy(e, LocalAnswer, {});
      if env.connected {
        PromoteKeeps(Log(e, LocalAnswer), CS.Connected);
      }
    }
  }

  lemma TracksAddedKeeps(e: Engine, id: nat, epoch: nat, outgoing: bool, placeholder: bool)
    requires Core(e, {}) && Running(e, id) && epoch < e.epochs && (e.local.Some? || e.state == CS.Ended)
    ensures var e1 := if placeholder then e.(cameraOn := false) else e;
            && Tidy(e1)
            && (IsActive(e1, epoch) ==> Tidy(Suspend(e1, id, Setup(epoch, outgoing, Create))))
  {
    var e1 := if placeholder then e.(cameraOn := false) else e;
    if IsActive(e1, epoch) {
      SuspendTidy(e1, {}, id, Setup(epoch, outgoing, Create));
    }
  }

  /** A setup past its first stream. */
  lemma SetupKeeps(e: Engine, id: nat, epoch: nat, outgoing: bool, stage: Stage, a: Answer, env: Env)
    requires Core(e, {}) && Running(e, id) && !stage.Acquire? && !stage.Retry? && epoch < e.epochs
    requires e.local.Some? || e.state == CS.Ended
    requires env.placeholder.Some? ==> env.placeholder.value !in e.seen
    ensures Tidy(ResumeSetup(e, id, epoch, outgoing, stage, a, env))
  {
    if a.Threw? {
      FailingKeeps(e, epoch);
    } else {
      match stage
      case SetRemote =>
        if IsActive(e, epoch) {
          AddTracksKeeps(e, id, epoch, outgoing, env);
        }
      case Tracks(placeholder) =>
        TracksAddedKeeps(e, id, epoch, outgoing, placeholder);
      case Create =>
        if IsActive(e, epoch) {
          SuspendTidy(e, {}, id, Setup(epoch, outgoing, SetLocal));
        }
      case SetLocal =>
        if IsActive(e, epoch) {
          SuspendTidy(e, {}, id, Setup(epoch, outgoing, Gather));
        }
      case Gather =>
        if IsActive(e, epoch) {
          GatheredKeeps(e, id, epoch, outgoing, env);
        }
      case _ =>
    }
  }

  /** A stream acquired mid-call is either handed to the next frame or stopped. */
  lemma ReplacingKeeps(e: Engine, id: nat, epoch: nat, got: Option<Track>, ts: set<Track>, ready: bool, f: Frame, report: Callback)
    requires Core(e, ts) && Running(e, id)
    requires e.local.Some? || e.state == CS.Ended
    requires got.Some? ==> ts <= Holds(f) <= e.seen && KindsOk(f) && !Acquiring(f) && f.epoch < e.epochs
    ensures Tidy(Replacing(e, id, epoch, got, ts, ready, f, report))
  {
    StopKeeps(e, ts, ts);
    assert ts - ts == {};
    LogTidy(Stop(e, ts), report, {});
    if IsActive(e, epoch) && got.Some? && ready {
      SuspendTidy(e, ts, id, f);
    }
  }

  /** Replacing a kind of track in the local stream stops the one it had. */
  lemma SwapKeeps(e: Engine, t: Track, r: Engine)
    requires Core(e, {t}) && e.local.Some? && t in e.seen
    requires var prior := OfKind(LocalTracks(e), t.kind);
             r == e.(local := Some(LocalTracks(e) - prior + {t}), live := e.live - prior)
    ensures Core(r, {}) && (FramesOk(e) && !Unstarted(e) && (forall i :: i in e.frames ==> !Acquiring(e.frames[i])) ==> FramesOk(r))
    ensures t.kind == Video ==> forall s :: s in e.screen && s in r.live ==> s == t
  {
    forall x | x in r.live ensures Owned(r, x) {
      if x != t && !(x in LocalTracks(e) || x in e.screen || e.placeholder == Some(x)) {
        var i :| i in e.frames && x in Holds(e.frames[i]);
        assert i in r.frames;
      }
    }
  }

  lemma DropVideoKeeps(e: Engine)
    requires Core(e, {}) && e.local.Some?
    ensures Core(DropVideo(e), {})
    ensures FramesOk(e) && !Unstarted(e) && (forall i :: i in e.frames ==> !Acquiring(e.frames[i])) ==> FramesOk(DropVideo(e))
  {
    var r := DropVideo(e);
    forall x | x in r.live ensures Owned(r, x) {
      if !(x in LocalTracks(e) || x in e.screen || e.placeholder == Some(x)) {
        var i :| i in e.frames && x in Holds(e.frames[i]);
        assert i in r.frames;
      }
    }
  }

  lemma MicReplaceKeeps(e: Engine, id: nat, epoch: nat, t: Track, a: Answer)
    requires Core(e, {t}) && Running(e, id) && t.kind == Audio && t in e.seen && (e.local.Some? || e.state == CS.Ended)
    ensures Tidy(ResumeMicReplace(e, epoch, t, a))
  {
    if !a.Threw? && IsActive(e, epoch) {
      var prior := OfKind(LocalTracks(e), Audio);
      var r := e.(local := Some(LocalTracks(e) - prior + {t}), live := e.live - prior);
      SwapKeeps(e, t, r);
      LogTidy(r, LocalTrack(t), {});
    }
  }

  lemma CamReplaceKeeps(e: Engine, id: nat, epoch: nat, t: Track, a: Answer)
    requires Core(e, {t}) && Running(e, id) && t.kind == Video && t in e.seen && (e.local.Some? || e.state == CS.Ended)
    ensures Tidy(ResumeCamReplace(e, epoch, t, a))
  {
    if !a.Threw? && IsActive(e, epoch) {
      var r := SwapVideo(e, t);
      SwapKeeps(e, t, r);
    }
  }

  lemma ShareReplaceKeeps(e: Engine, id: nat, epoch: nat, t: Track, a: Answer)
    requires Core(e, {t}) && Running(e, id) && t.kind == Video && t in e.seen && (e.local.Some? || e.state == CS.Ended)
    ensures Tidy(ResumeShareReplace(e, epoch, t, a))
  {
    if !a.Threw? && IsActive(e, epoch) {
      var r := SwapVideo(e, t);
      SwapKeeps(e, t, r);
      var r1 := r.(screen := {t}, sharing := true, cameraOn := false);
      LogTidy(r1, ShareChanged(true), {});
      LogTidy(Log(r1, ShareChanged(true)), LocalVideo(Some(t)), {});
    }
  }

  lemma CamOffKeeps(e: Engine, id: nat, epoch: nat, a: Answer)
    requires Core(e, {}) && Running(e, id) && (e.local.Some? || e.state == CS.Ended)
    ensures Tidy(if a.Threw? then Log(e, DeviceError)
                 else if !IsActive(e, epoch) then e
                 else Log(DropVideo(e).(cameraOn := false), LocalVideo(None)))
  {
    if a.Threw? {
      LogTidy(e, DeviceError, {});
    } else if IsActive(e, epoch) {
      DropVideoKeeps(e);
    }
  }

  lemma SharedVideoDropped(e: Engine, id: nat, epoch: nat, a: Answer, e1: Engine)
    requires Core(e, {}) && Running(e, id) && (e.local.Some? || e.state == CS.Ended)
    requires e1 == ResumeShareStop(e, id, epoch, None, a)
    ensures Core(e1, {}) && Running(e1, id) && e1.epochs == e.epochs && (e1.local.Some? || e1.state == CS.Ended)
  {
    if a.Threw? {
      LogTidy(e, ShareError, {});
    } else if IsActive(e, epoch) {
      DropVideoKeeps(e);
      LogTidy(DropVideo(e), LocalVideo(None), {});
    }
  }

  lemma ShareStopKeeps(e: Engine, id: nat, epoch: nat, thenCamera: Option<bool>, a: Answer)
    requires Core(e, {}) && Running(e, id) && (e.local.Some? || e.state == CS.Ended) && epoch < e.epochs
    ensures Tidy(ResumeShareStop(e, id, epoch, thenCamera, a))
  {
    var e1 := ResumeShareStop(e, id, epoch, None, a);
    SharedVideoDropped(e, id, epoch, a, e1);
    if thenCamera.Some? {
      SuspendTidy(e1, {}, id, CamContinue(epoch, thenCamera.value));
    }
  }

  // --- events ---

  lemma TakenFrame(e: Engine, id: nat, a: Answer, env: Env)
    requires Tidy(e) && Enabled(e, Resume(id, a, env))
    ensures var e0 := Taken(e, id, a);
            && Core(e0, Holds(e.frames[id]) + StreamTracks(a))
            && (if Acquiring(e.frames[id]) then e0.frames == map[] && NothingHeld(e0) && !Unstarted(e0)
                else Running(e0, id) && (e0.local.Some? || e0.state == CS.Ended))
  {
    TakeFrame(e, id, StreamTracks(a));
  }

  lemma FirstStreamKeeps(e: Engine, id: nat, a: Answer, env: Env)
    requires Tidy(e) && Enabled(e, Resume(id, a, env)) && Acquiring(e.frames[id]) && a.Stream?
    ensures Tidy(Resumed(e, id, a, env))
  {
    TakenFrame(e, id, a, env);
    var f, e0 := e.frames[id], Taken(e, id, a);
    var e1 := if f.stage.Retry? then e0.(cameraError := true) else e0;
    SameOwners(e0, e1, StreamTracks(a));
    AdoptKeeps(e1, id, f.epoch, f.outgoing, a.audio, a.video, env);
  }

  lemma NoStreamKeeps(e: Engine, id: nat, a: Answer, env: Env)
    requires Tidy(e) && Enabled(e, Resume(id, a, env)) && Acquiring(e.frames[id]) && !a.Stream?
    ensures Tidy(Resumed(e, id, a, env))
  {
    TakenFrame(e, id, a, env);
    var f, e0 := e.frames[id], Taken(e, id, a);
    assert Core(e0, {});
    if !f.stage.Acquire? || !f.stage.video {
      FailingKeeps(e0, f.epoch);
    }
  }

  lemma SetupResumeKeeps(e: Engine, id: nat, a: Answer, env: Env)
    requires Tidy(e) && Enabled(e, Resume(id, a, env)) && e.frames[id].Setup?
    ensures Tidy(Resumed(e, id, a, env))
  {
    var f := e.frames[id];
    if Acquiring(f) {
      if a.Stream? {
        FirstStreamKeeps(e, id, a, env);
      } else {
        NoStreamKeeps(e, id, a, env);
      }
    } else {
      TakenFrame(e, id, a, env);
      SetupKeeps(Taken(e, id, a), id, f.epoch, f.outgoing, f.stage, a, env);
    }
  }
}
