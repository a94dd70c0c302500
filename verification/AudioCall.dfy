/** The engine as the object it is (`AudioCallEngine`): its fields, updated in place,
    one method per synchronous stretch.  Every method is proved to take exactly
    the step of `CallEngine`. */
module AudioCall {
  import opened Wrappers
  import opened CallEngine
  import CS = CallState
  import CallEngineSafety
  import CallEngineRuns

  class AudioCallEngine {
    var state: CS.State
    var direction: Option<Direction>
    var wantsVideo: bool
    var epoch: Option<nat>
    var epochs: nat
    var pc: Option<nat>
    var openPcs: set<nat>
    var local: Option<set<Track>>
    var screen: set<Track>
    var placeholder: Option<Track>
    var sender: bool
    var sharing: bool
    var cameraOn: bool
    var cameraError: bool
    var abort: Abort
    var frames: map<nat, Frame>
    var live: set<Track>
    var seen: set<Track>
    var log: seq<Callback>

    ghost function St(): Engine
      reads this
    {
      Engine(state, direction, wantsVideo, epoch, epochs, pc, openPcs, local, screen, placeholder, sender,
             sharing, cameraOn, cameraError, abort, frames, live, seen, log)
    }

    ghost predicate Valid()
      reads this
    {
      CallEngineSafety.Tidy(St())
    }

    constructor (hasVideo: bool)
      ensures Valid() && Fresh(St()) && wantsVideo == hasVideo
    {
      state, direction, wantsVideo := CS.Idle, None, hasVideo;
      epoch, epochs, pc, openPcs := None, 0, None, {};
      local, screen, placeholder, sender := None, {}, None, false;
      sharing, cameraOn, cameraError, abort := false, false, false, NoController;
      frames, live, seen, log := map[], {}, {}, [];
      new;
    }

    // --- internals ---

    /** `track.stop()` on each track of a stream. */
    method StopTracks(tracks: set<Track>)
      modifies `live
      ensures live == old(live) - tracks
    {
      var left := tracks;
      while left != {}
        invariant left <= tracks && live == old(live) - (tracks - left)
        decreases left
      {
        var t :| t in left;
        live := live - {t};
        left := left - {t};
      }
    }

    /** `removeLocalVideoTracks`, and the first half of `swapLocalVideoTrack`. */
    method RemoveTracks(kind: Kind)
      requires local.Some?
      modifies `local, `live
      ensures var gone := OfKind(old(local.value), kind);
              St() == old(St()).(local := Some(old(local.value) - gone), live := old(live) - gone)
    {
      ghost var was := local.value;
      var left := OfKind(local.value, kind);
      while left != {}
        invariant left <= OfKind(was, kind) && local.Some? && local.value == was - (OfKind(was, kind) - left)
        invariant live == old(live) - (OfKind(was, kind) - left)
        decreases left
      {
        var t :| t in left;
        local := Some(local.value - {t});
        live := live - {t};
        left := left - {t};
      }
      assert local.value == was - OfKind(was, kind);
      assert live == old(live) - OfKind(was, kind);
    }

    method SwapLocalVideoTrack(t: Track)
      modifies `local, `live
      ensures St() == CallEngine.SwapVideo(old(St()), t)
    {
      if local.Some? {
        RemoveTracks(Video);
        local := Some(local.value + {t});
      }
    }

    method RemoveLocalVideoTracks()
      modifies `local, `live
      ensures St() == CallEngine.DropVideo(old(St()))
    {
      if local.Some? {
        RemoveTracks(Video);
      }
    }

    method Notify(c: Callback)
      modifies `log
      ensures log == old(log) + [c]
    {
      log := log + [c];
    }

    method MoveTo(to: CS.State) returns (changed: bool)
      modifies `state, `log
      ensures St() == CallEngine.Transition(old(St()), to)
      ensures changed <==> to in CS.Allowed(old(state))
    {
      if to !in CS.Allowed(state) {
        return false;
      }
      var from := state;
      state := to;
      Notify(StateChange(from, to));
      return true;
    }

    method BeginEpoch()
      modifies `epoch, `epochs, `abort
      ensures St() == CallEngine.BeginEpoch(old(St()))
    {
      epoch, epochs, abort := Some(epochs), epochs + 1, Armed;
    }

    method Await(id: nat, f: Frame)
      modifies `frames
      ensures St() == CallEngine.Suspend(old(St()), id, f)
    {
      frames := frames[id := f];
    }

    /** `end()`: the state and the epoch go first, so whatever resumes later is stale. */
    method EndCall()
      modifies this
      ensures St() == CallEngine.Ending(old(St()))
    {
      if state != CS.Ended {
        var _ := MoveTo(CS.Ended);
        Release();
      }
    }

    method Release()
      modifies `epoch, `abort, `screen, `live, `sharing, `cameraOn, `sender, `pc, `openPcs, `local, `placeholder
      ensures St() == CallEngine.Released(old(St()))
    {
      Invalidate();
      ReleaseVideo();
      Teardown();
    }

    method Invalidate()
      modifies `epoch, `abort
      ensures epoch == None && abort == if old(abort) == Armed then Aborted else old(abort)
    {
      epoch := None;
      if abort == Armed {
        abort := Aborted;
      }
    }

    method ReleaseVideo()
      modifies `screen, `live, `sharing, `cameraOn, `sender
      ensures live == old(live) - old(screen) && screen == {} && !sharing && !cameraOn && !sender
    {
      StopTracks(screen);
      screen, sharing, cameraOn, sender := {}, false, false, false;
    }

    method Teardown()
      modifies `pc, `openPcs, `local, `live, `placeholder
      ensures pc == None && local == None && placeholder == None
      ensures openPcs == if old(pc).Some? then old(openPcs) - {old(pc).value} else old(openPcs)
      ensures live == old(live) - (if old(local).Some? then old(local).value else {}) - Some1(old(placeholder))
    {
      if pc.Some? {
        openPcs := openPcs - {pc.value};
        pc := None;
      }
      StopTracks(if local.Some? then local.value else {});
      local := None;
      StopTracks(Some1(placeholder));
      placeholder := None;
    }

    method Fail(of: nat)
      modifies this
      ensures St() == CallEngine.Failing(old(St()), of)
    {
      if epoch != Some(of) {
        return;
      }
      EndCall();
      Notify(Failure);
    }

    // --- call setup ---

    method GetPlaceholder(made: Option<Track>)
      modifies `placeholder, `live, `seen
      ensures St() == CallEngine.WithPlaceholder(old(St()), made)
    {
      if placeholder == None && made.Some? {
        placeholder := made;
        live, seen := live + {made.value}, seen + {made.value};
      }
    }

    method AddLocalTracks(id: nat, of: nat, outgoing: bool, env: Env)
      modifies this
      ensures St() == CallEngine.AddTracks(old(St()), id, of, outgoing, env)
    {
      if local.Some? && OfKind(local.value, Video) != {} {
        if env.tracksThrow {
          Fail(of);
        } else {
          sender, cameraOn := env.senderFound, env.senderFound;
          Await(id, Setup(of, outgoing, Tracks(false)));
        }
      } else {
        GetPlaceholder(env.placeholder);
        NegotiateVideoSender(id, of, outgoing, env);
      }
    }

    method NegotiateVideoSender(id: nat, of: nat, outgoing: bool, env: Env)
      modifies this
      ensures St() == CallEngine.NegotiateVideo(old(St()), id, of, outgoing, env)
    {
      if env.tracksThrow {
        Fail(of);
        return;
      }
      sender := outgoing || env.senderFound;
      if env.awaits {
        Await(id, Setup(of, outgoing, Tracks(true)));
      } else {
        cameraOn := false;
        Await(id, Setup(of, outgoing, Tracks(false)));
      }
    }

    method CreatePeerConnection(id: nat, of: nat, outgoing: bool, env: Env)
      modifies this
      ensures St() == CallEngine.Connect(old(St()), id, of, outgoing, env)
    {
      if env.pc == None {
        Fail(of);
        return;
      }
      pc, openPcs := env.pc, openPcs + {env.pc.value};
      if env.channelsThrow {
        Fail(of);
      } else if outgoing {
        AddLocalTracks(id, of, outgoing, env);
      } else {
        Await(id, Setup(of, outgoing, SetRemote));
      }
    }

    method NotifyLocalTrackChanged(audio: Option<Track>, video: Option<Track>)
      modifies `log
      ensures St() == CallEngine.NotifyLocal(old(St()), audio, video)
    {
      if audio.Some? {
        Notify(LocalTrack(audio.value));
      }
      if video.Some? {
        Notify(LocalVideo(video));
      }
    }

    method FlushCameraStartError(of: nat)
      modifies `log, `cameraError
      ensures St() == CallEngine.FlushCameraError(old(St()), of)
    {
      var failed := cameraError;
      cameraError := false;
      if failed && epoch == Some(of) && state != CS.Ended {
        Notify(DeviceError);
      }
    }

    method AdoptStream(id: nat, of: nat, outgoing: bool, audio: Option<Track>, video: Option<Track>, env: Env)
      modifies this
      ensures St() == CallEngine.Adopt(old(St()), id, of, outgoing, audio, video, env)
    {
      if epoch != Some(of) || state == CS.Ended {
        StopTracks(Some1(audio) + Some1(video)); // resolved after hang up
        return;
      }
      local := Some(Some1(audio) + Some1(video));
      NotifyLocalTrackChanged(audio, video);
      FlushCameraStartError(of);
      CreatePeerConnection(id, of, outgoing, env);
    }

    method MaybePromote(of: nat, connected: bool)
      modifies `state, `log
      ensures St() == CallEngine.Promote(old(St()), of, connected)
    {
      if epoch == Some(of) && state != CS.Ended && connected {
        var _ := MoveTo(CS.Connected);
      }
    }

    method ContinueSetup(id: nat, of: nat, outgoing: bool, stage: Stage, a: Answer, env: Env)
      requires !stage.Acquire? && !stage.Retry?
      modifies this
      ensures St() == CallEngine.ResumeSetup(old(St()), id, of, outgoing, stage, a, env)
    {
      if a.Threw? {
        Fail(of);
        return;
      }
      if stage.Tracks? && stage.placeholder {
        cameraOn := false;
      }
      if epoch != Some(of) || state == CS.Ended {
        return;
      }
      match stage
      case SetRemote => AddLocalTracks(id, of, outgoing, env);
      case Tracks(_) => Await(id, Setup(of, outgoing, Create));
      case Create => Await(id, Setup(of, outgoing, SetLocal));
      case SetLocal => Await(id, Setup(of, outgoing, Gather));
      case Gather =>
        if outgoing {
          Notify(LocalOffer);
        } else {
          Notify(LocalAnswer);
          MaybePromote(of, env.connected);
        }
      case _ =>
    }

    method AcquireSetup(id: nat, of: nat, outgoing: bool, stage: Stage, a: Answer, env: Env)
      requires stage.Acquire? || stage.Retry?
      modifies this
      ensures St() == CallEngine.ResumeSetup(old(St()), id, of, outgoing, stage, a, env)
    {
      if a.Stream? {
        if stage.Retry? {
          cameraError := true;
        }
        AdoptStream(id, of, outgoing, a.audio, a.video, env);
      } else if stage.Acquire? && stage.video {
        Await(id, Setup(of, outgoing, Retry));
      } else {
        Fail(of);
      }
    }

    // --- switching ---

    method StopThese(ts: set<Track>)
      modifies `live
      ensures St() == CallEngine.Stop(old(St()), ts)
    {
      StopTracks(ts);
    }

    method StopAndReport(ts: set<Track>, report: Callback)
      modifies `live, `log
      ensures St() == CallEngine.Log(CallEngine.Stop(old(St()), ts), report)
    {
      StopTracks(ts);
      Notify(report);
    }

    method ReplaceAcquired(id: nat, of: nat, got: Option<Track>, ts: set<Track>, ready: bool, f: Frame, report: Callback)
      modifies `live, `log, `frames
      ensures St() == CallEngine.Replacing(old(St()), id, of, got, ts, ready, f, report)
    {
      if epoch != Some(of) || state == CS.Ended {
        StopThese(ts);
        return;
      }
      if got == None || !ready {
        StopAndReport(ts, report);
        return;
      }
      Await(id, f);
    }

    method SwapLocalAudioTrack(t: Track)
      modifies `live, `local
      ensures var e := old(St());
              var prior := OfKind(LocalTracks(e), Audio);
              St() == e.(local := Some(LocalTracks(e) - prior + {t}), live := e.live - prior)
    {
      if local.Some? {
        RemoveTracks(Audio);
        local := Some(local.value + {t});
      } else {
        assert OfKind(LocalTracks(St()), Audio) == {};
        assert LocalTracks(St()) - {} + {t} == {t} && live - {} == live;
        local := Some({t});
      }
    }

    method MicReplaced(of: nat, t: Track, a: Answer)
      modifies `live, `log, `local
      ensures St() == CallEngine.ResumeMicReplace(old(St()), of, t, a)
    {
      if a.Threw? {
        StopAndReport({t}, DeviceError);
      } else if epoch != Some(of) || state == CS.Ended {
        StopTracks({t});
      } else {
        SwapLocalAudioTrack(t);
        Notify(LocalTrack(t));
      }
    }

    method CameraReplaced(of: nat, t: Track, a: Answer)
      modifies `live, `log, `local, `cameraOn
      ensures St() == CallEngine.ResumeCamReplace(old(St()), of, t, a)
    {
      if a.Threw? {
        StopAndReport({t}, DeviceError);
      } else if epoch != Some(of) || state == CS.Ended {
        StopTracks({t});
      } else {
        AdoptCamera(t);
      }
    }

    method AdoptCamera(t: Track)
      modifies `live, `log, `local, `cameraOn
      ensures St() == CallEngine.Log(CallEngine.SwapVideo(old(St()), t).(cameraOn := true), LocalVideo(Some(t)))
    {
      SwapLocalVideoTrack(t);
      cameraOn := true;
      Notify(LocalVideo(Some(t)));
    }

    method AdoptShare(t: Track)
      modifies `live, `log, `local, `cameraOn, `screen, `sharing
      ensures var e1 := CallEngine.SwapVideo(old(St()), t).(screen := {t}, sharing := true, cameraOn := false);
              St() == CallEngine.Log(CallEngine.Log(e1, ShareChanged(true)), LocalVideo(Some(t)))
    {
      SwapLocalVideoTrack(t);
      screen, sharing, cameraOn := {t}, true, false;
      Notify(ShareChanged(true));
      Notify(LocalVideo(Some(t)));
    }

    method ShareReplaced(of: nat, t: Track, a: Answer)
      modifies `live, `log, `local, `cameraOn, `screen, `sharing
      ensures St() == CallEngine.ResumeShareReplace(old(St()), of, t, a)
    {
      if a.Threw? {
        StopAndReport({t}, ShareError);
      } else if epoch != Some(of) || state == CS.Ended {
        StopTracks({t});
      } else {
        AdoptShare(t);
      }
    }

    method ShareStopped(id: nat, of: nat, thenCamera: Option<bool>, a: Answer)
      modifies `live, `log, `local, `frames
      ensures St() == CallEngine.ResumeShareStop(old(St()), id, of, thenCamera, a)
    {
      if a.Threw? {
        Notify(ShareError);
      } else if epoch == Some(of) && state != CS.Ended {
        RemoveLocalVideoTracks();
        Notify(LocalVideo(None));
      }
      if thenCamera.Some? {
        Await(id, CamContinue(of, thenCamera.value));
      }
    }

    method StopCapture()
      modifies `live, `screen, `sharing, `log
      ensures St() == CallEngine.Log(CallEngine.Stop(old(St()), old(screen)).(screen := {}, sharing := false), ShareChanged(false))
    {
      StopTracks(screen);
      screen, sharing := {}, false;
      Notify(ShareChanged(false));
    }

    method StopSharingNow(id: nat, thenCamera: Option<bool>)
      modifies this
      ensures St() == CallEngine.StopSharing(old(St()), id, thenCamera)
    {
      if !sharing {
        return;
      }
      StopCapture();
      if epoch == None || state == CS.Ended || !sender {
        return;
      }
      Await(id, ShareStop(epoch.value, thenCamera));
    }

    // --- the calls of the owner ---

    method PlaceCall(id: nat)
      requires Valid() && id !in frames
      modifies this
      ensures Valid() && St() == After(old(St()), Call(id, Place))
    {
      CallEngineRuns.StepKeepsTidy(St(), Call(id, Place));
      if state != CS.Idle {
        return; // throws
      }
      direction := Some(Outgoing);
      BeginEpoch();
      var _ := MoveTo(CS.Ringing);
      Await(id, Setup(epoch.value, true, Acquire(wantsVideo)));
    }

    /** `receiveCall`: consent starts audio-only, whatever the caller asked. */
    method ReceiveCall(id: nat)
      requires Valid() && id !in frames
      modifies this
      ensures Valid() && St() == After(old(St()), Call(id, Receive))
    {
      CallEngineRuns.StepKeepsTidy(St(), Call(id, Receive));
      if state != CS.Idle {
        return; // throws
      }
      direction, wantsVideo := Some(Incoming), false;
      BeginEpoch();
      var _ := MoveTo(CS.Ringing);
    }

    method AcceptCall(id: nat, withVideo: bool)
      requires Valid() && id !in frames
      modifies this
      ensures Valid() && St() == After(old(St()), Call(id, Accept(withVideo)))
    {
      CallEngineRuns.StepKeepsTidy(St(), Call(id, Accept(withVideo)));
      if direction != Some(Incoming) || state != CS.Ringing {
        return; // throws
      }
      if withVideo {
        wantsVideo := true;
      }
      var changed := MoveTo(CS.Connecting);
      if changed && epoch.Some? {
        Await(id, Setup(epoch.value, false, Acquire(wantsVideo)));
      }
    }

    method TakeAnswer(id: nat)
      requires Valid() && id !in frames
      modifies this
      ensures Valid() && St() == After(old(St()), Call(id, ProvideAnswer))
    {
      CallEngineRuns.StepKeepsTidy(St(), Call(id, ProvideAnswer));
      if state == CS.Ended || direction != Some(Outgoing) || pc == None {
        return; // ended, or throws
      }
      if state != CS.Ringing {
        return; // the transition is refused
      }
      var _ := MoveTo(CS.Connecting);
      if epoch.Some? {
        Await(id, Answering(epoch.value));
      }
    }

    method SwitchMicrophone(id: nat)
      requires Valid() && id !in frames
      modifies this
      ensures Valid() && St() == After(old(St()), Call(id, SwitchMic))
    {
      CallEngineRuns.StepKeepsTidy(St(), Call(id, SwitchMic));
      if epoch == None || state == CS.Ended {
        return;
      }
      if pc == None {
        Notify(DeviceError);
      } else {
        Await(id, MicAcquire(epoch.value));
      }
    }

    /** `switchCamera`: only a live camera is replaced. */
    method SwitchCameraDevice(id: nat)
      requires Valid() && id !in frames
      modifies this
      ensures Valid() && St() == After(old(St()), Call(id, SwitchCamera))
    {
      CallEngineRuns.StepKeepsTidy(St(), Call(id, SwitchCamera));
      if epoch == None || state == CS.Ended {
        return;
      }
      if sharing || !cameraOn {
        return;
      }
      if !sender {
        Notify(DeviceError);
      } else {
        Await(id, CamAcquire(epoch.value));
      }
    }

    method SetCameraEnabled(id: nat, on: bool)
      requires Valid() && id !in frames
      modifies this
      ensures Valid() && St() == After(old(St()), Call(id, SetCamera(on)))
    {
      CallEngineRuns.StepKeepsTidy(St(), Call(id, SetCamera(on)));
      if epoch == None || state == CS.Ended {
        return;
      }
      if !sender {
        Notify(DeviceError);
      } else if on != cameraOn {
        if sharing {
          StopSharingNow(id, Some(on));
        } else if on {
          Await(id, CamAcquire(epoch.value));
        } else {
          Await(id, CamOff(epoch.value));
        }
      }
    }

    method StartScreenShare(id: nat, available: bool)
      requires Valid() && id !in frames
      modifies this
      ensures Valid() && St() == After(old(St()), Call(id, StartShare(available)))
    {
      CallEngineRuns.StepKeepsTidy(St(), Call(id, StartShare(available)));
      if epoch == None || state == CS.Ended || sharing {
        return;
      }
      if !sender || !available {
        Notify(ShareError);
      } else {
        Await(id, ShareAcquire(epoch.value));
      }
    }

    method StopScreenShare(id: nat)
      requires Valid() && id !in frames
      modifies this
      ensures Valid() && St() == After(old(St()), Call(id, StopShare))
    {
      CallEngineRuns.StepKeepsTidy(St(), Call(id, StopShare));
      StopSharingNow(id, None);
    }

    method Hangup()
      requires Valid()
      modifies this
      ensures Valid() && St() == After(old(St()), End)
    {
      CallEngineRuns.StepKeepsTidy(St(), End);
      EndCall();
    }

    // --- the platform's answers ---

    method Acquired(id: nat, f: Frame, a: Answer, env: Env)
      requires f.MicAcquire? || f.CamAcquire? || f.ShareAcquire?
      modifies this
      ensures St() == CallEngine.ResumeFrame(old(St()), id, f, a, env)
    {
      var report := if f.ShareAcquire? then ShareError else DeviceError;
      if !a.Stream? {
        Notify(report);
        return;
      }
      var got := if f.MicAcquire? then a.audio else a.video;
      if got == None {
        ReplaceAcquired(id, f.epoch, None, {}, false, f, report);
        return;
      }
      var t := got.value;
      match f
      case MicAcquire(of) => ReplaceAcquired(id, of, got, {t}, env.senderFound, MicReplace(of, t), report);
      case CamAcquire(of) => ReplaceAcquired(id, of, got, {t}, true, CamReplace(of, t), report);
      case ShareAcquire(of) => ReplaceAcquired(id, of, got, {t}, true, ShareReplace(of, t), report);
    }

    method Continued(id: nat, f: Frame, a: Answer, env: Env)
      requires f.CamOff? || f.CamContinue? || f.Answering?
      modifies this
      ensures St() == CallEngine.ResumeFrame(old(St()), id, f, a, env)
    {
      if f.Answering? {
        if a.Threw? {
          Fail(f.epoch);
        } else {
          MaybePromote(f.epoch, env.connected);
        }
        return;
      }
      if f.CamOff? && a.Threw? {
        Notify(DeviceError);
        return;
      }
      if epoch != Some(f.epoch) || state == CS.Ended {
        return;
      }
      if f.CamOff? {
        RemoveLocalVideoTracks();
        cameraOn := false;
        Notify(LocalVideo(None));
      } else if f.on {
        Await(id, CamAcquire(f.epoch));
      } else {
        Await(id, CamOff(f.epoch));
      }
    }

    method Run(id: nat, f: Frame, a: Answer, env: Env)
      modifies this
      ensures St() == CallEngine.ResumeFrame(old(St()), id, f, a, env)
    {
      match f
      case Setup(of, outgoing, stage) =>
        if stage.Acquire? || stage.Retry? {
          AcquireSetup(id, of, outgoing, stage, a, env);
        } else {
          ContinueSetup(id, of, outgoing, stage, a, env);
        }
      case MicReplace(of, t) => MicReplaced(of, t, a);
      case CamReplace(of, t) => CameraReplaced(of, t, a);
      case ShareReplace(of, t) => ShareReplaced(of, t, a);
      case ShareStop(of, thenCamera) => ShareStopped(id, of, thenCamera, a);
      case CamOff(_) => Continued(id, f, a, env);
      case CamContinue(_, _) => Continued(id, f, a, env);
      case Answering(_) => Continued(id, f, a, env);
      case _ => Acquired(id, f, a, env);
    }

    method Take(id: nat, a: Answer)
      modifies `frames, `live, `seen
      ensures St() == CallEngine.Taken(old(St()), id, a)
    {
      frames := frames - {id};
      live, seen := live + StreamTracks(a), seen + StreamTracks(a);
    }

    /** A suspended operation is resumed with what its await resolved to. */
    method Settle(id: nat, a: Answer, env: Env)
      requires Valid() && Enabled(St(), Resume(id, a, env))
      modifies this
      ensures Valid() && St() == After(old(St()), Resume(id, a, env))
    {
      CallEngineRuns.StepKeepsTidy(St(), Resume(id, a, env));
      var f := frames[id];
      Take(id, a);
      Run(id, f, a, env);
    }

    method OnTrack()
      requires Valid()
      modifies this
      ensures Valid() && St() == After(old(St()), RemoteTrack)
    {
      CallEngineRuns.StepKeepsTidy(St(), RemoteTrack);
      if pc.Some? && state != CS.Ended {
        Notify(RemoteStream);
      }
    }

    method OnConnectionState(connected: bool, gone: bool)
      requires Valid()
      modifies this
      ensures Valid() && St() == After(old(St()), ConnectionState(connected, gone))
    {
      CallEngineRuns.StepKeepsTidy(St(), ConnectionState(connected, gone));
      if pc == None || state == CS.Ended {
        return;
      }
      if connected {
        var _ := MoveTo(CS.Connected);
      } else if gone {
        EndCall();
      }
    }
  }
}
