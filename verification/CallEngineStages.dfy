/** The stages of a call's setup, one after the other, when the platform does what
    it is asked (`audio-call.ts`). */
module CallEngineStages {
  import opened Wrappers
  import opened CallEngine
  import opened CallEngineSafety
  import opened CallEngineRuns
  import opened CallEngineSetup
  import CS = CallState

  predicate Works(env: Env) {
    env.pc.Some? && !env.channelsThrow && !env.tracksThrow
  }

  predicate HasVideo(ts: set<Track>) {
    OfKind(ts, Video) != {}
  }

  /** The local tracks `ts` are being sent: a camera's own sender, or the sender that
      waits for one, with the placeholder if there is one. */
  ghost predicate Sends(e: Engine, ts: set<Track>, outgoing: bool, env: Env, r: Engine, id: nat, epoch: nat) {
    && r.frames == e.frames[id := Setup(epoch, outgoing, Tracks(!HasVideo(ts) && env.awaits))]
    && (HasVideo(ts) ==> r.sender == r.cameraOn == env.senderFound && r.placeholder == e.placeholder && r.live == e.live)
    && (!HasVideo(ts) ==>
          && r.sender == (outgoing || env.senderFound) && r.cameraOn == (env.awaits && e.cameraOn)
          && r.placeholder == (if e.placeholder.Some? then e.placeholder else env.placeholder)
          && r.live == e.live + (if e.placeholder.Some? then {} else Some1(env.placeholder)))
  }

  ghost predicate SameCall(e: Engine, r: Engine) {
    r.state == e.state && r.direction == e.direction && r.epoch == e.epoch && r.abort == e.abort && r.sharing == e.sharing && r.screen == e.screen
  }

  lemma WithPlaceholderIs(e: Engine, made: Option<Track>)
    ensures var p := WithPlaceholder(e, made);
            && p.placeholder == (if e.placeholder.Some? then e.placeholder else made)
            && p.live == e.live + (if e.placeholder.Some? then {} else Some1(made))
            && p == e.(placeholder := p.placeholder, live := p.live, seen := p.seen)
  {
    assert e.live + {} == e.live && e.seen + {} == e.seen;
  }

  ghost predicate SendsAsIs(e: Engine, r: Engine) {
    SameCall(e, r) && r.local == e.local && r.pc == e.pc && r.log == e.log
  }

  lemma CameraSends(e: Engine, id: nat, epoch: nat, outgoing: bool, env: Env)
    requires !env.tracksThrow && e.local.Some? && HasVideo(LocalTracks(e))
    ensures var r := AddTracks(e, id, epoch, outgoing, env);
            Sends(e, LocalTracks(e), outgoing, env, r, id, epoch) && SendsAsIs(e, r)
  {
    assert AddTracks(e, id, epoch, outgoing, env) ==
           e.(sender := env.senderFound, cameraOn := env.senderFound, frames := e.frames[id := Setup(epoch, outgoing, Tracks(false))]);
  }

  lemma PlaceholderSends(e: Engine, id: nat, epoch: nat, outgoing: bool, env: Env)
    requires !env.tracksThrow && e.local.Some? && !HasVideo(LocalTracks(e))
    ensures var r := AddTracks(e, id, epoch, outgoing, env);
            Sends(e, LocalTracks(e), outgoing, env, r, id, epoch) && SendsAsIs(e, r)
  {
    WithPlaceholderIs(e, env.placeholder);
    var p := WithPlaceholder(e, env.placeholder);
    assert AddTracks(e, id, epoch, outgoing, env) ==
           p.(sender := outgoing || env.senderFound, cameraOn := env.awaits && e.cameraOn,
              frames := e.frames[id := Setup(epoch, outgoing, Tracks(env.awaits))]);
  }

  lemma Sending(e: Engine, id: nat, epoch: nat, outgoing: bool, env: Env)
    requires !env.tracksThrow && e.local.Some?
    ensures var r := AddTracks(e, id, epoch, outgoing, env);
            Sends(e, LocalTracks(e), outgoing, env, r, id, epoch) && SendsAsIs(e, r)
  {
    if HasVideo(LocalTracks(e)) {
      CameraSends(e, id, epoch, outgoing, env);
    } else {
      PlaceholderSends(e, id, epoch, outgoing, env);
    }
  }

  /** What the owner is told when the first stream arrives. */
  function Announced(a: Answer, cameraFailed: bool): seq<Callback>
    requires a.Stream?
  {
    (if a.audio.Some? then [LocalTrack(a.audio.value)] else []) + (if a.video.Some? then [LocalVideo(a.video)] else [])
    + if cameraFailed then [DeviceError] else []
  }

  /** The engine that has the first stream and its connection. */
  function Joined(e: Engine, a: Answer, pc: nat, cameraFailed: bool): Engine
    requires a.Stream?
  {
    e.(local := Some(StreamTracks(a)), cameraError := false, log := e.log + Announced(a, cameraFailed),
       pc := Some(pc), openPcs := e.openPcs + {pc})
  }

  lemma JoinedIs(e: Engine, epoch: nat, a: Answer, pc: nat)
    requires a.Stream? && IsActive(e, epoch)
    ensures CreateConnection(FlushCameraError(NotifyLocal(e.(local := Some(Some1(a.audio) + Some1(a.video))), a.audio, a.video), epoch), pc)
            == Joined(e, a, pc, e.cameraError)
  {
    NotifyLogs(e.(local := Some(Some1(a.audio) + Some1(a.video))), epoch, a.audio, a.video);
  }

  lemma AdoptIs(e: Engine, id: nat, epoch: nat, outgoing: bool, a: Answer, env: Env)
    requires a.Stream? && IsActive(e, epoch) && Works(env)
    ensures var j := Joined(e, a, env.pc.value, e.cameraError);
            Adopt(e, id, epoch, outgoing, a.audio, a.video, env) ==
              if outgoing then AddTracks(j, id, epoch, true, env) else Suspend(j, id, Setup(epoch, false, SetRemote))
  {
    JoinedIs(e, epoch, a, env.pc.value);
  }

  /** The first stream of a live call: it becomes what is sent, it is announced, a
      connection is made for it, and a camera that could not be had is reported.
      A caller goes on to its senders, a callee to the caller's description. */
  lemma StreamArrives(e: Engine, id: nat, a: Answer, env: Env)
    requires Tidy(e) && Enabled(e, Resume(id, a, env)) && e.frames[id].Setup? && IsActive(e, e.frames[id].epoch)
    requires a.Stream? && Works(env)
    ensures var f, r := e.frames[id], After(e, Resume(id, a, env));
            var j := Joined(Taken(e, id, a), a, env.pc.value, e.cameraError || f.stage.Retry?);
            if f.outgoing then
              Sends(j, StreamTracks(a), true, env, r, id, f.epoch) && SameCall(e, r)
              && r.local == Some(StreamTracks(a)) && r.pc == env.pc && r.log == j.log
            else r == j.(frames := j.frames[id := Setup(f.epoch, false, SetRemote)])
  {
    var f, e0 := e.frames[id], Taken(e, id, a);
    var e1 := if f.stage.Retry? then e0.(cameraError := true) else e0;
    AdoptIs(e1, id, f.epoch, f.outgoing, a, env);
    var j := Joined(e1, a, env.pc.value, e1.cameraError);
    assert j == Joined(e0, a, env.pc.value, e.cameraError || f.stage.Retry?);
    assert Resumed(e, id, a, env) == Adopt(e1, id, f.epoch, f.outgoing, a.audio, a.video, env);
    Sending(j, id, f.epoch, f.outgoing, env);
  }

  /** The callee has the caller's description: it sends its tracks too. */
  lemma RemoteIsSet(e: Engine, id: nat, env: Env)
    requires Tidy(e) && Enabled(e, Resume(id, Resolved, env)) && e.frames[id].Setup? && IsActive(e, e.frames[id].epoch)
    requires e.frames[id].stage.SetRemote? && Works(env)
    ensures var f, r := e.frames[id], After(e, Resume(id, Resolved, env));
            Sends(e.(frames := e.frames - {id}), LocalTracks(e), f.outgoing, env, r, id, f.epoch) && SameCall(e, r)
            && r.local == e.local && r.pc == e.pc && r.log == e.log
  {
    var f, e0 := e.frames[id], e.(frames := e.frames - {id});
    assert e.live + {} == e.live && e.seen + {} == e.seen;
    Sending(e0, id, f.epoch, f.outgoing, env);
    assert Resumed(e, id, Resolved, env) == AddTracks(e0, id, f.epoch, f.outgoing, env);
  }

  function NextOf(s: Stage): Stage
    requires s.Tracks? || s.Create? || s.SetLocal?
  {
    if s.Tracks? then Create else if s.Create? then SetLocal else Gather
  }

  /** Then the description is created, set, and its candidates are gathered; in
      between nothing else of the call changes. */
  lemma StagesFollow(e: Engine, id: nat, env: Env)
    requires Tidy(e) && Enabled(e, Resume(id, Resolved, env)) && e.frames[id].Setup? && IsActive(e, e.frames[id].epoch)
    requires var s := e.frames[id].stage; s.Tracks? || s.Create? || s.SetLocal?
    ensures var f := e.frames[id];
            After(e, Resume(id, Resolved, env)) ==
              e.(frames := (e.frames - {id})[id := Setup(f.epoch, f.outgoing, NextOf(f.stage))],
                 cameraOn := e.cameraOn && f.stage != Tracks(true))
  {
    assert e.live + {} == e.live && e.seen + {} == e.seen;
  }

  /** A call begins in its direction, under a new epoch: the caller's at once with a
      request for its devices, the callee's when it accepts. */
  lemma CallBegins(e: Engine, id: nat, placed: bool)
    requires Tidy(e) && e.state == CS.Idle && Enabled(e, Call(id, if placed then Place else Receive))
    ensures var r := After(e, Call(id, if placed then Place else Receive));
            && r.state == CS.Ringing && r.direction == Some(if placed then Outgoing else Incoming)
            && r.epoch == Some(e.epochs) && r.epochs == e.epochs + 1 && r.abort == Armed
            && r.wantsVideo == (placed && e.wantsVideo) && r.log == e.log + [StateChange(CS.Idle, CS.Ringing)]
            && r.frames == if placed then map[id := Setup(e.epochs, true, Acquire(e.wantsVideo))] else map[]
  {
  }

  lemma CallIsAccepted(e: Engine, id: nat, withVideo: bool)
    requires Tidy(e) && Enabled(e, Call(id, Accept(withVideo))) && e.state == CS.Ringing && e.direction == Some(Incoming)
    ensures var r := After(e, Call(id, Accept(withVideo)));
            && r.state == CS.Connecting && r.wantsVideo == (e.wantsVideo || withVideo) && r.epoch == e.epoch
            && r.log == e.log + [StateChange(CS.Ringing, CS.Connecting)]
            && r.frames == map[id := Setup(e.epoch.value, false, Acquire(e.wantsVideo || withVideo))]
  {
  }

  /** The callee's answer is applied once: in any other state it is ignored. */
  lemma AnswerIsApplied(e: Engine, id: nat)
    requires Tidy(e) && Enabled(e, Call(id, ProvideAnswer))
    ensures var r := After(e, Call(id, ProvideAnswer));
            if e.state == CS.Ringing && e.direction == Some(Outgoing) && e.pc.Some? then
              r == e.(state := CS.Connecting, log := e.log + [StateChange(CS.Ringing, CS.Connecting)],
                      frames := e.frames[id := Answering(e.epoch.value)])
            else r == e
  {
  }
}
