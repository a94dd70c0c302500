/** The call engine as a step system (`audio-call.ts`).

    An async method is cut at its awaits.  Between two cuts the page runs without
    interruption; at a cut the method is a suspended `Frame`, and any other event
    may come first: another call, an answer to another frame, `end()`. */
module CallEngine {
  import opened Wrappers
  import CS = CallState

  datatype Kind = Audio | Video
  datatype Track = Track(id: nat, kind: Kind)
  datatype Direction = Outgoing | Incoming

  /** Where the setup of a call (`placeCall`, `accept`) is suspended. */
  datatype Stage =
    | Acquire(video: bool)  // getUserMedia
    | Retry                 // audio-only after a failed audio+video attempt
    | SetRemote             // incoming: setRemoteDescription
    | Tracks(placeholder: bool) // addLocalTracks; a placeholder is being attached
    | Create                // createOffer / createAnswer
    | SetLocal              // setLocalDescription
    | Gather                // ICE gathering

  /** A suspended async operation and the epoch it captured. */
  datatype Frame =
    | Setup(epoch: nat, outgoing: bool, stage: Stage)
    | Answering(epoch: nat)
    | MicAcquire(epoch: nat)
    | MicReplace(epoch: nat, track: Track)
    | CamAcquire(epoch: nat)
    | CamReplace(epoch: nat, track: Track)
    | CamOff(epoch: nat)
    | CamContinue(epoch: nat, on: bool) // setCameraEnabled after it stopped a share
    | ShareAcquire(epoch: nat)
    | ShareReplace(epoch: nat, track: Track)
    | ShareStop(epoch: nat, thenCamera: Option<bool>)

  datatype Callback =
    | StateChange(from: CS.State, to: CS.State)
    | LocalOffer | LocalAnswer | RemoteStream
    | LocalTrack(track: Track) | LocalVideo(video: Option<Track>)
    | Failure | DeviceError | ShareError | ShareChanged(on: bool)

  datatype Abort = NoController | Armed | Aborted

  datatype Engine = Engine(
    state: CS.State,
    direction: Option<Direction>,
    wantsVideo: bool,
    epoch: Option<nat>,
    epochs: nat,
    pc: Option<nat>,
    openPcs: set<nat>,
    local: Option<set<Track>>,
    screen: set<Track>,
    placeholder: Option<Track>,
    sender: bool,
    sharing: bool,
    cameraOn: bool,
    cameraError: bool,
    abort: Abort,
    frames: map<nat, Frame>,
    live: set<Track>,   // acquired and not stopped
    seen: set<Track>,   // ever acquired
    log: seq<Callback>)

  datatype Request =
    | Place | Receive | Accept(withVideo: bool) | ProvideAnswer
    | SwitchMic | SwitchCamera | SetCamera(on: bool) | StartShare(available: bool) | StopShare

  /** What an await resolved to. */
  datatype Answer = Stream(audio: Option<Track>, video: Option<Track>) | Resolved | Threw

  /** What synchronous platform calls in the resumed stretch do. */
  datatype Env = Env(
    pc: Option<nat>,            // the connection created, None if that throws
    channelsThrow: bool,        // createDataChannel throws
    tracksThrow: bool,          // addTrack or addTransceiver throws
    placeholder: Option<Track>, // the placeholder factory's track, if there is one
    senderFound: bool,          // the wanted RTP sender exists
    awaits: bool,               // addLocalTracks awaits replaceTrack(placeholder)
    connected: bool)            // pc.connectionState is already connected

  datatype Event =
    | Call(id: nat, request: Request)
    | Resume(id: nat, answer: Answer, env: Env)
    | End
    | RemoteTrack
    | ConnectionState(connected: bool, gone: bool)

  // --- small steps ---

  function Some1(t: Option<Track>): set<Track> {
    match t case None => {} case Some(x) => {x}
  }

  function StreamTracks(a: Answer): set<Track> {
    match a case Stream(audio, video) => Some1(audio) + Some1(video) case _ => {}
  }

  function OfKind(ts: set<Track>, kind: Kind): set<Track> {
    set t | t in ts && t.kind == kind
  }

  function LocalTracks(e: Engine): set<Track> {
    match e.local case None => {} case Some(ts) => ts
  }

  /** `ensureActive(epoch)`. */
  predicate IsActive(e: Engine, epoch: nat) {
    e.epoch == Some(epoch) && e.state != CS.Ended
  }

  function Log(e: Engine, c: Callback): Engine {
    e.(log := e.log + [c])
  }

  function Stop(e: Engine, ts: set<Track>): Engine {
    e.(live := e.live - ts)
  }

  function Transition(e: Engine, to: CS.State): Engine {
    if to in CS.Allowed(e.state) then Log(e, StateChange(e.state, to)).(state := to) else e
  }

  /** What `end()` does once the state moved, `teardown()` included. */
  function Released(e: Engine): Engine {
    e.(epoch := None,
       abort := if e.abort == Armed then Aborted else e.abort,
       screen := {}, sharing := false, cameraOn := false, sender := false,
       pc := None, openPcs := if e.pc.Some? then e.openPcs - {e.pc.value} else e.openPcs,
       local := None, placeholder := None,
       live := e.live - e.screen - LocalTracks(e) - Some1(e.placeholder))
  }

  function Ending(e: Engine): Engine {
    if e.state == CS.Ended then e else Released(Transition(e, CS.Ended))
  }

  /** `fail(epoch, error)`: only the owner of the epoch may tear down and report. */
  function Failing(e: Engine, epoch: nat): Engine {
    if e.epoch == Some(epoch) then Log(Ending(e), Failure) else e
  }

  function BeginEpoch(e: Engine): Engine {
    e.(epoch := Some(e.epochs), epochs := e.epochs + 1, abort := Armed)
  }

  function SwapVideo(e: Engine, t: Track): Engine {
    match e.local
    case None => e
    case Some(ts) =>
      var old_ := OfKind(ts, Video);
      e.(local := Some(ts - old_ + {t}), live := e.live - old_)
  }

  function DropVideo(e: Engine): Engine {
    match e.local
    case None => e
    case Some(ts) => e.(local := Some(ts - OfKind(ts, Video)), live := e.live - OfKind(ts, Video))
  }

  function Suspend(e: Engine, id: nat, f: Frame): Engine {
    e.(frames := e.frames[id := f])
  }

  // --- call setup ---

  /** `getPlaceholderTrack()`: made once, kept until teardown. */
  function WithPlaceholder(e: Engine, made: Option<Track>): Engine {
    if e.placeholder == None && made.Some? then
      e.(placeholder := made, live := e.live + Some1(made), seen := e.seen + Some1(made))
    else e
  }

  /** The video sender of a call that starts without a camera. */
  function NegotiateVideo(e: Engine, id: nat, epoch: nat, outgoing: bool, env: Env): Engine {
    if env.tracksThrow then Failing(e, epoch)
    else if env.awaits then
      Suspend(e.(sender := outgoing || env.senderFound), id, Setup(epoch, outgoing, Tracks(true)))
    else
      Suspend(e.(sender := outgoing || env.senderFound, cameraOn := false), id, Setup(epoch, outgoing, Tracks(false)))
  }

  /** `addLocalTracks` up to its await. */
  function AddTracks(e: Engine, id: nat, epoch: nat, outgoing: bool, env: Env): Engine {
    if OfKind(LocalTracks(e), Video) == {} then
      NegotiateVideo(WithPlaceholder(e, env.placeholder), id, epoch, outgoing, env)
    else if env.tracksThrow then Failing(e, epoch)
    else Suspend(e.(sender := env.senderFound, cameraOn := env.senderFound), id, Setup(epoch, outgoing, Tracks(false)))
  }

  function CreateConnection(e: Engine, pc: nat): Engine {
    e.(pc := Some(pc), openPcs := e.openPcs + {pc})
  }

  function NotifyLocal(e: Engine, audio: Option<Track>, video: Option<Track>): Engine {
    e.(log := e.log + (if audio.Some? then [LocalTrack(audio.value)] else [])
                    + (if video.Some? then [LocalVideo(video)] else []))
  }

  function FlushCameraError(e: Engine, epoch: nat): Engine {
    e.(cameraError := false, log := e.log + if e.cameraError && IsActive(e, epoch) then [DeviceError] else [])
  }

  /** The peer connection, and the next await of the setup. */
  function Connect(e: Engine, id: nat, epoch: nat, outgoing: bool, env: Env): Engine {
    if env.pc == None then Failing(e, epoch)
    else
      var e1 := CreateConnection(e, env.pc.value);
      if env.channelsThrow then Failing(e1, epoch)
      else if outgoing then AddTracks(e1, id, epoch, outgoing, env)
      else Suspend(e1, id, Setup(epoch, outgoing, SetRemote))
  }

  /** The initial stream arrived. */
  function Adopt(e: Engine, id: nat, epoch: nat, outgoing: bool, audio: Option<Track>, video: Option<Track>, env: Env): Engine {
    var ts := Some1(audio) + Some1(video);
    if !IsActive(e, epoch) then Stop(e, ts)
    else Connect(FlushCameraError(NotifyLocal(e.(local := Some(ts)), audio, video), epoch), id, epoch, outgoing, env)
  }

  function Promote(e: Engine, epoch: nat, connected: bool): Engine {
    if IsActive(e, epoch) && connected then Transition(e, CS.Connected) else e
  }

  function ResumeSetup(e: Engine, id: nat, epoch: nat, outgoing: bool, stage: Stage, a: Answer, env: Env): Engine {
    match stage
    case Acquire(video) =>
      if a.Stream? then Adopt(e, id, epoch, outgoing, a.audio, a.video, env)
      else if video then Suspend(e, id, Setup(epoch, outgoing, Retry))
      else Failing(e, epoch)
    case Retry =>
      if a.Stream? then Adopt(e.(cameraError := true), id, epoch, outgoing, a.audio, a.video, env) else Failing(e, epoch)
    case SetRemote =>
      if a.Threw? then Failing(e, epoch)
      else if !IsActive(e, epoch) then e
      else AddTracks(e, id, epoch, outgoing, env)
    case Tracks(placeholder) =>
      if a.Threw? then Failing(e, epoch)
      else
        var e1 := if placeholder then e.(cameraOn := false) else e;
        if !IsActive(e1, epoch) then e1 else Suspend(e1, id, Setup(epoch, outgoing, Create))
    case Create =>
      if a.Threw? then Failing(e, epoch)
      else if !IsActive(e, epoch) then e
      else Suspend(e, id, Setup(epoch, outgoing, SetLocal))
    case SetLocal =>
      if a.Threw? then Failing(e, epoch)
      else if !IsActive(e, epoch) then e
      else Suspend(e, id, Setup(epoch, outgoing, Gather))
    case Gather =>
      if a.Threw? then Failing(e, epoch)
      else if !IsActive(e, epoch) then e
      else if outgoing then Log(e, LocalOffer)
      else Promote(Log(e, LocalAnswer), epoch, env.connected)
  }

  // --- device switching and screen share ---

  /** A stream acquired mid-call: check the epoch, take its one track, start the
      replacement; otherwise stop it and report. */
  function Replacing(e: Engine, id: nat, epoch: nat, got: Option<Track>, ts: set<Track>, ready: bool, f: Frame, report: Callback): Engine {
    if !IsActive(e, epoch) then Stop(e, ts)
    else if got == None || !ready then Log(Stop(e, ts), report)
    else Suspend(e, id, f)
  }

  function ResumeMicReplace(e: Engine, epoch: nat, t: Track, a: Answer): Engine {
    if a.Threw? then Log(Stop(e, {t}), DeviceError)
    else if !IsActive(e, epoch) then Stop(e, {t})
    else
      var prior := OfKind(LocalTracks(e), Audio);
      Log(e.(local := Some(LocalTracks(e) - prior + {t}), live := e.live - prior), LocalTrack(t))
  }

  function ResumeCamReplace(e: Engine, epoch: nat, t: Track, a: Answer): Engine {
    if a.Threw? then Log(Stop(e, {t}), DeviceError)
    else if !IsActive(e, epoch) then Stop(e, {t})
    else Log(SwapVideo(e, t).(cameraOn := true), LocalVideo(Some(t)))
  }

  function ResumeShareReplace(e: Engine, epoch: nat, t: Track, a: Answer): Engine {
    if a.Threw? then Log(Stop(e, {t}), ShareError)
    else if !IsActive(e, epoch) then Stop(e, {t})
    else
      var e1 := SwapVideo(e, t).(screen := {t}, sharing := true, cameraOn := false);
      Log(Log(e1, ShareChanged(true)), LocalVideo(Some(t)))
  }

  function ResumeShareStop(e: Engine, id: nat, epoch: nat, thenCamera: Option<bool>, a: Answer): Engine {
    var e1 :=
      if a.Threw? then Log(e, ShareError)
      else if !IsActive(e, epoch) then e
      else Log(DropVideo(e), LocalVideo(None));
    if thenCamera.Some? then Suspend(e1, id, CamContinue(epoch, thenCamera.value)) else e1
  }

  /** `stopScreenShare()` up to its await: the capture stops unconditionally. */
  function StopSharing(e: Engine, id: nat, thenCamera: Option<bool>): Engine {
    if !e.sharing then e
    else
      var e1 := Log(Stop(e, e.screen).(screen := {}, sharing := false), ShareChanged(false));
      if e.epoch == None || e.state == CS.Ended || !e.sender then e1
      else Suspend(e1, id, ShareStop(e.epoch.value, thenCamera))
  }

  // --- events ---

  /** The track an answer delivers to a frame that asked for one kind only. */
  function AskedFor(f: Frame): set<Kind> {
    match f
    case Setup(_, _, Acquire(video)) => if video then {Audio, Video} else {Audio}
    case Setup(_, _, Retry) => {Audio}
    case MicAcquire(_) => {Audio}
    case CamAcquire(_) => {Video}
    case ShareAcquire(_) => {Video}
    case _ => {}
  }

  /** Fresh tracks of the kinds asked for, at most one each; fresh platform objects. */
  predicate Enabled(e: Engine, ev: Event) {
    match ev
    case Call(id, _) => id !in e.frames
    case Resume(id, a, env) =>
      && id in e.frames
      && (a.Stream? ==>
            && AskedFor(e.frames[id]) != {}
            && StreamTracks(a) !! e.seen
            && (a.audio.Some? ==> a.audio.value.kind == Audio && Audio in AskedFor(e.frames[id]))
            && (a.video.Some? ==> a.video.value.kind == Video && Video in AskedFor(e.frames[id])))
      && (a.Resolved? ==> AskedFor(e.frames[id]) == {})
      && (env.pc.Some? ==> env.pc.value !in e.openPcs)
      && (env.placeholder.Some? ==>
            env.placeholder.value.kind == Video && env.placeholder.value !in e.seen + StreamTracks(a))
    case _ => true
  }

  /** The state a resumed frame starts from. */
  function Taken(e: Engine, id: nat, a: Answer): Engine {
    e.(frames := e.frames - {id}, live := e.live + StreamTracks(a), seen := e.seen + StreamTracks(a))
  }

  function Resumed(e: Engine, id: nat, a: Answer, env: Env): Engine
    requires id in e.frames
  {
    ResumeFrame(Taken(e, id, a), id, e.frames[id], a, env)
  }

  /** The stretch from the await of `f` to its next await or its end. */
  function ResumeFrame(e0: Engine, id: nat, f: Frame, a: Answer, env: Env): Engine {
    match f
    case Setup(epoch, outgoing, stage) => ResumeSetup(e0, id, epoch, outgoing, stage, a, env)
    case Answering(epoch) => if a.Threw? then Failing(e0, epoch) else Promote(e0, epoch, env.connected)
    case MicAcquire(epoch) =>
      if !a.Stream? then Log(e0, DeviceError)
      else if a.audio == None then Replacing(e0, id, epoch, None, {}, false, f, DeviceError)
      else Replacing(e0, id, epoch, a.audio, {a.audio.value}, env.senderFound, MicReplace(epoch, a.audio.value), DeviceError)
    case MicReplace(epoch, t) => ResumeMicReplace(e0, epoch, t, a)
    case CamAcquire(epoch) =>
      if !a.Stream? then Log(e0, DeviceError)
      else if a.video == None then Replacing(e0, id, epoch, None, {}, false, f, DeviceError)
      else Replacing(e0, id, epoch, a.video, {a.video.value}, true, CamReplace(epoch, a.video.value), DeviceError)
    case CamReplace(epoch, t) => ResumeCamReplace(e0, epoch, t, a)
    case CamOff(epoch) =>
      if a.Threw? then Log(e0, DeviceError)
      else if !IsActive(e0, epoch) then e0
      else Log(DropVideo(e0).(cameraOn := false), LocalVideo(None))
    case CamContinue(epoch, on) =>
      if !IsActive(e0, epoch) then e0
      else Suspend(e0, id, if on then CamAcquire(epoch) else CamOff(epoch))
    case ShareAcquire(epoch) =>
      if !a.Stream? then Log(e0, ShareError)
      else if a.video == None then Replacing(e0, id, epoch, None, {}, false, f, ShareError)
      else Replacing(e0, id, epoch, a.video, {a.video.value}, true, ShareReplace(epoch, a.video.value), ShareError)
    case ShareReplace(epoch, t) => ResumeShareReplace(e0, epoch, t, a)
    case ShareStop(epoch, thenCamera) => ResumeShareStop(e0, id, epoch, thenCamera, a)
  }

  function Called(e: Engine, id: nat, r: Request): Engine {
    var dead := e.epoch == None || e.state == CS.Ended;
    match r
    case Place =>
      if e.state != CS.Idle then e // throws
      else
        var e1 := Transition(BeginEpoch(e.(direction := Some(Outgoing))), CS.Ringing);
        Suspend(e1, id, Setup(e1.epoch.value, true, Acquire(e.wantsVideo)))
    case Receive =>
      if e.state != CS.Idle then e // throws
      else Transition(BeginEpoch(e.(direction := Some(Incoming), wantsVideo := false)), CS.Ringing)
    case Accept(withVideo) =>
      if e.direction != Some(Incoming) || e.state != CS.Ringing then e // throws
      else
        var e1 := Transition(e.(wantsVideo := e.wantsVideo || withVideo), CS.Connecting);
        if e.epoch == None then e1 else Suspend(e1, id, Setup(e.epoch.value, false, Acquire(e1.wantsVideo)))
    case ProvideAnswer =>
      if dead || e.direction != Some(Outgoing) || e.pc == None || e.state != CS.Ringing then e // ended, throws, or no-op
      else Suspend(Transition(e, CS.Connecting), id, Answering(e.epoch.value))
    case SwitchMic =>
      if dead then e
      else if e.pc == None then Log(e, DeviceError)
      else Suspend(e, id, MicAcquire(e.epoch.value))
    case SwitchCamera =>
      if dead || e.sharing || !e.cameraOn then e
      else if !e.sender then Log(e, DeviceError)
      else Suspend(e, id, CamAcquire(e.epoch.value))
    case SetCamera(on) =>
      if dead then e
      else if !e.sender then Log(e, DeviceError)
      else if on == e.cameraOn then e
      else if e.sharing then StopSharing(e, id, Some(on))
      else if on then Suspend(e, id, CamAcquire(e.epoch.value))
      else Suspend(e, id, CamOff(e.epoch.value))
    case StartShare(available) =>
      if dead || e.sharing then e
      else if !e.sender || !available then Log(e, ShareError)
      else Suspend(e, id, ShareAcquire(e.epoch.value))
    case StopShare => StopSharing(e, id, None)
  }

  function After(e: Engine, ev: Event): Engine
    requires Enabled(e, ev)
  {
    match ev
    case Call(id, r) => Called(e, id, r)
    case Resume(id, a, env) => Resumed(e, id, a, env)
    case End => Ending(e)
    case RemoteTrack => if e.pc.Some? && e.state != CS.Ended then Log(e, RemoteStream) else e
    case ConnectionState(connected, gone) =>
      if e.pc == None || e.state == CS.Ended then e
      else if connected then Transition(e, CS.Connected)
      else if gone then Ending(e) else e
  }

  /** A constructed engine. */
  predicate Fresh(e: Engine) {
    && e.state == CS.Idle && e.direction == None && e.epoch == None && e.pc == None && e.openPcs == {}
    && e.local == None && e.screen == {} && e.placeholder == None
    && !e.sender && !e.sharing && !e.cameraOn && !e.cameraError && e.abort == NoController
    && e.epochs == 0 && e.frames == map[] && e.live == {} && e.seen == {} && e.log == []
  }
}
