/** The RPC relay of the detached call window (`popup-signaling.ts`).

    The popup posts `rpc` messages, the opener runs the real client and posts
    `rpc-result` back.  The transport may delay, reorder, repeat or lose: whatever
    was posted can be delivered at any later time, any number of times. */
module PopupRpc {
  import opened Wrappers

  datatype Value = Undefined | Num(n: int) | Text(s: string) | Flag(b: bool) | Json(text: string)

  /** A call of the real client. */
  datatype Direct =
    | PlaceOutgoingCall(account: Value, chat: Value, info: Value, hasVideo: Value)
    | AcceptIncomingCall(account: Value, msg: Value, info: Value)
    | EndCall(account: Value, msg: Value)
    | IceServers(account: Value)
    | CallInfo(account: Value, msg: Value)

  datatype Outcome = Resolved(value: Value) | Rejected(error: string)

  datatype Rpc = Rpc(id: nat, name: string, args: seq<Value>)
  datatype Reply = Reply(id: nat, outcome: Outcome)

  const CLOSED := "PopupRpcClient: relay closed"

  /** What each client method posts. */
  function Encode(d: Direct): (string, seq<Value>) {
    match d
    case PlaceOutgoingCall(a, c, i, v) => ("placeOutgoingCall", [a, c, i, v])
    case AcceptIncomingCall(a, m, i) => ("acceptIncomingCall", [a, m, i])
    case EndCall(a, m) => ("endCall", [a, m])
    case IceServers(a) => ("iceServers", [a])
    case CallInfo(a, m) => ("callInfo", [a, m])
  }

  /** Reading past the end of a JavaScript array. */
  function Arg(args: seq<Value>, i: nat): Value {
    if i < |args| then args[i] else Undefined
  }

  /** `invokeRpc`; `None` for an unknown method. */
  function Invoke(name: string, args: seq<Value>): Option<Direct> {
    if name == "placeOutgoingCall" then
      Some(PlaceOutgoingCall(Arg(args, 0), Arg(args, 1), Arg(args, 2), Arg(args, 3)))
    else if name == "acceptIncomingCall" then Some(AcceptIncomingCall(Arg(args, 0), Arg(args, 1), Arg(args, 2)))
    else if name == "endCall" then Some(EndCall(Arg(args, 0), Arg(args, 1)))
    else if name == "iceServers" then Some(IceServers(Arg(args, 0)))
    else if name == "callInfo" then Some(CallInfo(Arg(args, 0), Arg(args, 1)))
    else None
  }

  lemma NamesDiffer()
    ensures "placeOutgoingCall" != "acceptIncomingCall" && "placeOutgoingCall" != "endCall"
            && "placeOutgoingCall" != "iceServers" && "placeOutgoingCall" != "callInfo"
    ensures "acceptIncomingCall" != "endCall" && "acceptIncomingCall" != "iceServers" && "acceptIncomingCall" != "callInfo"
    ensures "endCall" != "iceServers" && "endCall" != "callInfo" && "iceServers" != "callInfo"
  {
    assert "placeOutgoingCall"[0] == 'p' && "acceptIncomingCall"[0] == 'a' && "endCall"[0] == 'e';
    assert "iceServers"[0] == 'i' && "callInfo"[0] == 'c';
  }

  /** The opener calls the real client with exactly the popup's method and arguments. */
  lemma InvokeInvertsEncode(d: Direct)
    ensures Invoke(Encode(d).0, Encode(d).1) == Some(d)
  {
    NamesDiffer();
  }

  /** The only thing refused is a name that no client method posts under. */
  lemma RefusedExactly(name: string, args: seq<Value>)
    ensures Invoke(name, args).None? <==> forall d: Direct :: Encode(d).0 != name
  {
    if Invoke(name, args).None? {
      forall d: Direct ensures Encode(d).0 != name {
        NamesDiffer();
      }
    } else {
      assert Encode(Invoke(name, args).value).0 == name;
    }
  }

  /** Whether the real client is called with what was posted: exactly when as
      much was posted as the method takes.  Otherwise all of it is passed on and
      the rest arrives as `undefined`; nothing is refused for its arguments. */
  lemma HolesExactly(name: string, args: seq<Value>)
    requires Invoke(name, args).Some?
    ensures var d := Invoke(name, args).value;
            && Encode(d).0 == name
            && (Encode(d).1 <= args <==> |Encode(d).1| <= |args|)
            && (|args| < |Encode(d).1| ==>
                  args < Encode(d).1 && forall i :: |args| <= i < |Encode(d).1| ==> Encode(d).1[i] == Undefined)
  {
    NamesDiffer();
    var given := Encode(Invoke(name, args).value).1;
    assert forall i :: 0 <= i < |given| ==> given[i] == Arg(args, i);
  }

  lemma HolesAreNotRefused()
    ensures Invoke("endCall", []) == Some(EndCall(Undefined, Undefined))
  {
    NamesDiffer();
  }

  // --- the popup's side ---

  datatype Client = Client(
    nextId: nat,
    pending: seq<nat>,           // in insertion order
    closed: bool,
    calls: map<nat, Direct>,     // every id ever posted
    refused: nat,                // calls rejected at once because the relay is closed
    settled: seq<Reply>,         // every settlement, in order
    posted: set<Rpc>)

  function Without(s: seq<nat>, id: nat): seq<nat> {
    if s == [] then [] else if s[0] == id then s[1..] else [s[0]] + Without(s[1..], id)
  }

  function Rejections(ids: seq<nat>): (rs: seq<Reply>)
    ensures |rs| == |ids| && forall i :: 0 <= i < |ids| ==> rs[i] == Reply(ids[i], Rejected(CLOSED))
  {
    seq(|ids|, i requires 0 <= i < |ids| => Reply(ids[i], Rejected(CLOSED)))
  }

  function Calling(c: Client, d: Direct): Client {
    if c.closed then c.(refused := c.refused + 1)
    else
      c.(nextId := c.nextId + 1, pending := c.pending + [c.nextId], calls := c.calls[c.nextId := d],
         posted := c.posted + {Rpc(c.nextId, Encode(d).0, Encode(d).1)})
  }

  function Receiving(c: Client, r: Reply): Client {
    if c.closed || r.id !in c.pending then c
    else c.(pending := Without(c.pending, r.id), settled := c.settled + [r])
  }

  function Disposing(c: Client): Client {
    c.(closed := true, settled := c.settled + Rejections(c.pending), pending := [])
  }

  // --- the opener's side ---

  datatype Invocation = Invocation(id: nat, direct: Direct, outcome: Option<Outcome>)

  datatype World = World(client: Client, serving: bool, runs: seq<Invocation>, replies: set<Reply>)

  datatype Event =
    | Call(direct: Direct)
    | DeliverRpc(rpc: Rpc)
    | RealSettles(k: nat, outcome: Outcome, failed: Option<string>) // failed: the id handler or the post threw
    | DeliverReply(reply: Reply)
    | Dispose
    | StopServing

  predicate Enabled(w: World, ev: Event) {
    match ev
    case DeliverRpc(rpc) => rpc in w.client.posted
    case RealSettles(k, _, _) => k < |w.runs| && w.runs[k].outcome == None
    case DeliverReply(reply) => reply in w.replies
    case _ => true
  }

  /** `servePopupRpc`: a delivered call runs the real client, once per delivery. */
  function Serving(w: World, rpc: Rpc): World {
    if !w.serving then w
    else
      match Invoke(rpc.name, rpc.args)
      case Some(d) => w.(runs := w.runs + [Invocation(rpc.id, d, None)])
      case None => w.(replies := w.replies + {Reply(rpc.id, Rejected("servePopupRpc: unknown method"))})
  }

  function Settling(w: World, k: nat, outcome: Outcome, failed: Option<string>): World
    requires k < |w.runs|
  {
    var sent := if outcome.Resolved? && failed.Some? then Rejected(failed.value) else outcome;
    w.(runs := w.runs[k := w.runs[k].(outcome := Some(outcome))], replies := w.replies + {Reply(w.runs[k].id, sent)})
  }

  function After(w: World, ev: Event): World
    requires Enabled(w, ev)
  {
    match ev
    case Call(d) => w.(client := Calling(w.client, d))
    case DeliverRpc(rpc) => Serving(w, rpc)
    case RealSettles(k, outcome, failed) => Settling(w, k, outcome, failed)
    case DeliverReply(reply) => w.(client := Receiving(w.client, reply))
    case Dispose => w.(client := Disposing(w.client))
    case StopServing => w.(serving := false)
  }

  predicate Starts(w: World) {
    w == World(Client(1, [], false, map[], 0, [], {}), true, [], {})
  }

  // --- what every step keeps ---

  ghost predicate Distinct(s: seq<nat>) {
    forall i, j :: 0 <= i < j < |s| ==> s[i] != s[j]
  }

  function Ids(rs: seq<Reply>): (ids: seq<nat>)
    ensures |ids| == |rs| && forall i :: 0 <= i < |rs| ==> ids[i] == rs[i].id
  {
    seq(|rs|, i requires 0 <= i < |rs| => rs[i].id)
  }

  /** Every call ever posted is either pending or settled, exactly once. */
  ghost predicate Accounted(c: Client) {
    && (forall id :: id in c.calls ==> id < c.nextId)
    && Distinct(Ids(c.settled) + c.pending)
    && (forall id :: id in Ids(c.settled) + c.pending <==> id in c.calls)
    && (c.closed ==> c.pending == [])
  }

  /** The real client returned `v` for call `d`. */
  ghost predicate Returned(w: World, d: Direct, v: Value) {
    exists k :: 0 <= k < |w.runs| && w.runs[k].direct == d && w.runs[k].outcome == Some(Resolved(v))
  }

  ghost predicate FaithfulReply(w: World, r: Reply) {
    r.id in w.client.calls && (r.outcome.Resolved? ==> Returned(w, w.client.calls[r.id], r.outcome.value))
  }

  ghost predicate Faithful(w: World) {
    && (forall m :: m in w.client.posted ==>
          m.id in w.client.calls && (m.name, m.args) == Encode(w.client.calls[m.id]))
    && (forall k :: 0 <= k < |w.runs| ==>
          w.runs[k].id in w.client.calls && w.runs[k].direct == w.client.calls[w.runs[k].id])
    && (forall r :: r in w.replies ==> FaithfulReply(w, r))
    && (forall r :: r in w.client.settled ==> FaithfulReply(w, r))
  }

  ghost predicate Sound(w: World) {
    Accounted(w.client) && Faithful(w)
  }

  lemma {:induction false} WithoutSplits(s: seq<nat>, id: nat)
    requires id in s
    ensures exists a: seq<nat>, b: seq<nat> :: s == a + [id] + b && Without(s, id) == a + b
  {
    if s[0] == id {
      assert s == [] + [id] + s[1..] && Without(s, id) == [] + s[1..];
    } else {
      WithoutSplits(s[1..], id);
      var a: seq<nat>, b: seq<nat> :| s[1..] == a + [id] + b && Without(s[1..], id) == a + b;
      assert s == ([s[0]] + a) + [id] + b && Without(s, id) == ([s[0]] + a) + b;
    }
  }

  lemma {:induction false} WithoutCuts(s: seq<nat>, id: nat, i: nat)
    requires i <= |s| && id !in s[..i] && (i < |s| ==> s[i] == id)
    ensures Without(s, id) == if i < |s| then s[..i] + s[i + 1..] else s
  {
    if 0 < i {
      assert s[0] in s[..i] && s[1..][..i - 1] == s[..i][1..];
      WithoutCuts(s[1..], id, i - 1);
      if i < |s| {
        assert s[..i] + s[i + 1..] == [s[0]] + (s[1..][..i - 1] + s[1..][i..]);
      } else {
        assert s == [s[0]] + s[1..];
      }
    }
  }

  /** Moving one element to the front part keeps a sequence distinct, same elements. */
  lemma MoveKeeps(p: seq<nat>, a: seq<nat>, id: nat, b: seq<nat>)
    requires Distinct(p + (a + [id] + b))
    ensures Distinct((p + [id]) + (a + b))
    ensures forall x :: x in (p + [id]) + (a + b) <==> x in p + (a + [id] + b)
  {
    var s, t := p + (a + [id] + b), (p + [id]) + (a + b);
    forall i, j | 0 <= i < j < |t| ensures t[i] != t[j] {
      var f := (n: int) => if n < |p| then n else if n == |p| then |p| + |a| else if n <= |p| + |a| then n - 1 else n;
      assert t[i] == s[f(i)] && t[j] == s[f(j)];
    }
    assert forall x :: x in s <==> x in p || x in a || x == id || x in b;
    assert forall x :: x in t <==> x in p || x in a || x == id || x in b;
  }

  lemma CallingKeeps(c: Client, d: Direct)
    requires Accounted(c)
    ensures Accounted(Calling(c, d))
  {
    var r, q := Calling(c, d), Ids(c.settled) + c.pending;
    if !c.closed {
      assert c.nextId !in q;
      assert Ids(r.settled) + r.pending == q + [c.nextId];
      assert forall id :: id in q + [c.nextId] <==> id in q || id == c.nextId;
    }
  }

  lemma ReceivingKeeps(c: Client, reply: Reply)
    requires Accounted(c)
    ensures Accounted(Receiving(c, reply))
  {
    if !c.closed && reply.id in c.pending {
      var r := Receiving(c, reply);
      WithoutSplits(c.pending, reply.id);
      var a: seq<nat>, b: seq<nat> :| c.pending == a + [reply.id] + b && Without(c.pending, reply.id) == a + b;
      MoveKeeps(Ids(c.settled), a, reply.id, b);
      assert Ids(r.settled) == Ids(c.settled) + [reply.id];
    }
  }

  lemma DisposingKeeps(c: Client)
    requires Accounted(c)
    ensures Accounted(Disposing(c)) && Disposing(c).pending == []
  {
    var r := Disposing(c);
    assert Ids(r.settled) + r.pending == Ids(c.settled) + c.pending;
  }

  lemma RepliesStayFaithful(w: World, v: World, r: Reply)
    requires FaithfulReply(w, r)
    requires forall id :: id in w.client.calls ==> id in v.client.calls && v.client.calls[id] == w.client.calls[id]
    requires |w.runs| <= |v.runs|
    requires forall k :: 0 <= k < |w.runs| ==>
               v.runs[k].direct == w.runs[k].direct && (w.runs[k].outcome.Some? ==> v.runs[k].outcome == w.runs[k].outcome)
    ensures FaithfulReply(v, r)
  {
    if r.outcome.Resolved? {
      var k :| 0 <= k < |w.runs| && w.runs[k].direct == w.client.calls[r.id] && w.runs[k].outcome == Some(Resolved(r.outcome.value));
      assert v.runs[k].direct == w.runs[k].direct;
    }
  }

  lemma StepKeepsFaithful(w: World, ev: Event)
    requires Sound(w) && Enabled(w, ev)
    ensures Faithful(After(w, ev))
  {
    var v := After(w, ev);
    forall r | r in w.replies || r in w.client.settled ensures FaithfulReply(v, r) {
      RepliesStayFaithful(w, v, r);
    }
    match ev
    case DeliverRpc(rpc) => InvokeInvertsEncode(w.client.calls[rpc.id]);
    case RealSettles(k, outcome, failed) =>
      var sent := if outcome.Resolved? && failed.Some? then Rejected(failed.value) else outcome;
      assert v.runs[k].outcome == Some(outcome);
      assert FaithfulReply(v, Reply(w.runs[k].id, sent));
    case Dispose =>
      forall i | 0 <= i < |w.client.pending| ensures FaithfulReply(v, Rejections(w.client.pending)[i]) {
        assert w.client.pending[i] in Ids(w.client.settled) + w.client.pending;
      }
    case _ =>
  }

  lemma StepKeepsSound(w: World, ev: Event)
    requires Sound(w) && Enabled(w, ev)
    ensures Sound(After(w, ev))
    ensures w.client.settled <= After(w, ev).client.settled
    ensures w.client.closed ==> After(w, ev).client.closed
  {
    StepKeepsFaithful(w, ev);
    match ev
    case Call(d) => CallingKeeps(w.client, d);
    case DeliverReply(reply) => ReceivingKeeps(w.client, reply);
    case Dispose => DisposingKeeps(w.client);
    case _ =>
  }

  // --- what each event does ---

  /** The reply that goes back for a run: what the real client settled with, unless
      handling the id or posting the reply threw. */
  function Sent(id: nat, outcome: Outcome, failed: Option<string>): Reply {
    Reply(id, if outcome.Resolved? && failed.Some? then Rejected(failed.value) else outcome)
  }

  /** Some client method posts under this name. */
  ghost predicate Known(name: string) {
    exists d: Direct :: Encode(d).0 == name
  }

  ghost predicate CallMeans(c: Client, d: Direct, r: Client) {
    if c.closed then r == c.(refused := c.refused + 1)
    else
      && r.pending == c.pending + [c.nextId] && r.calls == c.calls[c.nextId := d] && r.nextId == c.nextId + 1
      && (exists m: Rpc :: m.id == c.nextId && Invoke(m.name, m.args) == Some(d) && r.posted == c.posted + {m})
      && r.settled == c.settled && r.refused == c.refused && !r.closed
  }

  /** The first occurrence of the id is gone. */
  ghost predicate Dropped(s: seq<nat>, id: nat, r: seq<nat>) {
    exists i :: 0 <= i < |s| && s[i] == id && r == s[..i] + s[i + 1..]
  }

  ghost predicate ReplyMeans(c: Client, reply: Reply, r: Client) {
    if c.closed || reply.id !in c.pending then r == c
    else
      && r.settled == c.settled + [reply] && Dropped(c.pending, reply.id, r.pending)
      && r.calls == c.calls && r.nextId == c.nextId && r.posted == c.posted && r.refused == c.refused && !r.closed
  }

  ghost predicate DisposeMeans(c: Client, r: Client) {
    && r.closed && r.pending == [] && |r.settled| == |c.settled| + |c.pending| && c.settled <= r.settled
    && (forall i :: 0 <= i < |c.pending| ==> r.settled[|c.settled| + i] == Reply(c.pending[i], Rejected("PopupRpcClient: relay closed")))
    && r.calls == c.calls && r.posted == c.posted && r.refused == c.refused
  }

  ghost predicate DeliverMeans(w: World, rpc: Rpc, v: World) {
    && v.client == w.client && v.serving == w.serving
    && if !w.serving then v == w
       else if Known(rpc.name) then
         v.replies == w.replies && Invoke(rpc.name, rpc.args).Some?
         && v.runs == w.runs + [Invocation(rpc.id, Invoke(rpc.name, rpc.args).value, None)]
       else v.runs == w.runs && v.replies == w.replies + {Reply(rpc.id, Rejected("servePopupRpc: unknown method"))}
  }

  /** What each event does, on both sides of the relay. */
  ghost predicate Means(w: World, ev: Event, v: World) {
    match ev
    case Call(d) => v == w.(client := v.client) && CallMeans(w.client, d, v.client)
    case DeliverRpc(rpc) => DeliverMeans(w, rpc, v)
    case RealSettles(k, outcome, failed) =>
      && v.client == w.client && v.serving == w.serving && k < |w.runs| && |v.runs| == |w.runs|
      && (forall i :: 0 <= i < |w.runs| ==> v.runs[i] == if i == k then w.runs[i].(outcome := Some(outcome)) else w.runs[i])
      && v.replies == w.replies + {Sent(w.runs[k].id, outcome, failed)}
    case DeliverReply(reply) => v == w.(client := v.client) && ReplyMeans(w.client, reply, v.client)
    case Dispose => v == w.(client := v.client) && DisposeMeans(w.client, v.client)
    case StopServing => v == w.(serving := false)
  }

  lemma WithoutDrops(s: seq<nat>, id: nat)
    requires id in s
    ensures Dropped(s, id, Without(s, id))
  {
    WithoutSplits(s, id);
    var a: seq<nat>, b: seq<nat> :| s == a + [id] + b && Without(s, id) == a + b;
    assert s[..|a|] == a && s[|a|] == id && s[|a| + 1..] == b;
  }

  lemma StepMeans(w: World, ev: Event)
    requires Enabled(w, ev)
    ensures Means(w, ev, After(w, ev))
  {
    match ev
    case Call(d) =>
      InvokeInvertsEncode(d);
      var m := Rpc(w.client.nextId, Encode(d).0, Encode(d).1);
      assert !w.client.closed ==> Invoke(m.name, m.args) == Some(d) && After(w, ev).client.posted == w.client.posted + {m};
    case DeliverRpc(rpc) => RefusedExactly(rpc.name, rpc.args);
    case DeliverReply(reply) =>
      if reply.id in w.client.pending {
        WithoutDrops(w.client.pending, reply.id);
      }
    case _ =>
  }

  // --- over runs ---

  ghost predicate IsRun(worlds: seq<World>, events: seq<Event>) {
    && |worlds| == |events| + 1 && Starts(worlds[0])
    && forall i :: 0 <= i < |events| ==> Enabled(worlds[i], events[i]) && worlds[i + 1] == After(worlds[i], events[i])
  }

  lemma {:induction false} RunIsSound(worlds: seq<World>, events: seq<Event>, i: nat)
    requires IsRun(worlds, events) && i < |worlds|
    ensures Sound(worlds[i])
  {
    if i > 0 {
      RunIsSound(worlds, events, i - 1);
      StepKeepsSound(worlds[i - 1], events[i - 1]);
    }
  }

  /** The relay refines direct calls: over any delivery, each call settles at most
      once, and a resolved one has the value the real client returned for that
      call's own method and arguments. */
  lemma RelayRefinesDirectCalls(worlds: seq<World>, events: seq<Event>, i: nat)
    requires IsRun(worlds, events) && i < |worlds|
    ensures var c := worlds[i].client;
            && (forall a, b :: 0 <= a < b < |c.settled| ==> c.settled[a].id != c.settled[b].id)
            && (forall r :: r in c.settled ==> r.id in c.calls && r.id !in c.pending)
            && (forall r :: r in c.settled && r.outcome.Resolved? ==> Returned(worlds[i], c.calls[r.id], r.outcome.value))
            && (forall id :: id in c.calls ==> id in c.pending || exists r :: r in c.settled && r.id == id)
  {
    RunIsSound(worlds, events, i);
    var c := worlds[i].client;
    var all := Ids(c.settled) + c.pending;
    forall a, b | 0 <= a < b < |c.settled| ensures c.settled[a].id != c.settled[b].id {
      assert all[a] != all[b];
    }
    forall r | r in c.settled ensures r.id !in c.pending {
      var a :| 0 <= a < |c.settled| && c.settled[a] == r;
      forall p | 0 <= p < |c.pending| ensures c.pending[p] != r.id {
        assert all[a] != all[|c.settled| + p];
      }
    }
    forall id | id in c.calls && id !in c.pending ensures exists r :: r in c.settled && r.id == id {
      assert id in all;
      var a :| 0 <= a < |c.settled| && Ids(c.settled)[a] == id;
      assert c.settled[a] in c.settled;
    }
  }

  /** The settlement `r` was made by event `k`: the reply came while it was waited
      for, or the relay was closed. */
  ghost predicate SettledBy(worlds: seq<World>, events: seq<Event>, k: nat, r: Reply)
    requires |worlds| == |events| + 1 && k < |events|
  {
    var c := worlds[k].client;
    r.id in c.pending
    && ((events[k] == DeliverReply(r) && !c.closed)
        || (events[k] == Dispose && r.outcome == Rejected("PopupRpcClient: relay closed")))
  }

  /** The reply `r` was posted by event `k`: a run settled, or a name was unknown. */
  ghost predicate PostedBy(worlds: seq<World>, events: seq<Event>, k: nat, r: Reply)
    requires |worlds| == |events| + 1 && k < |events|
  {
    match events[k]
    case RealSettles(j, outcome, failed) => j < |worlds[k].runs| && r == Sent(worlds[k].runs[j].id, outcome, failed)
    case DeliverRpc(rpc) =>
      worlds[k].serving && !Known(rpc.name) && r == Reply(rpc.id, Rejected("servePopupRpc: unknown method"))
    case _ => false
  }

  lemma SettledNow(w: World, ev: Event, v: World, r: Reply)
    requires Means(w, ev, v)
    ensures r in v.client.settled <==>
              r in w.client.settled
              || (r.id in w.client.pending
                  && ((ev == DeliverReply(r) && !w.client.closed)
                      || (ev == Dispose && r.outcome == Rejected("PopupRpcClient: relay closed"))))
  {
    var c, d := w.client, v.client;
    if ev.Dispose? {
      forall i | 0 <= i < |d.settled|
        ensures d.settled[i] == if i < |c.settled| then c.settled[i] else Reply(c.pending[i - |c.settled|], Rejected("PopupRpcClient: relay closed"))
      {
        assert c.settled == d.settled[..|c.settled|];
      }
      if r.id in c.pending && r.outcome == Rejected("PopupRpcClient: relay closed") {
        var i :| 0 <= i < |c.pending| && c.pending[i] == r.id;
        assert d.settled[|c.settled| + i] == r;
      }
      if r in c.settled {
        var i :| 0 <= i < |c.settled| && c.settled[i] == r;
        assert d.settled[i] == r;
      }
    }
  }

  lemma PostedNow(w: World, ev: Event, v: World, r: Reply)
    requires Means(w, ev, v)
    ensures r in v.replies <==>
              r in w.replies
              || match ev
                 case RealSettles(j, outcome, failed) => r == Sent(w.runs[j].id, outcome, failed)
                 case DeliverRpc(rpc) => w.serving && !Known(rpc.name) && r == Reply(rpc.id, Rejected("servePopupRpc: unknown method"))
                 case _ => false
  {
  }

  lemma {:induction false} SettledAre(worlds: seq<World>, events: seq<Event>, i: nat, r: Reply)
    requires IsRun(worlds, events) && i < |worlds|
    ensures r in worlds[i].client.settled <==> exists k :: 0 <= k < i && SettledBy(worlds, events, k, r)
  {
    if i > 0 {
      SettledAre(worlds, events, i - 1, r);
      StepMeans(worlds[i - 1], events[i - 1]);
      SettledNow(worlds[i - 1], events[i - 1], worlds[i], r);
      assert r in worlds[i].client.settled <==> r in worlds[i - 1].client.settled || SettledBy(worlds, events, i - 1, r);
    }
  }

  lemma {:induction false} PostedAre(worlds: seq<World>, events: seq<Event>, i: nat, r: Reply)
    requires IsRun(worlds, events) && i < |worlds|
    ensures r in worlds[i].replies <==> exists k :: 0 <= k < i && PostedBy(worlds, events, k, r)
  {
    if i > 0 {
      PostedAre(worlds, events, i - 1, r);
      StepMeans(worlds[i - 1], events[i - 1]);
      PostedNow(worlds[i - 1], events[i - 1], worlds[i], r);
      assert r in worlds[i].replies <==> r in worlds[i - 1].replies || PostedBy(worlds, events, i - 1, r);
    }
  }

  /** What the popup's callers get and what the opener sends, exactly: a call is
      settled by the reply that arrives while it is pending, as that reply says, or
      by closing; a reply is what a run of the real client gave, or a refusal. */
  lemma RepliesExactly(worlds: seq<World>, events: seq<Event>, i: nat)
    requires IsRun(worlds, events) && i < |worlds|
    ensures forall r :: r in worlds[i].client.settled <==> exists k :: 0 <= k < i && SettledBy(worlds, events, k, r)
    ensures forall r :: r in worlds[i].replies <==> exists k :: 0 <= k < i && PostedBy(worlds, events, k, r)
  {
    forall r ensures r in worlds[i].client.settled <==> exists k :: 0 <= k < i && SettledBy(worlds, events, k, r) {
      SettledAre(worlds, events, i, r);
    }
    forall r ensures r in worlds[i].replies <==> exists k :: 0 <= k < i && PostedBy(worlds, events, k, r) {
      PostedAre(worlds, events, i, r);
    }
  }

  /** After `dispose` nothing is pending, ever again, and no settlement changes. */
  lemma {:induction false} NothingHangsAfterDispose(worlds: seq<World>, events: seq<Event>, i: nat, j: nat)
    requires IsRun(worlds, events) && i < j < |worlds| && events[i] == Dispose
    ensures worlds[j].client.closed && worlds[j].client.pending == []
    ensures worlds[j].client.settled == worlds[i + 1].client.settled
    ensures worlds[j].client.calls == worlds[i].client.calls
    decreases j
  {
    if i + 1 < j {
      NothingHangsAfterDispose(worlds, events, i, j - 1);
      assert worlds[j] == After(worlds[j - 1], events[j - 1]);
      if events[j - 1].Dispose? {
        assert Rejections([]) == [];
      }
    }
  }

  // --- the object ---

  class PopupRpcClient {
    var nextId: nat
    var pending: seq<nat>
    var closed: bool
    ghost var calls: map<nat, Direct>
    ghost var refused: nat
    var settled: seq<Reply>
    var posted: set<Rpc>

    ghost function St(): Client
      reads this
    {
      Client(nextId, pending, closed, calls, refused, settled, posted)
    }

    constructor ()
      ensures St() == Client(1, [], false, map[], 0, [], {}) && Accounted(St())
    {
      nextId, pending, closed, calls, refused, settled, posted := 1, [], false, map[], 0, [], {};
    }

    /** `call`: `None` when the promise is rejected at once. */
    method CallMethod(d: Direct) returns (id: Option<nat>)
      requires Accounted(St())
      modifies this
      ensures Accounted(St()) && St() == Calling(old(St()), d)
      ensures id == if old(closed) then None else Some(old(nextId))
    {
      CallingKeeps(St(), d);
      if closed {
        refused := refused + 1;
        return None;
      }
      id := Some(nextId);
      nextId := nextId + 1;
      pending := pending + [id.value];
      calls := calls[id.value := d];
      var (name, args) := Encode(d);
      posted := posted + {Rpc(id.value, name, args)};
    }

    method DeletePending(id: nat)
      modifies `pending
      ensures pending == Without(old(pending), id)
    {
      var i := 0;
      while i < |pending| && pending[i] != id
        invariant 0 <= i <= |pending| && id !in pending[..i] && pending == old(pending)
      {
        i := i + 1;
      }
      WithoutCuts(pending, id, i);
      if i < |pending| {
        pending := pending[..i] + pending[i + 1..];
      }
    }

    /** The `rpc-result` handler. */
    method OnReply(r: Reply)
      requires Accounted(St())
      modifies `pending, `settled
      ensures Accounted(St()) && St() == Receiving(old(St()), r)
    {
      ReceivingKeeps(St(), r);
      if closed || r.id !in pending {
        return; // unsubscribed, or not waiting for it
      }
      DeletePending(r.id);
      settled := settled + [r];
    }

    method DisposeRelay()
      requires Accounted(St())
      modifies `closed, `settled, `pending
      ensures Accounted(St()) && St() == Disposing(old(St())) && pending == []
    {
      DisposingKeeps(St());
      closed := true;
      var i := 0;
      while i < |pending|
        invariant 0 <= i <= |pending| && pending == old(pending) && closed
        invariant settled == old(settled) + Rejections(pending)[..i]
      {
        settled := settled + [Reply(pending[i], Rejected(CLOSED))];
        i := i + 1;
      }
      assert Rejections(pending)[..i] == Rejections(pending);
      pending := [];
    }
  }
}
