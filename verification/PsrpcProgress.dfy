/** A call whose service, method and topic are registered can complete from
    wherever the protocol stands, with a clock that never runs backwards: the
    safety results are about a protocol that does answer. */
module PsrpcProgress {
  import opened Common
  import opened PsrpcBus
  import opened Psrpc

  /** A call, the registration that serves it, the handler's outcome, and the
      time on the server's clock meanwhile. */
  datatype Story = Story(r: string, call: Call, k: RegKey, o: Outcome, now: int)

  /** The registration matches the call, which has not expired. */
  ghost predicate Servable(cfg: Config, t: Story) {
    && Deployment(cfg)
    && t.call.clientId in cfg.clients && t.k in cfg.regs && t.call.rpc != ""
    && cfg.ServerService(t.k.serverId) == cfg.ClientService(t.call.clientId)
    && t.k.rpc == t.call.rpc && t.k.topic == t.call.topic
    && t.now < t.call.expiry
  }

  function Client(t: Story): Subscriber {
    ClientSub(t.call.clientId)
  }

  function Server(t: Story): Subscriber {
    ServerSub(t.k)
  }

  // -------------------------------------------------------------------------
  // Runs and their clock
  // -------------------------------------------------------------------------

  /** Clock readings never decrease. */
  ghost predicate ClockForward(steps: seq<Step>) {
    forall i, j | 0 <= i < j < |steps| && steps[i].Serve? && steps[j].Serve? :: steps[i].now <= steps[j].now
  }

  /** The time is not before any reading. */
  ghost predicate NotBefore(steps: seq<Step>, now: int) {
    forall i | 0 <= i < |steps| && steps[i].Serve? :: steps[i].now <= now
  }

  /** `steps` continues `start` to the state `s`, reading the clock as `now`. */
  ghost predicate Path(cfg: Config, start: seq<Step>, steps: seq<Step>, s: State, now: int) {
    && After(cfg, steps) == Some(s)
    && start <= steps
    && forall i | |start| <= i < |steps| && steps[i].Serve? :: steps[i].now == now
  }

  lemma PathStep(cfg: Config, start: seq<Step>, steps: seq<Step>, s: State, now: int, step: Step)
    requires Path(cfg, start, steps, s, now) && Enabled(cfg, s, step) && (step.Serve? ==> step.now == now)
    ensures Path(cfg, start, steps + [step], Apply(cfg, s, step), now)
  {
    assert (steps + [step])[..|steps|] == steps;
  }

  lemma PathClock(cfg: Config, start: seq<Step>, steps: seq<Step>, s: State, now: int)
    requires Path(cfg, start, steps, s, now) && ClockForward(start) && NotBefore(start, now)
    ensures ClockForward(steps)
  {
    forall i, j | 0 <= i < j < |steps| && steps[i].Serve? && steps[j].Serve?
      ensures steps[i].now <= steps[j].now
    {
      assert i < |start| ==> steps[i] == start[i];
      assert j < |start| ==> steps[j] == start[j];
    }
  }

  lemma Reached(cfg: Config, start: seq<Step>, steps: seq<Step>, s: State, now: int)
    requires Deployment(cfg) && Path(cfg, start, steps, s, now)
    ensures Inv(cfg, s)
  {
    ChannelNamesProper();
    RunKeepsInv(cfg, steps);
  }

  /** Caller and registration build the same channels. */
  lemma SameChannels(cfg: Config, t: Story)
    requires Servable(cfg, t)
    ensures CallReq(cfg, t.call) == cfg.ReqOf(t.k) && CallGrant(cfg, t.call) == cfg.GrantOf(t.k)
    ensures CallReq(cfg, t.call) in cfg.Channels(Server(t))
  {
  }

  // -------------------------------------------------------------------------
  // The call while it is open
  // -------------------------------------------------------------------------

  ghost predicate OnBus(b: Bus, t: Story) {
    Client(t) in b.sending && Client(t) in b.inbox && Server(t) in b.sending && Server(t) in b.inbox
  }

  /** The request was sent, the request task waits, and the listener knows it. */
  ghost predicate Open(s: State, t: Story) {
    && t.r in s.calls && s.calls[t.r] == t.call
    && t.r in s.tasks && s.tasks[t.r].sent && s.tasks[t.r].result == None
    && t.call.clientId in s.pending && t.r in s.pending[t.call.clientId]
    && t.k in s.waiting
    && OnBus(s.bus, t)
  }

  /** What leaves the call open: its own maps untouched. */
  lemma StaysOpen(s: State, s': State, t: Story)
    requires Open(s, t) && t.k in s'.waiting && OnBus(s'.bus, t)
    requires s'.calls == s.calls && s'.tasks == s.tasks && s'.pending == s.pending
    ensures Open(s', t)
  {
  }

  /** The same when only the lists of messages at the request task change. */
  lemma StaysOpenWith(s: State, s': State, t: Story)
    requires Open(s, t) && t.k in s'.waiting && OnBus(s'.bus, t)
    requires s'.calls == s.calls && s'.pending == s.pending && t.r in s'.tasks
    requires s'.tasks[t.r].sent && s'.tasks[t.r].result == None
    ensures Open(s', t)
  {
  }

  /** What is published on a channel of `x` can be delivered to it. */
  lemma Published(cfg: Config, b: Bus, d: Delivery, x: Subscriber)
    requires x in b.sending && x in b.inbox && d.channel in cfg.Channels(x)
    ensures CanDeliver(Publish(cfg, b, d), x, d)
  {
    assert d.channel in multiset(cfg.Channels(x));
  }

  /** A publication leaves inboxes alone and takes no copy away. */
  lemma PublishKeepsCopies(cfg: Config, b: Bus, d: Delivery, x: Subscriber, e: Delivery)
    ensures CanDeliver(b, x, e) ==> CanDeliver(Publish(cfg, b, d), x, e)
    ensures Publish(cfg, b, d).inbox == b.inbox && Publish(cfg, b, d).sending.Keys == b.sending.Keys
  {
    if CanDeliver(b, x, e) {
      PublishedCopies(cfg, b, d, x, e);
    }
  }

  lemma PublishedTo(cfg: Config, s: State, s': State, t: Story, d: Delivery)
    requires OnBus(s.bus, t) && s'.bus == Publish(cfg, s.bus, d) && d.channel in cfg.Channels(Server(t))
    ensures OnBus(s'.bus, t) && s'.bus.inbox == s.bus.inbox && CanDeliver(s'.bus, Server(t), d)
  {
    Published(cfg, s.bus, d, Server(t));
    PublishKeepsCopies(cfg, s.bus, d, Client(t), d);
  }

  /** The mail is in the inbox or on its way there. */
  ghost predicate Coming(b: Bus, x: Subscriber, d: Delivery) {
    CanDeliver(b, x, d) || (x in b.inbox && d in b.inbox[x])
  }

  lemma Delivered(b: Bus, t: Story, x: Subscriber, d: Delivery)
    requires OnBus(b, t) && CanDeliver(b, x, d)
    ensures var b' := Deliver(b, x, d);
            OnBus(b', t) && b'.inbox[x] == b.inbox[x] + [d] && forall z | z in b.inbox && z != x :: b'.inbox[z] == b.inbox[z]
  {
  }

  // -------------------------------------------------------------------------
  // A response on its way
  // -------------------------------------------------------------------------

  ghost predicate IsResponse(d: Delivery, t: Story) {
    d.msg.Response? && d.msg.requestId == t.r
  }

  ghost predicate AnswerAtClient(s: State, t: Story)
    requires Open(s, t)
  {
    s.tasks[t.r].responses != [] || exists d | d in s.bus.inbox[Client(t)] :: IsResponse(d, t)
  }

  /** A response to the call is with the request task or on its way to it. */
  ghost predicate AnswerComing(s: State, t: Story)
    requires Open(s, t)
  {
    AnswerAtClient(s, t) || exists d | d in s.bus.sending[Client(t)] :: IsResponse(d, t)
  }

  lemma DispatchKeepsOpen(s: State, t: Story)
    requires Open(s, t) && HasMail(s.bus, Client(t))
    ensures var s' := DoDispatch(s, t.call.clientId); var m := s.bus.inbox[Client(t)][0].msg;
            Open(s', t)
            && s'.tasks[t.r].claims == s.tasks[t.r].claims
                 + (if m.requestId == t.r && m.ClaimRequest? then [m] else [])
            && s'.tasks[t.r].responses == s.tasks[t.r].responses
                 + (if m.requestId == t.r && m.Response? then [m] else [])
            && s'.bus == Receive(s.bus, Client(t)) && s' == s.(bus := s'.bus, tasks := s'.tasks)
  {
    assert s.tasks[t.r].claims + [] == s.tasks[t.r].claims;
    assert s.tasks[t.r].responses + [] == s.tasks[t.r].responses;
  }

  lemma DispatchKeepsAnswer(s: State, t: Story)
    requires Open(s, t) && HasMail(s.bus, Client(t)) && AnswerAtClient(s, t)
    ensures var s' := DoDispatch(s, t.call.clientId); Open(s', t) && AnswerAtClient(s', t)
  {
    DispatchKeepsOpen(s, t);
    var q := s.bus.inbox[Client(t)];
    if s.tasks[t.r].responses == [] {
      var d :| d in q && IsResponse(d, t);
      assert d == q[0] || d in q[1..];
    }
  }

  /** The request task takes the first response to reach it. */
  lemma {:induction false} TakeAnswer(cfg: Config, start: seq<Step>, steps0: seq<Step>, s0: State, t: Story)
    returns (steps: seq<Step>, s: State)
    requires Servable(cfg, t) && Path(cfg, start, steps0, s0, t.now) && Open(s0, t) && AnswerAtClient(s0, t)
    ensures Path(cfg, start, steps, s, t.now) && s.runs == s0.runs
    ensures t.r in s.tasks && s.tasks[t.r].result.Some? && s.tasks[t.r].result.value != TimedOut
    decreases |s0.bus.inbox[Client(t)]|
  {
    if s0.tasks[t.r].responses != [] {
      Reached(cfg, start, steps0, s0, t.now);
      assert TaskOk(s0.runs, t.r, s0.tasks[t.r]);
      PathStep(cfg, start, steps0, s0, t.now, TakeResponse(t.r));
      steps, s := steps0 + [TakeResponse(t.r)], DoTakeResponse(s0, t.r);
    } else {
      var c := t.call.clientId;
      DispatchKeepsOpen(s0, t);
      DispatchKeepsAnswer(s0, t);
      PathStep(cfg, start, steps0, s0, t.now, Dispatch(c));
      steps, s := TakeAnswer(cfg, start, steps0 + [Dispatch(c)], DoDispatch(s0, c), t);
    }
  }

  lemma FinishCall(cfg: Config, start: seq<Step>, steps0: seq<Step>, s0: State, t: Story)
    returns (steps: seq<Step>, s: State)
    requires Servable(cfg, t) && Path(cfg, start, steps0, s0, t.now) && Open(s0, t) && AnswerComing(s0, t)
    ensures Path(cfg, start, steps, s, t.now) && s.runs == s0.runs
    ensures t.r in s.tasks && s.tasks[t.r].result.Some? && s.tasks[t.r].result.value != TimedOut
  {
    steps, s := steps0, s0;
    if !AnswerAtClient(s0, t) {
      var x := Client(t);
      var d :| d in s0.bus.sending[x] && IsResponse(d, t);
      PathStep(cfg, start, steps, s, t.now, DeliverMail(x, d));
      Delivered(s.bus, t, x, d);
      steps, s := steps + [DeliverMail(x, d)], s.(bus := Deliver(s.bus, x, d));
      assert d in s.bus.inbox[x];
    }
    steps, s := TakeAnswer(cfg, start, steps, s, t);
  }

  // -------------------------------------------------------------------------
  // A handler at work
  // -------------------------------------------------------------------------

  ghost predicate Running(s: State, t: Story, i: int) {
    0 <= i < |s.runs| && s.runs[i].requestId == t.r && s.runs[i].outcome == None
  }

  lemma FinishAnswers(cfg: Config, s: State, t: Story, i: nat)
    requires Servable(cfg, t) && Inv(cfg, s) && Open(s, t) && Running(s, t, i)
    ensures var s' := DoFinish(cfg, s, i, t.o); Open(s', t) && AnswerComing(s', t)
  {
    var s', d := DoFinish(cfg, s, i, t.o), AnswerMail(cfg, s.runs[i], t.o);
    assert RunOk(cfg, s.calls, s.grants, s.runs[i]);
    assert d.channel in cfg.Channels(Client(t));
    Published(cfg, s.bus, d, Client(t));
    PublishKeepsCopies(cfg, s.bus, d, Client(t), d);
    StaysOpen(s, s', t);
    assert IsResponse(d, t) && d in s'.bus.sending[Client(t)];
  }

  /** What the caller reads an outcome as. */
  function ReadsAs(t: Story): CallResult {
    ResponsePayload(ResponseOf(t.r, t.k.serverId, t.o))
  }

  lemma RunningCompletes(cfg: Config, start: seq<Step>, steps0: seq<Step>, s0: State, t: Story, i: nat)
    returns (steps: seq<Step>, s: State)
    requires Servable(cfg, t) && Path(cfg, start, steps0, s0, t.now) && Open(s0, t) && Running(s0, t, i)
    ensures Path(cfg, start, steps, s, t.now) && t.r in s.tasks && s.tasks[t.r].result == Some(ReadsAs(t))
  {
    Reached(cfg, start, steps0, s0, t.now);
    FinishAnswers(cfg, s0, t, i);
    PathStep(cfg, start, steps0, s0, t.now, Finish(i, t.o));
    var s1 := DoFinish(cfg, s0, i, t.o);
    steps, s := FinishCall(cfg, start, steps0 + [Finish(i, t.o)], s1, t);
    var j := ResultComesFromOwnHandler(cfg, steps, s, t.r);
    Reached(cfg, start, steps, s, t.now);
    assert s.runs[i].requestId == t.r && s.runs[i].outcome == Some(t.o);
    assert i == j;
  }

  // -------------------------------------------------------------------------
  // A grant on its way
  // -------------------------------------------------------------------------

  /** The registration holds the request, unexpired. */
  ghost predicate Held(s: State, t: Story) {
    t.k in s.waiting && t.r in s.waiting[t.k] && s.waiting[t.k][t.r].expiry > t.now
  }

  /** What a turn of the server leaves of the call, whatever the message. */
  lemma ServeKeeps(cfg: Config, s: State, t: Story)
    requires Open(s, t) && CanServe(s, t.k)
    ensures var s' := DoServe(cfg, s, t.k, t.now);
            Open(s', t) && s'.tasks == s.tasks && s'.granted == s.granted
            && s'.bus.inbox == Receive(s.bus, Server(t)).inbox
    ensures forall x, e | CanDeliver(s.bus, x, e) :: CanDeliver(DoServe(cfg, s, t.k, t.now).bus, x, e)
  {
    var d, s1 := s.bus.inbox[Server(t)][0], s.(bus := Receive(s.bus, Server(t)));
    StaysOpen(s, s1, t);
    if d.channel == cfg.ReqOf(t.k) {
      if d.msg.Request? && d.msg.expiry > t.now {
        BidKeeps(cfg, s1, t, d.msg);
      }
    } else if d.channel == cfg.GrantOf(t.k) && d.msg.ClaimResponse? && d.msg.serverId == t.k.serverId
              && d.msg.requestId in s.waiting[t.k] {
      StaysOpen(s1, ServeGrant(s1, t.k, d.msg.requestId), t);
    }
  }

  lemma BidKeeps(cfg: Config, s: State, t: Story, m: Msg)
    requires Open(s, t) && m.Request?
    ensures var s' := ServeRequest(cfg, s, t.k, m, t.now);
            Open(s', t) && s'.tasks == s.tasks && s'.granted == s.granted && s'.bus.inbox == s.bus.inbox
    ensures forall x, e | CanDeliver(s.bus, x, e) :: CanDeliver(ServeRequest(cfg, s, t.k, m, t.now).bus, x, e)
  {
    var d, s' := BidMail(cfg, t.k, m), ServeRequest(cfg, s, t.k, m, t.now);
    forall x, e | CanDeliver(s.bus, x, e)
      ensures CanDeliver(s'.bus, x, e)
    {
      PublishKeepsCopies(cfg, s.bus, d, x, e);
    }
    PublishKeepsCopies(cfg, s.bus, d, Client(t), d);
    StaysOpen(s, s', t);
  }

  lemma ServeKeepsHeld(cfg: Config, s: State, t: Story)
    requires Servable(cfg, t) && Open(s, t) && Held(s, t) && CanServe(s, t.k)
    requires s.bus.inbox[Server(t)][0] != GrantMail(cfg, t.k, t.r)
    ensures Held(DoServe(cfg, s, t.k, t.now), t)
  {
  }

  lemma ServeStarts(cfg: Config, s: State, t: Story)
    requires Servable(cfg, t) && Open(s, t) && Held(s, t) && CanServe(s, t.k)
    requires s.bus.inbox[Server(t)][0] == GrantMail(cfg, t.k, t.r)
    ensures Running(DoServe(cfg, s, t.k, t.now), t, |s.runs|)
  {
    ChannelNamesProper();
    assert cfg.GrantOf(t.k) != cfg.ReqOf(t.k);
  }

  lemma {:induction false} StartRun(cfg: Config, start: seq<Step>, steps0: seq<Step>, s0: State, t: Story)
    returns (steps: seq<Step>, s: State, i: nat)
    requires Servable(cfg, t) && Path(cfg, start, steps0, s0, t.now) && Open(s0, t) && Held(s0, t)
    requires GrantMail(cfg, t.k, t.r) in s0.bus.inbox[Server(t)]
    ensures Path(cfg, start, steps, s, t.now) && Open(s, t) && Running(s, t, i)
    decreases |s0.bus.inbox[Server(t)]|
  {
    var q := s0.bus.inbox[Server(t)];
    var s1 := DoServe(cfg, s0, t.k, t.now);
    ServeKeeps(cfg, s0, t);
    PathStep(cfg, start, steps0, s0, t.now, Serve(t.k, t.now));
    if q[0] == GrantMail(cfg, t.k, t.r) {
      ServeStarts(cfg, s0, t);
      steps, s, i := steps0 + [Serve(t.k, t.now)], s1, |s0.runs|;
    } else {
      ServeKeepsHeld(cfg, s0, t);
      assert q == [q[0]] + q[1..];
      steps, s, i := StartRun(cfg, start, steps0 + [Serve(t.k, t.now)], s1, t);
    }
  }

  lemma GrantedCompletes(cfg: Config, start: seq<Step>, steps0: seq<Step>, s0: State, t: Story)
    returns (steps: seq<Step>, s: State)
    requires Servable(cfg, t) && Path(cfg, start, steps0, s0, t.now) && Open(s0, t) && Held(s0, t)
    requires Coming(s0.bus, Server(t), GrantMail(cfg, t.k, t.r))
    ensures Path(cfg, start, steps, s, t.now) && t.r in s.tasks && s.tasks[t.r].result == Some(ReadsAs(t))
  {
    var y, d := Server(t), GrantMail(cfg, t.k, t.r);
    steps, s := steps0, s0;
    if d !in s.bus.inbox[y] {
      PathStep(cfg, start, steps, s, t.now, DeliverMail(y, d));
      Delivered(s.bus, t, y, d);
      steps, s := steps + [DeliverMail(y, d)], s.(bus := Deliver(s.bus, y, d));
    }
    var i: nat;
    steps, s, i := StartRun(cfg, start, steps, s, t);
    steps, s := RunningCompletes(cfg, start, steps, s, t, i);
  }

  // -------------------------------------------------------------------------
  // A bid on its way
  // -------------------------------------------------------------------------

  function BidsIn(q: seq<Delivery>, r: string): seq<Msg> {
    if q == [] then []
    else (if q[0].msg.ClaimRequest? && q[0].msg.requestId == r then [q[0].msg] else []) + BidsIn(q[1..], r)
  }

  /** Bids for the call at the client, in the order the request task will see them. */
  ghost function Bids(s: State, t: Story): seq<Msg>
    requires Open(s, t)
  {
    s.tasks[t.r].claims + BidsIn(s.bus.inbox[Client(t)], t.r)
  }

  function BidFor(cfg: Config, t: Story): Delivery {
    Delivery(cfg.names.claim(cfg.ServerService(t.k.serverId), t.call.clientId), ClaimRequest(t.r, t.k.serverId))
  }

  lemma {:induction false} BidsInAppend(q: seq<Delivery>, d: Delivery, r: string)
    requires d.msg.ClaimRequest? && d.msg.requestId == r
    ensures BidsIn(q + [d], r) == BidsIn(q, r) + [d.msg]
  {
    if q == [] {
      assert [d][1..] == [];
    } else {
      BidsInAppend(q[1..], d, r);
      assert (q + [d])[1..] == q[1..] + [d];
    }
  }

  /** The registration's bid is the next the request task will see. */
  ghost predicate BidFirst(cfg: Config, s: State, t: Story)
    requires Open(s, t)
  {
    if Bids(s, t) != [] then Bids(s, t)[0] == BidFor(cfg, t).msg else CanDeliver(s.bus, Client(t), BidFor(cfg, t))
  }

  /** Nothing is answered before a grant. */
  lemma AnswerMeansGrant(cfg: Config, s: State, t: Story)
    requires Inv(cfg, s) && Open(s, t)
    ensures s.tasks[t.r].responses != [] ==> t.r in s.granted
  {
    var task := s.tasks[t.r];
    assert TaskOk(s.runs, t.r, task);
    if task.responses != [] {
      var i :| BackedBy(s.runs, task.responses[0], i);
      assert RunOk(cfg, s.calls, s.grants, s.runs[i]);
    }
  }

  lemma DispatchKeepsBids(s: State, t: Story)
    requires Open(s, t) && HasMail(s.bus, Client(t))
    ensures var s' := DoDispatch(s, t.call.clientId);
            Open(s', t) && Bids(s', t) == Bids(s, t) && s'.granted == s.granted && s'.waiting == s.waiting
  {
    DispatchKeepsOpen(s, t);
    var q, claims := s.bus.inbox[Client(t)], s.tasks[t.r].claims;
    var head := if q[0].msg.ClaimRequest? && q[0].msg.requestId == t.r then [q[0].msg] else [];
    assert claims + (head + BidsIn(q[1..], t.r)) == (claims + head) + BidsIn(q[1..], t.r);
  }

  lemma GrantFirstBid(cfg: Config, s: State, t: Story)
    requires CallGrant(cfg, t.call) == cfg.GrantOf(t.k) && Open(s, t) && t.r !in s.granted && Held(s, t)
    requires s.tasks[t.r].claims != [] && s.tasks[t.r].claims[0] == BidFor(cfg, t).msg && s.tasks[t.r].responses == []
    ensures CanTakeClaim(s, t.r)
    ensures var s' := DoTakeClaim(cfg, s, t.r);
            Open(s', t) && Held(s', t) && CanDeliver(s'.bus, Server(t), GrantMail(cfg, t.k, t.r))
  {
    var s', d := DoTakeClaim(cfg, s, t.r), GrantMail(cfg, t.k, t.r);
    assert s'.bus == Publish(cfg, s.bus, d);
    PublishedTo(cfg, s, s', t, d);
    StaysOpenWith(s, s', t);
  }

  /** The request task reads the bid and grants it. */
  lemma {:induction false} TakeBid(cfg: Config, start: seq<Step>, steps0: seq<Step>, s0: State, t: Story)
    returns (steps: seq<Step>, s: State)
    requires Servable(cfg, t) && Path(cfg, start, steps0, s0, t.now) && Open(s0, t) && t.r !in s0.granted
    requires Held(s0, t) && Bids(s0, t) != [] && Bids(s0, t)[0] == BidFor(cfg, t).msg
    ensures Path(cfg, start, steps, s, t.now) && Open(s, t) && Held(s, t)
    ensures CanDeliver(s.bus, Server(t), GrantMail(cfg, t.k, t.r))
    decreases |s0.bus.inbox[Client(t)]|
  {
    if s0.tasks[t.r].claims != [] {
      Reached(cfg, start, steps0, s0, t.now);
      AnswerMeansGrant(cfg, s0, t);
      SameChannels(cfg, t);
      GrantFirstBid(cfg, s0, t);
      PathStep(cfg, start, steps0, s0, t.now, TakeClaim(t.r));
      steps, s := steps0 + [TakeClaim(t.r)], DoTakeClaim(cfg, s0, t.r);
    } else {
      var c := t.call.clientId;
      assert [] + BidsIn(s0.bus.inbox[Client(t)], t.r) == BidsIn(s0.bus.inbox[Client(t)], t.r);
      DispatchKeepsOpen(s0, t);
      DispatchKeepsBids(s0, t);
      PathStep(cfg, start, steps0, s0, t.now, Dispatch(c));
      steps, s := TakeBid(cfg, start, steps0 + [Dispatch(c)], DoDispatch(s0, c), t);
    }
  }

  lemma DeliverFirstBid(cfg: Config, s: State, t: Story)
    requires Open(s, t) && Bids(s, t) == [] && CanDeliver(s.bus, Client(t), BidFor(cfg, t))
    ensures var s' := s.(bus := Deliver(s.bus, Client(t), BidFor(cfg, t)));
            Open(s', t) && Bids(s', t) == [BidFor(cfg, t).msg]
  {
    Delivered(s.bus, t, Client(t), BidFor(cfg, t));
    BidsInAppend(s.bus.inbox[Client(t)], BidFor(cfg, t), t.r);
    assert |s.tasks[t.r].claims + BidsIn(s.bus.inbox[Client(t)], t.r)| == 0;
  }

  lemma BidCompletes(cfg: Config, start: seq<Step>, steps0: seq<Step>, s0: State, t: Story)
    returns (steps: seq<Step>, s: State)
    requires Servable(cfg, t) && Path(cfg, start, steps0, s0, t.now) && Open(s0, t) && t.r !in s0.granted
    requires Held(s0, t) && BidFirst(cfg, s0, t)
    ensures Path(cfg, start, steps, s, t.now) && t.r in s.tasks && s.tasks[t.r].result == Some(ReadsAs(t))
  {
    var x, d := Client(t), BidFor(cfg, t);
    steps, s := steps0, s0;
    if Bids(s, t) == [] {
      DeliverFirstBid(cfg, s, t);
      PathStep(cfg, start, steps, s, t.now, DeliverMail(x, d));
      steps, s := steps + [DeliverMail(x, d)], s.(bus := Deliver(s.bus, x, d));
    }
    steps, s := TakeBid(cfg, start, steps, s, t);
    steps, s := GrantedCompletes(cfg, start, steps, s, t);
  }

  // -------------------------------------------------------------------------
  // A request on its way
  // -------------------------------------------------------------------------

  function RequestFor(cfg: Config, t: Story): Delivery {
    Delivery(CallReq(cfg, t.call), Request(t.r, t.call.clientId, t.call.expiry, t.call.raw))
  }

  lemma ServeBids(cfg: Config, s: State, t: Story)
    requires Servable(cfg, t) && Open(s, t) && CanServe(s, t.k)
    requires s.bus.inbox[Server(t)][0] == RequestFor(cfg, t)
    ensures var s' := DoServe(cfg, s, t.k, t.now); Held(s', t) && CanDeliver(s'.bus, Client(t), BidFor(cfg, t))
  {
    var m, s1 := RequestFor(cfg, t).msg, s.(bus := Receive(s.bus, Server(t)));
    assert DoServe(cfg, s, t.k, t.now) == ServeRequest(cfg, s1, t.k, m, t.now);
    assert BidMail(cfg, t.k, m) == BidFor(cfg, t);
    Published(cfg, s1.bus, BidFor(cfg, t), Client(t));
  }

  /** The server comes to the request and bids. */
  lemma {:induction false} ServeUntilBid(cfg: Config, start: seq<Step>, steps0: seq<Step>, s0: State, t: Story)
    returns (steps: seq<Step>, s: State)
    requires Servable(cfg, t) && Path(cfg, start, steps0, s0, t.now) && Open(s0, t) && t.r !in s0.granted
    requires Bids(s0, t) == [] && RequestFor(cfg, t) in s0.bus.inbox[Server(t)]
    ensures Path(cfg, start, steps, s, t.now) && Open(s, t) && t.r !in s.granted && Bids(s, t) == []
    ensures Held(s, t) && CanDeliver(s.bus, Client(t), BidFor(cfg, t))
    decreases |s0.bus.inbox[Server(t)]|
  {
    var q := s0.bus.inbox[Server(t)];
    var s1 := DoServe(cfg, s0, t.k, t.now);
    ServeKeeps(cfg, s0, t);
    PathStep(cfg, start, steps0, s0, t.now, Serve(t.k, t.now));
    if q[0] == RequestFor(cfg, t) {
      ServeBids(cfg, s0, t);
      steps, s := steps0 + [Serve(t.k, t.now)], s1;
    } else {
      assert q == [q[0]] + q[1..];
      steps, s := ServeUntilBid(cfg, start, steps0 + [Serve(t.k, t.now)], s1, t);
    }
  }

  lemma RequestCompletes(cfg: Config, start: seq<Step>, steps0: seq<Step>, s0: State, t: Story)
    returns (steps: seq<Step>, s: State)
    requires Servable(cfg, t) && Path(cfg, start, steps0, s0, t.now) && Open(s0, t) && t.r !in s0.granted
    requires Bids(s0, t) == [] && Coming(s0.bus, Server(t), RequestFor(cfg, t))
    ensures Path(cfg, start, steps, s, t.now) && t.r in s.tasks && s.tasks[t.r].result == Some(ReadsAs(t))
  {
    var y, d := Server(t), RequestFor(cfg, t);
    steps, s := steps0, s0;
    if d !in s.bus.inbox[y] {
      PathStep(cfg, start, steps, s, t.now, DeliverMail(y, d));
      Delivered(s.bus, t, y, d);
      steps, s := steps + [DeliverMail(y, d)], s.(bus := Deliver(s.bus, y, d));
    }
    steps, s := ServeUntilBid(cfg, start, steps, s, t);
    steps, s := BidCompletes(cfg, start, steps, s, t);
  }

  // -------------------------------------------------------------------------
  // Main results
  // -------------------------------------------------------------------------

  /** How far a call that can still be answered has got: its request is on the way
      and nobody has bid; the registration's bid is next; its grant is on the way;
      or its handler is at work. */
  ghost predicate Promising(cfg: Config, s: State, t: Story)
    requires Open(s, t)
  {
    || (t.r !in s.granted && Bids(s, t) == [] && Coming(s.bus, Server(t), RequestFor(cfg, t)))
    || (t.r !in s.granted && Held(s, t) && BidFirst(cfg, s, t))
    || (Held(s, t) && Coming(s.bus, Server(t), GrantMail(cfg, t.k, t.r)))
    || (exists i :: Running(s, t, i))
  }

  /** From every reachable state in which an open, unexpired call is at one of these
      stages, and for every handler outcome, the run can go on, its clock never
      running backwards, so that the call returns what that outcome reads as. */
  lemma LiveCallCanComplete(cfg: Config, start: seq<Step>, s0: State, t: Story) returns (steps: seq<Step>, s: State)
    requires Servable(cfg, t) && After(cfg, start) == Some(s0) && ClockForward(start) && NotBefore(start, t.now)
    requires Open(s0, t) && Promising(cfg, s0, t)
    ensures After(cfg, steps) == Some(s) && start <= steps && ClockForward(steps)
    ensures t.r in s.tasks && s.tasks[t.r].result == Some(ReadsAs(t))
  {
    if exists i :: Running(s0, t, i) {
      var i :| Running(s0, t, i);
      steps, s := RunningCompletes(cfg, start, start, s0, t, i);
    } else if Held(s0, t) && Coming(s0.bus, Server(t), GrantMail(cfg, t.k, t.r)) {
      steps, s := GrantedCompletes(cfg, start, start, s0, t);
    } else if Held(s0, t) && BidFirst(cfg, s0, t) {
      steps, s := BidCompletes(cfg, start, start, s0, t);
    } else {
      steps, s := RequestCompletes(cfg, start, start, s0, t);
    }
    PathClock(cfg, start, steps, s, t.now);
  }

  /** From every reachable state in which a response to an open call is on its way,
      the call can return, and returns a response. */
  lemma AnsweredCallCanReturn(cfg: Config, start: seq<Step>, s0: State, t: Story) returns (steps: seq<Step>, s: State)
    requires Servable(cfg, t) && After(cfg, start) == Some(s0) && ClockForward(start) && NotBefore(start, t.now)
    requires Open(s0, t) && AnswerComing(s0, t)
    ensures After(cfg, steps) == Some(s) && start <= steps && ClockForward(steps) && s.runs == s0.runs
    ensures t.r in s.tasks && s.tasks[t.r].result.Some? && s.tasks[t.r].result.value != TimedOut
  {
    steps, s := FinishCall(cfg, start, start, s0, t);
    PathClock(cfg, start, steps, s, t.now);
  }

  ghost predicate Connected(cfg: Config, b: Bus) {
    && (forall c | c in cfg.clients :: ClientSub(c) in b.sending && ClientSub(c) in b.inbox)
    && (forall k | k in cfg.regs :: ServerSub(k) in b.sending && ServerSub(k) in b.inbox)
  }

  /** The parties never disappear, and only calls are granted. */
  ghost predicate Present(cfg: Config, s: State) {
    && Connected(cfg, s.bus)
    && (forall c | c in cfg.clients :: c in s.pending)
    && (forall k | k in cfg.regs :: k in s.waiting)
    && s.granted <= s.calls.Keys
  }

  lemma StaysConnected(cfg: Config, b: Bus, b': Bus)
    requires Connected(cfg, b) && b.sending.Keys <= b'.sending.Keys && b.inbox.Keys <= b'.inbox.Keys
    ensures Connected(cfg, b')
  {
  }

  lemma ServePresent(cfg: Config, s: State, k: RegKey, now: int)
    requires Present(cfg, s) && CanServe(s, k)
    ensures Present(cfg, DoServe(cfg, s, k, now))
  {
    StaysConnected(cfg, s.bus, DoServe(cfg, s, k, now).bus);
  }

  lemma TakePresent(cfg: Config, s: State, r: string)
    requires Present(cfg, s)
    ensures CanTakeClaim(s, r) ==> Present(cfg, DoTakeClaim(cfg, s, r))
    ensures CanTakeResponse(s, r) ==> Present(cfg, DoTakeResponse(s, r))
  {
    if CanTakeClaim(s, r) {
      StaysConnected(cfg, s.bus, DoTakeClaim(cfg, s, r).bus);
    }
  }

  lemma PublishPresent(cfg: Config, s: State, s': State, d: Delivery)
    requires Present(cfg, s) && s'.bus == Publish(cfg, s.bus, d)
    requires s'.pending == s.pending && s'.waiting == s.waiting && s'.granted == s.granted && s'.calls == s.calls
    ensures Present(cfg, s')
  {
    StaysConnected(cfg, s.bus, s'.bus);
  }

  lemma MailPresent(cfg: Config, s: State, b: Bus)
    requires Present(cfg, s) && b.sending.Keys == s.bus.sending.Keys && b.inbox.Keys == s.bus.inbox.Keys
    ensures Present(cfg, s.(bus := b))
  {
    StaysConnected(cfg, s.bus, b);
  }

  lemma StepKeepsPresent(cfg: Config, s: State, step: Step)
    requires Present(cfg, s) && Enabled(cfg, s, step)
    ensures Present(cfg, Apply(cfg, s, step))
  {
    match step
    case StartCall(r, call) =>
    case SendRequest(r) => PublishPresent(cfg, s, DoSendRequest(cfg, s, r), RequestMail(cfg, s, r));
    case DeliverMail(x, d) => MailPresent(cfg, s, Deliver(s.bus, x, d));
    case LoseMail(x, d) => MailPresent(cfg, s, Lose(s.bus, x, d));
    case Dispatch(c) => MailPresent(cfg, s, Receive(s.bus, ClientSub(c)));
    case TakeResponse(r) => TakePresent(cfg, s, r);
    case TakeClaim(r) => TakePresent(cfg, s, r);
    case Timeout(r) =>
    case Serve(k, now) => ServePresent(cfg, s, k, now);
    case Finish(i, o) => PublishPresent(cfg, s, DoFinish(cfg, s, i, o), AnswerMail(cfg, s.runs[i], o));
  }

  lemma {:induction false} RunKeepsPresent(cfg: Config, steps: seq<Step>)
    requires After(cfg, steps).Some?
    ensures Present(cfg, After(cfg, steps).value)
  {
    if steps == [] {
    } else {
      RunKeepsPresent(cfg, steps[..|steps| - 1]);
      StepKeepsPresent(cfg, After(cfg, steps[..|steps| - 1]).value, steps[|steps| - 1]);
    }
  }

  /** No message speaks of a call that has not been made. */
  lemma NothingYet(cfg: Config, start: seq<Step>, s: State, t: Story)
    requires Servable(cfg, t) && After(cfg, start) == Some(s) && t.r !in s.calls
    requires Client(t) in s.bus.inbox
    ensures BidsIn(s.bus.inbox[Client(t)], t.r) == []
  {
    ChannelNamesProper();
    RunKeepsInv(cfg, start);
    var x := Client(t);
    forall d | d in s.bus.inbox[x]
      ensures d.msg.requestId != t.r
    {
      assert Copies(s.bus, x, d) > 0;
      assert d in s.bus.log;
      assert MailOk(cfg, s.calls, s.grants, s.runs, d);
    }
    NoBids(s.bus.inbox[x], t.r);
  }

  lemma {:induction false} NoBids(q: seq<Delivery>, r: string)
    requires forall d | d in q :: d.msg.requestId != r
    ensures BidsIn(q, r) == []
  {
    if q == [] {
    } else {
      NoBids(q[1..], r);
    }
  }

  lemma Sent(cfg: Config, s: State, t: Story)
    requires CallReq(cfg, t.call) in cfg.Channels(Server(t)) && CanSendRequest(s, t.r) && s.calls[t.r] == t.call && s.tasks[t.r].claims == []
    requires t.call.clientId in s.pending && t.r in s.pending[t.call.clientId] && t.k in s.waiting && OnBus(s.bus, t)
    requires BidsIn(s.bus.inbox[Client(t)], t.r) == []
    ensures var s' := DoSendRequest(cfg, s, t.r);
            Open(s', t) && Bids(s', t) == [] && Coming(s'.bus, Server(t), RequestFor(cfg, t)) && s'.granted == s.granted
  {
    var d, s' := RequestMail(cfg, s, t.r), DoSendRequest(cfg, s, t.r);
    assert d == RequestFor(cfg, t);
    PublishedTo(cfg, s, s', t, d);
    assert s'.tasks[t.r] == s.tasks[t.r].(sent := true);
    assert [] + BidsIn(s'.bus.inbox[Client(t)], t.r) == [];
  }

  /** From every reachable state a new, unexpired call can be made and completed,
      the clock never running backwards. */
  lemma NewCallCanComplete(cfg: Config, start: seq<Step>, s0: State, t: Story) returns (steps: seq<Step>, s: State)
    requires Servable(cfg, t) && After(cfg, start) == Some(s0) && ClockForward(start) && NotBefore(start, t.now)
    requires t.r !in s0.calls
    ensures After(cfg, steps) == Some(s) && start <= steps && ClockForward(steps)
    ensures t.r in s.tasks && s.tasks[t.r].result == Some(ReadsAs(t))
  {
    RunKeepsPresent(cfg, start);
    NothingYet(cfg, start, s0, t);
    PathStep(cfg, start, start, s0, t.now, StartCall(t.r, t.call));
    var s1 := DoStartCall(cfg, s0, t.r, t.call);
    steps := start + [StartCall(t.r, t.call)];
    PathStep(cfg, start, steps, s1, t.now, SendRequest(t.r));
    steps := steps + [SendRequest(t.r)];
    SameChannels(cfg, t);
    Sent(cfg, s1, t);
    steps, s := RequestCompletes(cfg, start, steps, DoSendRequest(cfg, s1, t.r), t);
    PathClock(cfg, start, steps, s, t.now);
  }
}
