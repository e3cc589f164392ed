/** The psrpc claim protocol: request, bid, grant, response. An adversary
    chooses the next step of any client, request task, server loop, handler task
    or bus send, as well as the clock and every handler's outcome. */
module Psrpc {
  import opened Common
  import opened PsrpcBus

  /** What a handler returns. */
  datatype Outcome = Handled(raw: string) | Failed(code: string, message: string)

  /** What a client call returns. */
  datatype CallResult = Answer(raw: string) | RpcFailure(code: string, message: string) | TimedOut

  datatype Call = Call(clientId: string, rpc: string, topic: string, raw: string, expiry: int)

  /** A request task, with the two channels the client's listener feeds. */
  datatype Task = Task(sent: bool, claims: seq<Msg>, responses: seq<Msg>, result: Option<CallResult>)

  datatype Waiting = Waiting(clientId: string, raw: string, expiry: int)

  datatype Grant = Grant(requestId: string, serverId: string)

  /** One handler task; `outcome` is filled in when the handler returns. */
  datatype Run = Run(requestId: string, key: RegKey, clientId: string, raw: string, outcome: Option<Outcome>)

  /** `pending` holds each client's pending map, `granted` the request tasks whose
      `granted` flag is set, `waiting` each registration's pending map. `grants`
      and `runs` are histories: every grant published and every handler started. */
  datatype State = State(bus: Bus, calls: map<string, Call>, tasks: map<string, Task>, pending: map<string, set<string>>,
                         granted: set<string>, waiting: map<RegKey, map<string, Waiting>>,
                         grants: seq<Grant>, runs: seq<Run>)

  datatype Step =
    | StartCall(requestId: string, call: Call)
    | SendRequest(requestId: string)
    | DeliverMail(x: Subscriber, d: Delivery)
    | LoseMail(x: Subscriber, d: Delivery)
    | Dispatch(clientId: string)
    | TakeResponse(requestId: string)
    | TakeClaim(requestId: string)
    | Timeout(requestId: string)
    | Serve(key: RegKey, now: int)
    | Finish(i: nat, outcome: Outcome)

  function Init(cfg: Config): State {
    var subs := (set c | c in cfg.clients :: ClientSub(c)) + (set k | k in cfg.regs :: ServerSub(k));
    State(Bus(map x | x in subs :: multiset{}, map x | x in subs :: [], {}),
          map[], map[], map c | c in cfg.clients :: {}, {}, map k | k in cfg.regs :: map[], [], [])
  }

  function CallReq(cfg: Config, call: Call): string {
    cfg.names.req(cfg.ClientService(call.clientId), call.rpc, call.topic)
  }

  function CallGrant(cfg: Config, call: Call): string {
    cfg.names.grant(cfg.ClientService(call.clientId), call.rpc, call.topic)
  }

  // -------------------------------------------------------------------------
  // Wire form of a handler's outcome
  // -------------------------------------------------------------------------

  function ResponseOf(requestId: string, serverId: string, o: Outcome): Msg {
    match o
    case Handled(raw) => Response(requestId, serverId, raw, "", "")
    case Failed(code, message) => Response(requestId, serverId, "", message, code)
  }

  function ResponsePayload(m: Msg): CallResult
    requires m.Response?
  {
    if m.error != "" then RpcFailure(m.code, m.error) else Answer(m.raw)
  }

  /** The result a caller should see for a handler's outcome. */
  function ResultOf(o: Outcome): CallResult {
    match o
    case Handled(raw) => Answer(raw)
    case Failed(code, message) => RpcFailure(code, message)
  }

  /** The wire form carries every outcome faithfully except a failure with an
      empty message, which the caller reads as an empty success. */
  lemma PayloadFaithfulIff(r: string, srv: string, o: Outcome)
    ensures ResponsePayload(ResponseOf(r, srv, o)) == ResultOf(o) <==> !(o.Failed? && o.message == "")
    ensures o.Failed? && o.message == "" ==> ResponsePayload(ResponseOf(r, srv, o)) == Answer("")
  {
  }

  // -------------------------------------------------------------------------
  // Steps
  // -------------------------------------------------------------------------

  predicate CanStartCall(cfg: Config, s: State, r: string, call: Call) {
    r !in s.calls && call.clientId in cfg.clients && call.clientId in s.pending && call.rpc != ""
  }

  function DoStartCall(cfg: Config, s: State, r: string, call: Call): State
    requires CanStartCall(cfg, s, r, call)
  {
    s.(calls := s.calls[r := call], tasks := s.tasks[r := Task(false, [], [], None)],
       pending := s.pending[call.clientId := s.pending[call.clientId] + {r}])
  }

  predicate Live(s: State, r: string) {
    r in s.calls && r in s.tasks && s.tasks[r].result == None
  }

  predicate CanSendRequest(s: State, r: string) {
    Live(s, r) && !s.tasks[r].sent
  }

  function RequestMail(cfg: Config, s: State, r: string): Delivery
    requires r in s.calls
  {
    var call := s.calls[r];
    Delivery(CallReq(cfg, call), Request(r, call.clientId, call.expiry, call.raw))
  }

  function DoSendRequest(cfg: Config, s: State, r: string): State
    requires CanSendRequest(s, r)
  {
    s.(tasks := s.tasks[r := s.tasks[r].(sent := true)], bus := Publish(cfg, s.bus, RequestMail(cfg, s, r)))
  }

  predicate CanDispatch(s: State, c: string) {
    c in s.pending && HasMail(s.bus, ClientSub(c))
  }

  /** The client's listener routes one message to the request it names. */
  function DoDispatch(s: State, c: string): State
    requires CanDispatch(s, c)
  {
    var m := s.bus.inbox[ClientSub(c)][0].msg;
    s.(bus := Receive(s.bus, ClientSub(c)), tasks := if m.requestId in s.pending[c] then Route(s.tasks, m) else s.tasks)
  }

  function Route(tasks: map<string, Task>, m: Msg): map<string, Task> {
    var r := m.requestId;
    if r !in tasks then tasks
    else if m.ClaimRequest? then tasks[r := tasks[r].(claims := tasks[r].claims + [m])]
    else if m.Response? then tasks[r := tasks[r].(responses := tasks[r].responses + [m])]
    else tasks
  }

  predicate CanTakeResponse(s: State, r: string) {
    && Live(s, r) && s.tasks[r].sent && s.calls[r].clientId in s.pending
    && s.tasks[r].responses != [] && s.tasks[r].responses[0].Response?
  }

  /** A request task returns the first response it finds. */
  function DoTakeResponse(s: State, r: string): State
    requires CanTakeResponse(s, r)
  {
    var task, c := s.tasks[r], s.calls[r].clientId;
    s.(tasks := s.tasks[r := task.(responses := task.responses[1..], result := Some(ResponsePayload(task.responses[0])))],
       pending := s.pending[c := s.pending[c] - {r}])
  }

  predicate CanTakeClaim(s: State, r: string) {
    && Live(s, r) && s.tasks[r].sent
    && s.tasks[r].responses == [] && s.tasks[r].claims != [] && s.tasks[r].claims[0].ClaimRequest?
  }

  /** A request task reads a bid and grants the first one only. */
  function DoTakeClaim(cfg: Config, s: State, r: string): State
    requires CanTakeClaim(s, r)
  {
    var task := s.tasks[r];
    var claim := task.claims[0];
    var s' := s.(tasks := s.tasks[r := task.(claims := task.claims[1..])]);
    if r in s.granted then s'
    else
      s'.(granted := s.granted + {r}, grants := s.grants + [Grant(claim.requestId, claim.serverId)],
          bus := Publish(cfg, s.bus, Delivery(CallGrant(cfg, s.calls[r]), ClaimResponse(claim.requestId, claim.serverId))))
  }

  /** The timed-out request stays in the client's pending map. */
  function DoTimeout(s: State, r: string): State
    requires Live(s, r)
  {
    s.(tasks := s.tasks[r := s.tasks[r].(result := Some(TimedOut))])
  }

  predicate CanServe(s: State, k: RegKey) {
    k in s.waiting && HasMail(s.bus, ServerSub(k))
  }

  /** One turn of a registration's loop. */
  function DoServe(cfg: Config, s: State, k: RegKey, now: int): State
    requires CanServe(s, k)
  {
    var d := s.bus.inbox[ServerSub(k)][0];
    var s' := s.(bus := Receive(s.bus, ServerSub(k)));
    if d.channel == cfg.ReqOf(k) then
      if !d.msg.Request? || d.msg.expiry <= now then s' else ServeRequest(cfg, s', k, d.msg, now)
    else if d.channel == cfg.GrantOf(k) then
      if !d.msg.ClaimResponse? || d.msg.serverId != k.serverId || d.msg.requestId !in s.waiting[k] then s'
      else ServeGrant(s', k, d.msg.requestId)
    else s'
  }

  function BidMail(cfg: Config, k: RegKey, m: Msg): Delivery
    requires m.Request?
  {
    Delivery(cfg.names.claim(cfg.ServerService(k.serverId), m.clientId), ClaimRequest(m.requestId, k.serverId))
  }

  /** A live request replaces the expired ones in `pending` and is bid for. */
  function ServeRequest(cfg: Config, s: State, k: RegKey, m: Msg, now: int): State
    requires k in s.waiting && m.Request?
  {
    var live := map r | r in s.waiting[k] && s.waiting[k][r].expiry > now :: s.waiting[k][r];
    s.(waiting := s.waiting[k := live[m.requestId := Waiting(m.clientId, m.raw, m.expiry)]],
       bus := Publish(cfg, s.bus, BidMail(cfg, k, m)))
  }

  /** A granted request leaves `pending` and starts its handler; expiry is not checked. */
  function ServeGrant(s: State, k: RegKey, r: string): State
    requires k in s.waiting && r in s.waiting[k]
  {
    var w := s.waiting[k][r];
    s.(waiting := s.waiting[k := s.waiting[k] - {r}], runs := s.runs + [Run(r, k, w.clientId, w.raw, None)])
  }

  predicate CanFinish(s: State, i: nat) {
    i < |s.runs| && s.runs[i].outcome == None
  }

  function AnswerMail(cfg: Config, run: Run, o: Outcome): Delivery {
    Delivery(cfg.names.response(cfg.ServerService(run.key.serverId), run.clientId),
             ResponseOf(run.requestId, run.key.serverId, o))
  }

  function DoFinish(cfg: Config, s: State, i: nat, o: Outcome): State
    requires CanFinish(s, i)
  {
    s.(runs := s.runs[i := s.runs[i].(outcome := Some(o))], bus := Publish(cfg, s.bus, AnswerMail(cfg, s.runs[i], o)))
  }

  predicate Enabled(cfg: Config, s: State, step: Step) {
    match step
    case StartCall(r, call) => CanStartCall(cfg, s, r, call)
    case SendRequest(r) => CanSendRequest(s, r)
    case DeliverMail(x, d) => CanDeliver(s.bus, x, d)
    case LoseMail(x, d) => CanDeliver(s.bus, x, d)
    case Dispatch(c) => CanDispatch(s, c)
    case TakeResponse(r) => CanTakeResponse(s, r)
    case TakeClaim(r) => CanTakeClaim(s, r)
    case Timeout(r) => Live(s, r)
    case Serve(k, now) => CanServe(s, k)
    case Finish(i, o) => CanFinish(s, i)
  }

  function Apply(cfg: Config, s: State, step: Step): State
    requires Enabled(cfg, s, step)
  {
    match step
    case StartCall(r, call) => DoStartCall(cfg, s, r, call)
    case SendRequest(r) => DoSendRequest(cfg, s, r)
    case DeliverMail(x, d) => s.(bus := Deliver(s.bus, x, d))
    case LoseMail(x, d) => s.(bus := Lose(s.bus, x, d))
    case Dispatch(c) => DoDispatch(s, c)
    case TakeResponse(r) => DoTakeResponse(s, r)
    case TakeClaim(r) => DoTakeClaim(cfg, s, r)
    case Timeout(r) => DoTimeout(s, r)
    case Serve(k, now) => DoServe(cfg, s, k, now)
    case Finish(i, o) => DoFinish(cfg, s, i, o)
  }

  /** The state after a run, or None when some step was not enabled. */
  function After(cfg: Config, steps: seq<Step>): Option<State> {
    if steps == [] then Some(Init(cfg))
    else
      var before := After(cfg, steps[..|steps| - 1]);
      var last := steps[|steps| - 1];
      if before.Some? && Enabled(cfg, before.value, last) then Some(Apply(cfg, before.value, last)) else None
  }

  // -------------------------------------------------------------------------
  // Invariant, one predicate per component
  // -------------------------------------------------------------------------

  ghost predicate CallsOk(cfg: Config, calls: map<string, Call>) {
    forall r :: r in calls ==> calls[r].clientId in cfg.clients && calls[r].rpc != ""
  }

  /** The registration hosts exactly the service, method and topic the call names. */
  predicate Matches(cfg: Config, calls: map<string, Call>, k: RegKey, r: string) {
    && r in calls
    && cfg.ServerService(k.serverId) == cfg.ClientService(calls[r].clientId)
    && k.rpc == calls[r].rpc && k.topic == calls[r].topic
  }

  ghost predicate BackedBy(runs: seq<Run>, m: Msg, i: int) {
    && m.Response? && 0 <= i < |runs|
    && runs[i].requestId == m.requestId && runs[i].outcome.Some?
    && m == ResponseOf(m.requestId, runs[i].key.serverId, runs[i].outcome.value)
  }

  /** A finished handler run stands behind the response. */
  ghost predicate Backed(runs: seq<Run>, m: Msg) {
    exists i :: BackedBy(runs, m, i)
  }

  ghost predicate ResultBacked(runs: seq<Run>, r: string, result: CallResult) {
    result == TimedOut
    || (exists m :: Backed(runs, m) && m.Response? && m.requestId == r && result == ResponsePayload(m))
  }

  ghost predicate TaskOk(runs: seq<Run>, r: string, task: Task) {
    && (forall i :: 0 <= i < |task.claims| ==> task.claims[i].requestId == r)
    && (forall i :: 0 <= i < |task.responses| ==> task.responses[i].requestId == r && Backed(runs, task.responses[i]))
    && (task.result.Some? ==> ResultBacked(runs, r, task.result.value))
  }

  ghost predicate TasksOk(runs: seq<Run>, tasks: map<string, Task>) {
    forall r :: r in tasks ==> TaskOk(runs, r, tasks[r])
  }

  /** What is true of a message for as long as it exists. */
  ghost predicate MailOk(cfg: Config, calls: map<string, Call>, grants: seq<Grant>, runs: seq<Run>, d: Delivery) {
    && d.msg.requestId in calls
    && var call := calls[d.msg.requestId];
       match d.msg {
       case Request(r, c, e, raw) => c == call.clientId && raw == call.raw && d.channel == CallReq(cfg, call)
       case ClaimRequest(r, id) => d.channel == cfg.names.claim(cfg.ServerService(id), call.clientId)
       case ClaimResponse(r, id) => Grant(r, id) in grants && d.channel == CallGrant(cfg, call)
       case Response(r, id, _, _, _) =>
         Backed(runs, d.msg) && d.channel == cfg.names.response(cfg.ServerService(id), call.clientId)
       }
  }

  ghost predicate LogOk(cfg: Config, calls: map<string, Call>, grants: seq<Grant>, runs: seq<Run>, log: set<Delivery>) {
    forall d :: d in log ==> MailOk(cfg, calls, grants, runs, d)
  }

  ghost predicate WaitingOk(cfg: Config, calls: map<string, Call>, waiting: map<RegKey, map<string, Waiting>>) {
    && (forall k :: k in waiting ==> k in cfg.regs)
    && (forall k, r :: k in waiting && r in waiting[k] ==>
          && Matches(cfg, calls, k, r)
          && waiting[k][r].clientId == calls[r].clientId && waiting[k][r].raw == calls[r].raw)
  }

  ghost predicate GrantsOk(granted: set<string>, grants: seq<Grant>) {
    && (forall i :: 0 <= i < |grants| ==> grants[i].requestId in granted)
    && (forall i, j :: 0 <= i < j < |grants| ==> grants[i].requestId != grants[j].requestId)
  }

  ghost predicate RunOk(cfg: Config, calls: map<string, Call>, grants: seq<Grant>, run: Run) {
    && run.key in cfg.regs && Matches(cfg, calls, run.key, run.requestId)
    && Grant(run.requestId, run.key.serverId) in grants
    && run.clientId == calls[run.requestId].clientId && run.raw == calls[run.requestId].raw
  }

  ghost predicate RunsOk(cfg: Config, calls: map<string, Call>, grants: seq<Grant>, runs: seq<Run>) {
    && (forall i :: 0 <= i < |runs| ==> RunOk(cfg, calls, grants, runs[i]))
    && (forall i, j :: 0 <= i < j < |runs| ==> runs[i].requestId != runs[j].requestId)
  }

  predicate HasRun(runs: seq<Run>, r: string, k: RegKey) {
    exists i :: 0 <= i < |runs| && runs[i].requestId == r && runs[i].key == k
  }

  function GrantMail(cfg: Config, k: RegKey, r: string): Delivery {
    Delivery(cfg.GrantOf(k), ClaimResponse(r, k.serverId))
  }

  /** A registration is sent its grant at most once, and has none left once the handler runs. */
  ghost predicate GrantMailOk(cfg: Config, bus: Bus, runs: seq<Run>) {
    forall k, r :: k in cfg.regs ==>
      && Copies(bus, ServerSub(k), GrantMail(cfg, k, r)) <= 1
      && (HasRun(runs, r, k) ==> Copies(bus, ServerSub(k), GrantMail(cfg, k, r)) == 0)
  }

  ghost predicate Inv(cfg: Config, s: State) {
    && BusOk(s.bus)
    && CallsOk(cfg, s.calls)
    && TasksOk(s.runs, s.tasks)
    && LogOk(cfg, s.calls, s.grants, s.runs, s.bus.log)
    && WaitingOk(cfg, s.calls, s.waiting)
    && GrantsOk(s.granted, s.grants)
    && RunsOk(cfg, s.calls, s.grants, s.runs)
    && GrantMailOk(cfg, s.bus, s.runs)
  }

  // -------------------------------------------------------------------------
  // Histories only grow
  // -------------------------------------------------------------------------

  ghost predicate RunsGrow(runs: seq<Run>, runs': seq<Run>) {
    && |runs| <= |runs'|
    && forall i :: 0 <= i < |runs| ==>
         runs'[i] == runs[i] || (runs[i].outcome == None && runs'[i] == runs[i].(outcome := runs'[i].outcome))
  }

  lemma BackedGrows(runs: seq<Run>, runs': seq<Run>, m: Msg)
    requires RunsGrow(runs, runs') && Backed(runs, m)
    ensures Backed(runs', m)
  {
    var i :| BackedBy(runs, m, i);
    assert BackedBy(runs', m, i);
  }

  lemma TasksGrow(runs: seq<Run>, runs': seq<Run>, tasks: map<string, Task>)
    requires RunsGrow(runs, runs') && TasksOk(runs, tasks)
    ensures TasksOk(runs', tasks)
  {
    forall m | Backed(runs, m)
      ensures Backed(runs', m)
    {
      BackedGrows(runs, runs', m);
    }
    forall r | r in tasks
      ensures TaskOk(runs', r, tasks[r])
    {
      assert TaskOk(runs, r, tasks[r]);
    }
  }

  ghost predicate CallsGrow(calls: map<string, Call>, calls': map<string, Call>) {
    forall r :: r in calls ==> r in calls' && calls'[r] == calls[r]
  }

  lemma LogGrows(cfg: Config, calls: map<string, Call>, calls': map<string, Call>, grants: seq<Grant>, grants': seq<Grant>,
                 runs: seq<Run>, runs': seq<Run>, log: set<Delivery>)
    requires LogOk(cfg, calls, grants, runs, log)
    requires CallsGrow(calls, calls') && grants <= grants' && RunsGrow(runs, runs')
    ensures LogOk(cfg, calls', grants', runs', log)
  {
    forall d | d in log
      ensures MailOk(cfg, calls', grants', runs', d)
    {
      assert MailOk(cfg, calls, grants, runs, d);
      if d.msg.Response? {
        BackedGrows(runs, runs', d.msg);
      }
    }
  }

  // -------------------------------------------------------------------------
  // What every step keeps
  // -------------------------------------------------------------------------

  lemma GrantMailStays(cfg: Config, b: Bus, b': Bus, runs: seq<Run>)
    requires GrantMailOk(cfg, b, runs)
    requires forall d: Delivery :: d.msg.ClaimResponse? ==> NoMoreOf(b, b', d)
    ensures GrantMailOk(cfg, b', runs)
  {
    forall k, r | k in cfg.regs
      ensures Copies(b', ServerSub(k), GrantMail(cfg, k, r)) <= Copies(b, ServerSub(k), GrantMail(cfg, k, r))
    {
      assert NoMoreOf(b, b', GrantMail(cfg, k, r));
    }
  }

  lemma WaitingGrows(cfg: Config, calls: map<string, Call>, calls': map<string, Call>,
                     waiting: map<RegKey, map<string, Waiting>>)
    requires WaitingOk(cfg, calls, waiting) && CallsGrow(calls, calls')
    ensures WaitingOk(cfg, calls', waiting)
  {
    forall k, r | k in waiting && r in waiting[k]
      ensures Matches(cfg, calls', k, r)
      ensures waiting[k][r].clientId == calls'[r].clientId && waiting[k][r].raw == calls'[r].raw
    {
      assert Matches(cfg, calls, k, r);
    }
  }

  lemma RunsOkGrows(cfg: Config, calls: map<string, Call>, calls': map<string, Call>, grants: seq<Grant>, runs: seq<Run>)
    requires RunsOk(cfg, calls, grants, runs) && CallsGrow(calls, calls')
    ensures RunsOk(cfg, calls', grants, runs)
  {
    forall i | 0 <= i < |runs|
      ensures RunOk(cfg, calls', grants, runs[i])
    {
      assert RunOk(cfg, calls, grants, runs[i]);
    }
  }

  lemma StepStartCall(cfg: Config, s: State, r: string, call: Call)
    requires Inv(cfg, s) && CanStartCall(cfg, s, r, call)
    ensures Inv(cfg, DoStartCall(cfg, s, r, call))
  {
    var calls := s.calls[r := call];
    assert CallsGrow(s.calls, calls);
    LogGrows(cfg, s.calls, calls, s.grants, s.grants, s.runs, s.runs, s.bus.log);
    WaitingGrows(cfg, s.calls, calls, s.waiting);
    RunsOkGrows(cfg, s.calls, calls, s.grants, s.runs);
  }

  /** Publishing anything but a grant: only the new message needs checking. */
  lemma PublishKeeps(cfg: Config, s: State, d: Delivery)
    requires Inv(cfg, s) && !d.msg.ClaimResponse? && MailOk(cfg, s.calls, s.grants, s.runs, d)
    ensures Inv(cfg, s.(bus := Publish(cfg, s.bus, d)))
  {
    PublishOk(cfg, s.bus, d);
    GrantMailStays(cfg, s.bus, Publish(cfg, s.bus, d), s.runs);
  }

  lemma StepSendRequest(cfg: Config, s: State, r: string)
    requires Inv(cfg, s) && CanSendRequest(s, r)
    ensures Inv(cfg, DoSendRequest(cfg, s, r))
  {
    PublishKeeps(cfg, s, RequestMail(cfg, s, r));
  }

  lemma StepDeliver(cfg: Config, s: State, x: Subscriber, d: Delivery)
    requires Inv(cfg, s) && CanDeliver(s.bus, x, d)
    ensures Inv(cfg, s.(bus := Deliver(s.bus, x, d))) && Inv(cfg, s.(bus := Lose(s.bus, x, d)))
  {
    DeliverOk(s.bus, x, d);
    GrantMailStays(cfg, s.bus, Deliver(s.bus, x, d), s.runs);
    GrantMailStays(cfg, s.bus, Lose(s.bus, x, d), s.runs);
  }

  lemma ReceiveKeeps(cfg: Config, s: State, x: Subscriber)
    requires Inv(cfg, s) && HasMail(s.bus, x)
    ensures Inv(cfg, s.(bus := Receive(s.bus, x)))
    ensures MailOk(cfg, s.calls, s.grants, s.runs, s.bus.inbox[x][0])
  {
    ReceiveOk(s.bus, x);
    GrantMailStays(cfg, s.bus, Receive(s.bus, x), s.runs);
  }

  lemma RouteOk(runs: seq<Run>, tasks: map<string, Task>, m: Msg)
    requires TasksOk(runs, tasks) && (m.Response? ==> Backed(runs, m))
    ensures TasksOk(runs, Route(tasks, m))
  {
  }

  lemma StepDispatch(cfg: Config, s: State, c: string)
    requires Inv(cfg, s) && CanDispatch(s, c)
    ensures Inv(cfg, DoDispatch(s, c))
  {
    ReceiveKeeps(cfg, s, ClientSub(c));
    RouteOk(s.runs, s.tasks, s.bus.inbox[ClientSub(c)][0].msg);
  }

  lemma StepTakeResponse(cfg: Config, s: State, r: string)
    requires Inv(cfg, s) && CanTakeResponse(s, r)
    ensures Inv(cfg, DoTakeResponse(s, r))
  {
    var task := s.tasks[r];
    assert TaskOk(s.runs, r, task);
    assert ResultBacked(s.runs, r, ResponsePayload(task.responses[0]));
  }

  lemma StepTimeout(cfg: Config, s: State, r: string)
    requires Inv(cfg, s) && Live(s, r)
    ensures Inv(cfg, DoTimeout(s, r))
  {
    assert TaskOk(s.runs, r, s.tasks[r]);
  }

  lemma StepTakeClaim(cfg: Config, s: State, r: string)
    requires cfg.Legal() && Inv(cfg, s) && CanTakeClaim(s, r)
    ensures Inv(cfg, DoTakeClaim(cfg, s, r))
  {
    var task := s.tasks[r];
    assert TaskOk(s.runs, r, task);
    var tasks := s.tasks[r := task.(claims := task.claims[1..])];
    assert TaskOk(s.runs, r, tasks[r]);
    if r !in s.granted {
      GrantKeeps(cfg, s, r, task.claims[0].serverId);
    }
  }

  /** Before its grant is published no copy of a request's grant exists and it has not run. */
  lemma UngrantedHasNoMail(cfg: Config, s: State, r: string, k: RegKey)
    requires Inv(cfg, s) && r !in s.granted
    ensures Copies(s.bus, ServerSub(k), GrantMail(cfg, k, r)) == 0
    ensures !HasRun(s.runs, r, k)
  {
    var d := GrantMail(cfg, k, r);
    assert d in s.bus.log ==> MailOk(cfg, s.calls, s.grants, s.runs, d);
    assert HasRun(s.runs, r, k) ==> Grant(r, k.serverId) in s.grants;
  }

  lemma GrantKeeps(cfg: Config, s: State, r: string, id: string)
    requires cfg.Legal() && Inv(cfg, s) && r in s.calls && r !in s.granted
    ensures var d := Delivery(CallGrant(cfg, s.calls[r]), ClaimResponse(r, id));
            Inv(cfg, s.(granted := s.granted + {r}, grants := s.grants + [Grant(r, id)], bus := Publish(cfg, s.bus, d)))
  {
    var d := Delivery(CallGrant(cfg, s.calls[r]), ClaimResponse(r, id));
    var grants := s.grants + [Grant(r, id)];
    PublishOk(cfg, s.bus, d);
    LogGrows(cfg, s.calls, s.calls, s.grants, grants, s.runs, s.runs, s.bus.log);
    assert Grant(r, id) in grants;
    GrantMailAfterGrant(cfg, s, r, d);
  }

  lemma GrantMailAfterGrant(cfg: Config, s: State, r: string, d: Delivery)
    requires cfg.Legal() && Inv(cfg, s) && r !in s.granted && d.msg.ClaimResponse? && d.msg.requestId == r
    ensures GrantMailOk(cfg, Publish(cfg, s.bus, d), s.runs)
  {
    forall k, q | k in cfg.regs
      ensures var n := Copies(Publish(cfg, s.bus, d), ServerSub(k), GrantMail(cfg, k, q));
              n <= 1 && (HasRun(s.runs, q, k) ==> n == 0)
    {
      PublishCopies(cfg, s.bus, d, ServerSub(k), GrantMail(cfg, k, q));
      if q == r {
        UngrantedHasNoMail(cfg, s, r, k);
        assert multiset([cfg.ReqOf(k), cfg.GrantOf(k)]) == multiset{cfg.ReqOf(k), cfg.GrantOf(k)};
      }
    }
  }

  lemma StepServe(cfg: Config, s: State, k: RegKey, now: int)
    requires cfg.Legal() && Inv(cfg, s) && CanServe(s, k)
    ensures Inv(cfg, DoServe(cfg, s, k, now))
  {
    var d := s.bus.inbox[ServerSub(k)][0];
    var s' := s.(bus := Receive(s.bus, ServerSub(k)));
    ReceiveKeeps(cfg, s, ServerSub(k));
    ReceiveOk(s.bus, ServerSub(k));
    if d.channel == cfg.ReqOf(k) {
      if d.msg.Request? && d.msg.expiry > now {
        RequestRouted(cfg, s.calls, k, d.msg.requestId);
        ServeRequestKeeps(cfg, s', k, d.msg, now);
      }
    } else if d.channel == cfg.GrantOf(k) {
      if d.msg.ClaimResponse? && d.msg.serverId == k.serverId && d.msg.requestId in s.waiting[k] {
        assert d == GrantMail(cfg, k, d.msg.requestId);
        ServeGrantKeeps(cfg, s', k, d.msg.requestId);
      }
    }
  }

  /** Requests reach only registrations of the same service, method and topic. */
  lemma RequestRouted(cfg: Config, calls: map<string, Call>, k: RegKey, r: string)
    requires cfg.Legal() && CallsOk(cfg, calls) && k in cfg.regs && r in calls
    requires cfg.ReqOf(k) == CallReq(cfg, calls[r])
    ensures Matches(cfg, calls, k, r)
  {
  }

  lemma ServeRequestKeeps(cfg: Config, s: State, k: RegKey, m: Msg, now: int)
    requires Inv(cfg, s) && k in s.waiting && m.Request? && Matches(cfg, s.calls, k, m.requestId)
    requires m.clientId == s.calls[m.requestId].clientId && m.raw == s.calls[m.requestId].raw
    ensures Inv(cfg, ServeRequest(cfg, s, k, m, now))
  {
    PublishKeeps(cfg, s, BidMail(cfg, k, m));
  }

  lemma ServeGrantKeeps(cfg: Config, s: State, k: RegKey, r: string)
    requires Inv(cfg, s) && k in s.waiting && r in s.waiting[k] && Grant(r, k.serverId) in s.grants
    requires Copies(s.bus, ServerSub(k), GrantMail(cfg, k, r)) == 0 && !HasRun(s.runs, r, k)
    ensures Inv(cfg, ServeGrant(s, k, r))
  {
    var w := s.waiting[k][r];
    var runs := s.runs + [Run(r, k, w.clientId, w.raw, None)];
    NotYetRun(cfg, s, k, r);
    TasksGrow(s.runs, runs, s.tasks);
    LogGrows(cfg, s.calls, s.calls, s.grants, s.grants, s.runs, runs, s.bus.log);
    RunUsesGrant(cfg, s.bus, s.runs, runs[|s.runs|]);
  }

  /** A run that starts when its grant has been read keeps the count of grants. */
  lemma RunUsesGrant(cfg: Config, b: Bus, runs: seq<Run>, run: Run)
    requires GrantMailOk(cfg, b, runs) && Copies(b, ServerSub(run.key), GrantMail(cfg, run.key, run.requestId)) == 0
    ensures GrantMailOk(cfg, b, runs + [run])
  {
    forall q, r | q in cfg.regs
      ensures var n := Copies(b, ServerSub(q), GrantMail(cfg, q, r));
              n <= 1 && (HasRun(runs + [run], r, q) ==> n == 0)
    {
      assert HasRun(runs + [run], r, q) ==> HasRun(runs, r, q) || (q == run.key && r == run.requestId);
    }
  }

  lemma SameGrant(granted: set<string>, grants: seq<Grant>, r: string, a: string, b: string)
    requires GrantsOk(granted, grants) && Grant(r, a) in grants && Grant(r, b) in grants
    ensures a == b
  {
    var i :| 0 <= i < |grants| && grants[i] == Grant(r, a);
    var j :| 0 <= j < |grants| && grants[j] == Grant(r, b);
    assert i == j;
  }

  /** Only the granted registration can have run the request. */
  lemma NotYetRun(cfg: Config, s: State, k: RegKey, r: string)
    requires Inv(cfg, s) && Matches(cfg, s.calls, k, r) && Grant(r, k.serverId) in s.grants && !HasRun(s.runs, r, k)
    ensures forall i :: 0 <= i < |s.runs| ==> s.runs[i].requestId != r
  {
    forall i | 0 <= i < |s.runs|
      ensures s.runs[i].requestId != r
    {
      RunsWhereGranted(cfg, s, k, r, s.runs[i]);
    }
  }

  lemma RunsWhereGranted(cfg: Config, s: State, k: RegKey, r: string, run: Run)
    requires GrantsOk(s.granted, s.grants) && RunOk(cfg, s.calls, s.grants, run)
    requires Matches(cfg, s.calls, k, r) && Grant(r, k.serverId) in s.grants
    ensures run.requestId == r ==> run.key == k
  {
    if run.requestId == r {
      SameGrant(s.granted, s.grants, r, k.serverId, run.key.serverId);
    }
  }

  lemma StepFinish(cfg: Config, s: State, i: nat, o: Outcome)
    requires Inv(cfg, s) && CanFinish(s, i)
    ensures Inv(cfg, DoFinish(cfg, s, i, o))
  {
    var runs := s.runs[i := s.runs[i].(outcome := Some(o))];
    var d := AnswerMail(cfg, s.runs[i], o);
    assert RunOk(cfg, s.calls, s.grants, s.runs[i]);
    OutcomeKeeps(cfg, s, i, runs);
    assert BackedBy(runs, d.msg, i);
    PublishKeeps(cfg, s.(runs := runs), d);
  }

  lemma OutcomeKeeps(cfg: Config, s: State, i: nat, runs: seq<Run>)
    requires Inv(cfg, s) && CanFinish(s, i) && |runs| == |s.runs|
    requires runs == s.runs[i := s.runs[i].(outcome := runs[i].outcome)]
    ensures Inv(cfg, s.(runs := runs))
  {
    TasksGrow(s.runs, runs, s.tasks);
    LogGrows(cfg, s.calls, s.calls, s.grants, s.grants, s.runs, runs, s.bus.log);
    forall k, r
      ensures HasRun(runs, r, k) ==> HasRun(s.runs, r, k)
    {
    }
  }

  lemma StepKeepsInv(cfg: Config, s: State, step: Step)
    requires cfg.Legal() && Inv(cfg, s) && Enabled(cfg, s, step)
    ensures Inv(cfg, Apply(cfg, s, step))
  {
    match step
    case StartCall(r, call) => StepStartCall(cfg, s, r, call);
    case SendRequest(r) => StepSendRequest(cfg, s, r);
    case DeliverMail(x, d) => StepDeliver(cfg, s, x, d);
    case LoseMail(x, d) => StepDeliver(cfg, s, x, d);
    case Dispatch(c) => StepDispatch(cfg, s, c);
    case TakeResponse(r) => StepTakeResponse(cfg, s, r);
    case TakeClaim(r) => StepTakeClaim(cfg, s, r);
    case Timeout(r) => StepTimeout(cfg, s, r);
    case Serve(k, now) => StepServe(cfg, s, k, now);
    case Finish(i, o) => StepFinish(cfg, s, i, o);
  }

  lemma {:induction false} RunKeepsInv(cfg: Config, steps: seq<Step>)
    requires cfg.Legal() && After(cfg, steps).Some?
    ensures Inv(cfg, After(cfg, steps).value)
  {
    if steps == [] {
    } else {
      RunKeepsInv(cfg, steps[..|steps| - 1]);
      StepKeepsInv(cfg, After(cfg, steps[..|steps| - 1]).value, steps[|steps| - 1]);
    }
  }

  // -------------------------------------------------------------------------
  // Main results
  // -------------------------------------------------------------------------

  /** Any number of clients, servers and registrations, on the real channel names. */
  ghost predicate Deployment(cfg: Config) {
    && cfg.names == ChannelNames()
    && (forall c :: c in cfg.clients ==> c != "" && cfg.clients[c] != "")
    && (forall id :: id in cfg.servers ==> cfg.servers[id] != "")
    && (forall k :: k in cfg.regs ==> k.serverId in cfg.servers && k.rpc != "")
  }

  /** In every run a request is granted to at most one server, its handler is
      started at most once, and only on the server that was granted, for the
      service, method, topic and payload of the call. */
  lemma GrantedAndHandledAtMostOnce(cfg: Config, steps: seq<Step>)
    requires Deployment(cfg) && After(cfg, steps).Some?
    ensures var s := After(cfg, steps).value;
            && (forall i, j :: 0 <= i < j < |s.grants| ==> s.grants[i].requestId != s.grants[j].requestId)
            && (forall i, j :: 0 <= i < j < |s.runs| ==> s.runs[i].requestId != s.runs[j].requestId)
            && (forall i :: 0 <= i < |s.runs| ==>
                  && Grant(s.runs[i].requestId, s.runs[i].key.serverId) in s.grants
                  && Matches(cfg, s.calls, s.runs[i].key, s.runs[i].requestId)
                  && s.runs[i].raw == s.calls[s.runs[i].requestId].raw)
  {
    ChannelNamesProper();
    RunKeepsInv(cfg, steps);
  }

  /** In every run, a call that returned success or an RPC error returned what
      the one handler run for that request produced, on a server of the call's
      service, method and topic, from the call's own payload. */
  lemma ResultComesFromOwnHandler(cfg: Config, steps: seq<Step>, s: State, r: string) returns (i: int)
    requires Deployment(cfg) && After(cfg, steps) == Some(s)
    requires r in s.tasks && s.tasks[r].result.Some? && s.tasks[r].result.value != TimedOut
    ensures 0 <= i < |s.runs| && s.runs[i].requestId == r && s.runs[i].outcome.Some?
    ensures Matches(cfg, s.calls, s.runs[i].key, r) && s.runs[i].raw == s.calls[r].raw
    ensures Grant(r, s.runs[i].key.serverId) in s.grants
    ensures s.tasks[r].result.value == ResponsePayload(ResponseOf(r, s.runs[i].key.serverId, s.runs[i].outcome.value))
  {
    ChannelNamesProper();
    RunKeepsInv(cfg, steps);
    assert TaskOk(s.runs, r, s.tasks[r]);
    var m :| Backed(s.runs, m) && m.Response? && m.requestId == r && s.tasks[r].result.value == ResponsePayload(m);
    i :| BackedBy(s.runs, m, i);
    assert RunOk(cfg, s.calls, s.grants, s.runs[i]);
  }

  /** In every run, the message a server loop decodes is of the kind its channel
      stands for, although the loop never looks at the type URL. */
  lemma ServersDecodeTheRightKind(cfg: Config, steps: seq<Step>, k: RegKey)
    requires Deployment(cfg) && After(cfg, steps).Some? && CanServe(After(cfg, steps).value, k)
    ensures var d := After(cfg, steps).value.bus.inbox[ServerSub(k)][0];
            && (d.channel == cfg.ReqOf(k) ==> d.msg.Request?)
            && (d.channel == cfg.GrantOf(k) ==> d.msg.ClaimResponse?)
  {
    ChannelNamesProper();
    RunKeepsInv(cfg, steps);
    ReceiveKeeps(cfg, After(cfg, steps).value, ServerSub(k));
  }
}
