/** The in-memory publish/subscribe bus of psrpc and the messages it carries.
    A publication snapshots the subscribers of its channel and then sends to
    them one by one, so the bus keeps, per subscriber, the sends still under way
    and the FIFO queue the subscriber reads from. A send may also be lost, which
    covers subscribers that appear late or leave. */
module PsrpcBus {
  import opened Channels

  // -------------------------------------------------------------------------
  // Who takes part
  // -------------------------------------------------------------------------

  /** The four channel builders. Safety needs them to be `Proper`. */
  datatype Names = Names(req: (string, string, string) -> string, grant: (string, string, string) -> string,
                         response: (string, string) -> string, claim: (string, string) -> string)

  /** One `register_topic` loop. */
  datatype RegKey = RegKey(serverId: string, rpc: string, topic: string)

  datatype Subscriber = ClientSub(clientId: string) | ServerSub(key: RegKey)

  /** Clients and servers with their services, and the registrations; at most one
      registration per server, method and topic. */
  datatype Config = Config(names: Names, clients: map<string, string>, servers: map<string, string>, regs: set<RegKey>)
  {
    function ClientService(c: string): string {
      if c in clients then clients[c] else ""
    }

    function ServerService(id: string): string {
      if id in servers then servers[id] else ""
    }

    function ReqOf(k: RegKey): string {
      names.req(ServerService(k.serverId), k.rpc, k.topic)
    }

    function GrantOf(k: RegKey): string {
      names.grant(ServerService(k.serverId), k.rpc, k.topic)
    }

    /** The channel list each subscriber passes to `subscribe`. */
    function Channels(x: Subscriber): seq<string> {
      match x
      case ClientSub(c) => [names.response(ClientService(c), c), names.claim(ClientService(c), c)]
      case ServerSub(k) => [ReqOf(k), GrantOf(k)]
    }

    ghost predicate Legal() {
      && Proper(names)
      && (forall c :: c in clients ==> c != "" && clients[c] != "")
      && (forall id :: id in servers ==> servers[id] != "")
      && (forall k :: k in regs ==> k.serverId in servers && k.rpc != "")
    }
  }

  ghost predicate Proper(n: Names) {
    && (forall s, m, t, s', m', t' | s != "" && m != "" && s' != "" && m' != "" ::
          n.req(s, m, t) == n.req(s', m', t') ==> s == s' && m == m' && t == t')
    && (forall s, m, t, s', m', t' | s != "" && m != "" && s' != "" && m' != "" ::
          n.grant(s, m, t) == n.grant(s', m', t') ==> s == s' && m == m' && t == t')
    && (forall s, m, t, s', m', t' :: n.req(s, m, t) != n.grant(s', m', t'))
    && (forall s, m, t, u, c :: n.req(s, m, t) != n.response(u, c))
    && (forall s, m, t, u, c :: n.req(s, m, t) != n.claim(u, c))
    && (forall s, m, t, u, c :: n.grant(s, m, t) != n.response(u, c))
    && (forall s, m, t, u, c :: n.grant(s, m, t) != n.claim(u, c))
  }

  function ChannelNames(): Names {
    Names(RpcChannel, ClaimResponseChannel, ResponseChannel, ClaimRequestChannel)
  }

  lemma ReqInjective()
    ensures forall s, m, t, s', m', t' | s != "" && m != "" && s' != "" && m' != "" ::
              RpcChannel(s, m, t) == RpcChannel(s', m', t') ==> s == s' && m == m' && t == t'
  {
    forall s, m, t, s', m', t' | s != "" && m != "" && s' != "" && m' != "" && RpcChannel(s, m, t) == RpcChannel(s', m', t')
      ensures s == s' && m == m' && t == t'
    {
      TopicFamiliesInjective(s, m, t, s', m', t');
    }
  }

  lemma GrantInjective()
    ensures forall s, m, t, s', m', t' | s != "" && m != "" && s' != "" && m' != "" ::
              ClaimResponseChannel(s, m, t) == ClaimResponseChannel(s', m', t') ==> s == s' && m == m' && t == t'
  {
    forall s, m, t, s', m', t' | s != "" && m != "" && s' != "" && m' != ""
                                 && ClaimResponseChannel(s, m, t) == ClaimResponseChannel(s', m', t')
      ensures s == s' && m == m' && t == t'
    {
      TopicFamiliesInjective(s, m, t, s', m', t');
    }
  }

  lemma AllDisjoint()
    ensures forall s, m, t, s', m', t' :: RpcChannel(s, m, t) != ClaimResponseChannel(s', m', t')
    ensures forall s, m, t, u, c :: RpcChannel(s, m, t) != ResponseChannel(u, c)
    ensures forall s, m, t, u, c :: RpcChannel(s, m, t) != ClaimRequestChannel(u, c)
    ensures forall s, m, t, u, c :: ClaimResponseChannel(s, m, t) != ResponseChannel(u, c)
    ensures forall s, m, t, u, c :: ClaimResponseChannel(s, m, t) != ClaimRequestChannel(u, c)
  {
    forall s, m, t, s', m', t'
      ensures RpcChannel(s, m, t) != ClaimResponseChannel(s', m', t')
    {
      FamiliesDisjoint(s, m, t, s', m', t', "", "", "", "");
    }
    forall s, m, t, u, c
      ensures RpcChannel(s, m, t) != ResponseChannel(u, c)
      ensures RpcChannel(s, m, t) != ClaimRequestChannel(u, c)
      ensures ClaimResponseChannel(s, m, t) != ResponseChannel(u, c)
      ensures ClaimResponseChannel(s, m, t) != ClaimRequestChannel(u, c)
    {
      FamiliesDisjoint(s, m, t, s, m, t, u, c, u, c);
    }
  }

  /** The real channel builders are proper. */
  lemma ChannelNamesProper()
    ensures Proper(ChannelNames())
  {
    ReqInjective();
    GrantInjective();
    AllDisjoint();
  }

  // -------------------------------------------------------------------------
  // Messages and mail
  // -------------------------------------------------------------------------

  datatype Msg =
    | Request(requestId: string, clientId: string, expiry: int, raw: string)
    | ClaimRequest(requestId: string, serverId: string)
    | ClaimResponse(requestId: string, serverId: string)
    | Response(requestId: string, serverId: string, raw: string, error: string, code: string)

  datatype Delivery = Delivery(channel: string, msg: Msg)

  /** `log` is the history of everything published. */
  datatype Bus = Bus(sending: map<Subscriber, multiset<Delivery>>, inbox: map<Subscriber, seq<Delivery>>, log: set<Delivery>)

  /** Copies of `d` that `x` has still to read. */
  function Copies(b: Bus, x: Subscriber, d: Delivery): nat {
    (if x in b.sending then b.sending[x][d] else 0) + (if x in b.inbox then multiset(b.inbox[x])[d] else 0)
  }

  ghost predicate BusOk(b: Bus) {
    forall x, d :: Copies(b, x, d) > 0 ==> d in b.log
  }

  /** Every subscription to the channel is sent one copy. */
  function Publish(cfg: Config, b: Bus, d: Delivery): Bus {
    b.(sending := map x | x in b.sending ::
                    b.sending[x][d := b.sending[x][d] + multiset(cfg.Channels(x))[d.channel]],
       log := b.log + {d})
  }

  predicate CanDeliver(b: Bus, x: Subscriber, d: Delivery) {
    x in b.sending && d in b.sending[x] && x in b.inbox
  }

  function Deliver(b: Bus, x: Subscriber, d: Delivery): Bus
    requires CanDeliver(b, x, d)
  {
    b.(sending := b.sending[x := b.sending[x] - multiset{d}], inbox := b.inbox[x := b.inbox[x] + [d]])
  }

  function Lose(b: Bus, x: Subscriber, d: Delivery): Bus
    requires CanDeliver(b, x, d)
  {
    b.(sending := b.sending[x := b.sending[x] - multiset{d}])
  }

  predicate HasMail(b: Bus, x: Subscriber) {
    x in b.inbox && b.inbox[x] != []
  }

  function Receive(b: Bus, x: Subscriber): Bus
    requires HasMail(b, x)
  {
    b.(inbox := b.inbox[x := b.inbox[x][1..]])
  }

  /** Nobody has more of `d` to read. */
  ghost predicate NoMoreOf(b: Bus, b': Bus, d: Delivery) {
    forall x :: Copies(b', x, d) <= Copies(b, x, d)
  }

  lemma BusStays(b: Bus, b': Bus)
    requires BusOk(b) && b.log <= b'.log
    requires forall d :: d in b'.log || NoMoreOf(b, b', d)
    ensures BusOk(b')
  {
    forall x, d | Copies(b', x, d) > 0
      ensures d in b'.log
    {
      assert NoMoreOf(b, b', d) ==> Copies(b, x, d) > 0;
    }
  }

  lemma PublishCopies(cfg: Config, b: Bus, d: Delivery, x: Subscriber, e: Delivery)
    ensures Copies(Publish(cfg, b, d), x, e)
         <= Copies(b, x, e) + if e == d then multiset(cfg.Channels(x))[d.channel] else 0
  {
    if x in b.sending {
      PublishedCopies(cfg, b, d, x, e);
    }
  }

  lemma PublishedCopies(cfg: Config, b: Bus, d: Delivery, x: Subscriber, e: Delivery)
    requires x in b.sending
    ensures Publish(cfg, b, d).sending[x][e]
         == b.sending[x][e] + if e == d then multiset(cfg.Channels(x))[d.channel] else 0
  {
    var n := b.sending[x][d] + multiset(cfg.Channels(x))[d.channel];
    assert Publish(cfg, b, d).sending[x] == b.sending[x][d := n];
    if e == d {
      assert b.sending[x][d := n][e] == n;
    } else {
      assert b.sending[x][d := n][e] == b.sending[x][e];
    }
  }

  lemma PublishOk(cfg: Config, b: Bus, d: Delivery)
    requires BusOk(b)
    ensures BusOk(Publish(cfg, b, d)) && Publish(cfg, b, d).log == b.log + {d}
    ensures forall e :: e != d ==> NoMoreOf(b, Publish(cfg, b, d), e)
  {
    forall x, e | e != d
      ensures Copies(Publish(cfg, b, d), x, e) <= Copies(b, x, e)
    {
      PublishCopies(cfg, b, d, x, e);
    }
    BusStays(b, Publish(cfg, b, d));
  }

  lemma DeliverOk(b: Bus, x: Subscriber, d: Delivery)
    requires BusOk(b) && CanDeliver(b, x, d)
    ensures BusOk(Deliver(b, x, d)) && BusOk(Lose(b, x, d))
    ensures forall e :: NoMoreOf(b, Deliver(b, x, d), e) && NoMoreOf(b, Lose(b, x, d), e)
  {
    BusStays(b, Deliver(b, x, d));
    BusStays(b, Lose(b, x, d));
  }

  lemma ReceiveOk(b: Bus, x: Subscriber)
    requires BusOk(b) && HasMail(b, x)
    ensures BusOk(Receive(b, x))
    ensures b.inbox[x][0] in b.log
    ensures forall e :: NoMoreOf(b, Receive(b, x), e)
    ensures Copies(Receive(b, x), x, b.inbox[x][0]) == Copies(b, x, b.inbox[x][0]) - 1
  {
    var q := b.inbox[x];
    assert q == [q[0]] + q[1..];
    assert multiset(q) == multiset{q[0]} + multiset(q[1..]);
    assert Copies(b, x, q[0]) > 0;
    BusStays(b, Receive(b, x));
  }
}
