/** The UDP association loop (section 7 of RFC 1928): who the client is, which targets it may hear
    from, and how often it may send. Times are nanoseconds. */
module UdpAssociation {
  import opened Wire
  import opened Net
  import A = Addressing
  import D = Datagrams
  import Egress

  const SECOND: nat := 1_000_000_000

  /** `clientIp` is the control peer's canonical IP, `bindV4` the family of the relay socket. */
  datatype Config = Config(blocked: IpAddr -> bool, clientIp: IpAddr, bindV4: bool, maxTargets: nat, rate: Option<nat>)

  function ConfigOf(policy: Egress.Policy, peer: IpAddr, bind: IpAddr, maxTargets: nat, rate: Option<nat>): Config {
    Config((ip: IpAddr) => Egress.IsBlocked(policy, ip), Canonical(peer), Canonical(bind).IpV4?, maxTargets, rate)
  }

  function Capacity(cfg: Config): (n: nat)
    ensures n >= 1
  {
    Max(cfg.maxTargets, 1)
  }

  /** A successful outbound send, and the start of the rate window it was counted in. */
  datatype Outgoing = Outgoing(target: SocketAddr, payload: Bytes, at: nat, window: nat)

  /** A datagram handed to the socket for the client; `after` successful sends preceded it. */
  datatype Reply = Reply(to: SocketAddr, frame: Bytes, source: SocketAddr, payload: Bytes, after: nat)

  /** The loop's variables, the clock and whether the loop still runs, then the history: successful
      sends, replies, and every insertion into the tracked targets. */
  datatype State = State(
    client: Option<SocketAddr>, known: set<SocketAddr>, order: seq<SocketAddr>,
    windowStart: nat, windowCount: nat, clock: nat, open: bool,
    out: seq<Outgoing>, replies: seq<Reply>, inserted: seq<SocketAddr>)

  /** A datagram arrives at `at`. Should its domain need resolving, `resolved` is the answer; should
      it be sent, the send ends at `sentAt`. Or the loop ends. */
  datatype Event =
    | Arrives(source: SocketAddr, bytes: Bytes, at: nat, resolved: Option<seq<SocketAddr>>, sent: bool, sentAt: nat)
    | Close

  function Init(start: nat): State {
    State(None, {}, [], start, 0, start, true, [], [], [])
  }

  predicate IsClient(cfg: Config, client: Option<SocketAddr>, source: SocketAddr) {
    match client
    case Some(address) => source == address
    case None => source.Ip() == cfg.clientIp
  }

  predicate Usable(cfg: Config, address: SocketAddr) {
    address.Ip().IpV4? == cfg.bindV4 && !cfg.blocked(address.Ip())
  }

  /** The first usable address of an answer. */
  function FirstUsable(cfg: Config, addresses: seq<SocketAddr>): (r: Option<SocketAddr>)
    ensures r.Some? ==> r.value in addresses && Usable(cfg, r.value)
    ensures r.None? ==> forall a :: a in addresses ==> !Usable(cfg, a)
  {
    if addresses == [] then None
    else if Usable(cfg, addresses[0]) then Some(addresses[0])
    else FirstUsable(cfg, addresses[1..])
  }

  lemma {:induction false} FirstUsableIsFirst(cfg: Config, addresses: seq<SocketAddr>) returns (i: nat)
    requires FirstUsable(cfg, addresses).Some?
    ensures i < |addresses| && FirstUsable(cfg, addresses) == Some(addresses[i]) && Usable(cfg, addresses[i])
    ensures forall j :: 0 <= j < i ==> !Usable(cfg, addresses[j])
  {
    if Usable(cfg, addresses[0]) {
      i := 0;
    } else {
      i := FirstUsableIsFirst(cfg, addresses[1..]);
      i := i + 1;
    }
  }

  /** Where a datagram goes, unless its name does not resolve or the policy forbids it. */
  function Target(cfg: Config, address: A.Address, resolved: Option<seq<SocketAddr>>): (r: Option<SocketAddr>)
    ensures r.Some? ==> !cfg.blocked(r.value.Ip())
  {
    var target :=
      if !address.Domain? then Literal(address)
      else if resolved.Some? then FirstUsable(cfg, resolved.value)
      else None;
    if target.Some? && cfg.blocked(target.value.Ip()) then None else target
  }

  /** The fixed window: restarted when a second has passed. */
  function Windowed(cfg: Config, s: State, now: nat): State {
    if cfg.rate.Some? && s.windowStart + SECOND <= now then s.(windowStart := now, windowCount := 0) else s
  }

  predicate OverRate(cfg: Config, s: State) {
    cfg.rate.Some? && s.windowCount >= cfg.rate.value
  }

  /** Remember a target; the oldest one goes when there are too many. */
  function Tracked(cfg: Config, s: State, target: SocketAddr): State {
    if target in s.known then s
    else
      var order := s.order + [target];
      var inserted := s.inserted + [target];
      if |order| > Capacity(cfg)
      then s.(order := order[1..], known := s.known + {target} - {order[0]}, inserted := inserted)
      else s.(order := order, known := s.known + {target}, inserted := inserted)
  }

  function OnSent(cfg: Config, s: State, target: SocketAddr, payload: Bytes, at: nat): State {
    Tracked(cfg, s, target).(
      windowCount := if cfg.rate.Some? then s.windowCount + 1 else s.windowCount,
      out := s.out + [Outgoing(target, payload, at, s.windowStart)])
  }

  /** A well-formed datagram in the current window: rate check, target, egress check, send. */
  function Forwarded(cfg: Config, s: State, datagram: D.Datagram, e: Event): State
    requires e.Arrives?
  {
    if OverRate(cfg, s) then s
    else
      var t := s.(clock := Max(s.clock, e.sentAt));
      match Target(cfg, datagram.address, e.resolved)
      case None => t
      case Some(target) => if e.sent then OnSent(cfg, t, target, datagram.data, t.clock) else t
  }

  /** The client's address is locked by its first datagram. */
  function Locked(s: State, source: SocketAddr, now: nat): State {
    s.(client := if s.client.None? then Some(source) else s.client, clock := now)
  }

  /** A datagram from the client. */
  function FromClient(cfg: Config, s: State, e: Event, now: nat): State
    requires e.Arrives?
  {
    match D.Decap(e.bytes)
    case Err(_) => Locked(s, e.source, now)
    case Ok(datagram) =>
      if datagram.frag != 0 then Locked(s, e.source, now)
      else Forwarded(cfg, Windowed(cfg, Locked(s, e.source, now), now), datagram, e)
  }

  /** A datagram from a tracked target. */
  function FromTarget(s: State, e: Event, now: nat): State
    requires e.Arrives?
  {
    match s.client
    case None => s.(clock := now)
    case Some(client) =>
      var frame := D.Encapsulated(ToAddress(e.source), e.bytes);
      s.(replies := s.replies + [Reply(client, frame, e.source, e.bytes, |s.out|)], clock := now)
  }

  function Step(cfg: Config, s: State, e: Event): State {
    if !s.open then s
    else match e
      case Close => s.(open := false)
      case Arrives(source, _, at, _, _, _) =>
        var now := Max(s.clock, at);
        if IsClient(cfg, s.client, source) then FromClient(cfg, s, e, now)
        else if source in s.known then FromTarget(s, e, now)
        else s.(clock := now)
  }

  function Run(cfg: Config, s: State, events: seq<Event>): State {
    if events == [] then s else Step(cfg, Run(cfg, s, events[..|events| - 1]), events[|events| - 1])
  }

  // ---- The code ----

  /** The variables of the relay loop; `model` carries the history as well. */
  class Association {
    const cfg: Config
    var client: Option<SocketAddr>
    var known: set<SocketAddr>
    var order: seq<SocketAddr>
    var windowStart: nat
    var windowCount: nat
    var clock: nat
    var open: bool
    ghost var model: State

    ghost predicate Valid()
      reads this
    {
      model == State(client, known, order, windowStart, windowCount, clock, open,
                     model.out, model.replies, model.inserted)
    }

    constructor (cfg: Config, start: nat)
      ensures Valid() && this.cfg == cfg && model == Init(start)
    {
      this.cfg := cfg;
      client, known, order, windowStart, windowCount, clock, open := None, {}, [], start, 0, start, true;
      model := Init(start);
    }

    /** The rate check: restarts the window when it is over. */
    method Restart(now: nat)
      requires Valid()
      modifies this`windowStart, this`windowCount, this`model
      ensures Valid() && model == Windowed(cfg, old(model), now)
    {
      model := Windowed(cfg, model, now);
      if cfg.rate.Some? && windowStart + SECOND <= now {
        windowStart, windowCount := now, 0;
      }
    }

    /** A successful send: count it and track its target. */
    method Sent(target: SocketAddr, payload: Bytes)
      requires Valid()
      modifies this`windowCount, this`known, this`order, this`model
      ensures Valid() && model == OnSent(cfg, old(model), target, payload, clock)
    {
      model := OnSent(cfg, model, target, payload, clock);
      if cfg.rate.Some? {
        windowCount := windowCount + 1;
      }
      if target !in known {
        known := known + {target};
        order := order + [target];
        if |order| > Capacity(cfg) {
          known := known - {order[0]};
          order := order[1..];
        }
      }
    }

    method TakeClient(e: Event, now: nat)
      requires Valid() && e.Arrives?
      modifies this
      ensures Valid() && model == FromClient(cfg, old(model), e, now)
    {
      if client.None? {
        client := Some(e.source);
      }
      clock := now;
      model := Locked(model, e.source, now);
      var datagram := D.Decap(e.bytes);
      if datagram.Err? || datagram.value.frag != 0 {
        return;
      }
      Restart(now);
      if cfg.rate.Some? && windowCount >= cfg.rate.value {
        return;
      }
      var target := Target(cfg, datagram.value.address, e.resolved);
      clock := Max(now, e.sentAt);
      model := model.(clock := clock);
      if target.Some? && e.sent {
        Sent(target.value, datagram.value.data);
      }
    }

    /** One turn of the loop; returns the frame sent to the client, if any. */
    method Turn(e: Event) returns (reply: Option<(SocketAddr, Bytes)>)
      requires Valid()
      modifies this
      ensures Valid() && model == Step(cfg, old(model), e)
      ensures reply.Some? <==> |model.replies| == |old(model).replies| + 1
      ensures reply.Some? ==>
        var sent := model.replies[|model.replies| - 1];
        reply.value == (sent.to, sent.frame)
    {
      reply := None;
      if !open {
        return;
      }
      if e.Close? {
        open := false;
        model := model.(open := false);
        return;
      }
      var now := Max(clock, e.at);
      if IsClient(cfg, client, e.source) {
        TakeClient(e, now);
      } else {
        clock := now;
        if e.source in known && client.Some? {
          var framed := new ByteVec();
          D.Encap(ToAddress(e.source), e.bytes, framed);
          assert framed.data == D.Encapsulated(ToAddress(e.source), e.bytes);
          reply := Some((client.value, framed.data));
          model := FromTarget(model, e, now);
        } else {
          model := model.(clock := now);
        }
      }
    }
  }
}
