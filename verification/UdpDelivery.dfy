/** What the UDP loop must do with every datagram: lock the client, send, answer, or drop. */
module UdpDelivery {
  import opened Wire
  import opened Net
  import A = Addressing
  import D = Datagrams
  import opened UdpAssociation
  import opened UdpLaws
  import opened UdpRate

  /** The datagram comes from the locked client or, before the lock, from the control peer's IP. */
  predicate FromClientSide(cfg: Config, s: State, e: Event) {
    && s.open && e.Arrives?
    && (s.client == Some(e.source) || (s.client.None? && e.source.Ip() == cfg.clientIp))
  }

  /** The relay may send to `target` for this address: the literal itself, or the first address of the
      answer that is of the relay's family, in either case permitted. */
  ghost predicate Leads(cfg: Config, address: A.Address, resolved: Option<seq<SocketAddr>>, target: SocketAddr) {
    && !cfg.blocked(target.Ip())
    && match address
       case V4(octets, port) => target == SocketV4(octets, port)
       case V6(octets, port) => target == SocketV6(octets, port, 0, 0)
       case Domain(_, _) => resolved.Some? && IsFirstUsable(cfg, resolved.value, target)
  }

  /** `addresses[i]` has the relay's family and is permitted. */
  predicate Suits(cfg: Config, addresses: seq<SocketAddr>, i: nat)
    requires i < |addresses|
  {
    addresses[i].Ip().IpV4? == cfg.bindV4 && !cfg.blocked(addresses[i].Ip())
  }

  ghost predicate FirstAt(cfg: Config, addresses: seq<SocketAddr>, target: SocketAddr, i: nat) {
    && i < |addresses| && addresses[i] == target && Suits(cfg, addresses, i)
    && forall j: nat :: j < i ==> !Suits(cfg, addresses, j)
  }

  ghost predicate IsFirstUsable(cfg: Config, addresses: seq<SocketAddr>, target: SocketAddr) {
    exists i: nat :: FirstAt(cfg, addresses, target, i)
  }

  lemma {:induction false} FirstUsableIff(cfg: Config, addresses: seq<SocketAddr>, target: SocketAddr)
    ensures FirstUsable(cfg, addresses) == Some(target) <==> IsFirstUsable(cfg, addresses, target)
  {
    if FirstUsable(cfg, addresses).Some? {
      var i := FirstUsableIsFirst(cfg, addresses);
      assert FirstAt(cfg, addresses, addresses[i], i);
      if IsFirstUsable(cfg, addresses, target) {
        var k: nat :| FirstAt(cfg, addresses, target, k);
        assert i == k by { assert !(i < k) && !(k < i); }
      }
    } else if IsFirstUsable(cfg, addresses, target) {
      var k: nat :| FirstAt(cfg, addresses, target, k);
      assert addresses[k] in addresses && Usable(cfg, addresses[k]);
      assert false;
    }
  }

  lemma TargetIff(cfg: Config, address: A.Address, resolved: Option<seq<SocketAddr>>, target: SocketAddr)
    ensures Target(cfg, address, resolved) == Some(target) <==> Leads(cfg, address, resolved, target)
  {
    if address.Domain? && resolved.Some? {
      FirstUsableIff(cfg, resolved.value, target);
    }
  }

  /** An unfragmented datagram of the client, which the rate cap admits, leads to `target` with `payload`,
      and the socket takes it. */
  ghost predicate Due(cfg: Config, s: State, e: Event, target: SocketAddr, payload: Bytes) {
    && FromClientSide(cfg, s, e) && e.sent
    && (cfg.rate.Some? ==> !CapReached(cfg.rate.value, s.out, Max(s.clock, e.at)))
    && exists address :: D.Decap(e.bytes) == Ok(D.Datagram(0, address, payload))
         && Leads(cfg, address, e.resolved, target)
  }

  /** What a send leaves behind. */
  ghost predicate Delivers(s: State, t: State, e: Event, target: SocketAddr, payload: Bytes)
    requires e.Arrives?
  {
    && |t.out| == |s.out| + 1 && s.out <= t.out
    && t.out[|s.out|].target == target && t.out[|s.out|].payload == payload
    && t.out[|s.out|].at == Max(Max(s.clock, e.at), e.sentAt) == t.clock
    && t.inserted == (if target in s.known then s.inserted else s.inserted + [target])
    && target in t.known
  }

  lemma ForwardDelivers(cfg: Config, s: State, datagram: D.Datagram, e: Event)
    requires Indexed(cfg, s) && e.Arrives? && e.sent && !OverRate(cfg, s)
    requires Target(cfg, datagram.address, e.resolved).Some?
    ensures var target := Target(cfg, datagram.address, e.resolved).value;
      var t := Forwarded(cfg, s, datagram, e);
      && t.out == s.out + [Outgoing(target, datagram.data, t.clock, s.windowStart)]
      && t.clock == Max(s.clock, e.sentAt)
      && t.inserted == (if target in s.known then s.inserted else s.inserted + [target])
      && target in t.known
  {
    var target := Target(cfg, datagram.address, e.resolved).value;
    TrackedKeepsIndex(cfg, s, target);
    NewestIsKept(cfg, s, target);
  }

  lemma NewestIsKept(cfg: Config, s: State, target: SocketAddr)
    requires Indexed(cfg, s)
    ensures target in Tracked(cfg, s, target).known
  {
    if target !in s.known {
      TrackedKeepsSet(cfg, s, target);
      var order := s.order + [target];
      var kept := Tracked(cfg, s, target).order;
      assert kept[|kept| - 1] == target;
    }
  }

  /** In every reachable state, an arriving datagram is sent on to `target` with `payload` exactly when it
      is due there; so none that is due is dropped, and nothing else is sent. */
  lemma {:induction false} SendsIff(cfg: Config, start: nat, events: seq<Event>, e: Event, target: SocketAddr,
                                    payload: Bytes)
    ensures var s := Run(cfg, Init(start), events);
      var t := Step(cfg, s, e);
      && (Due(cfg, s, e, target, payload) ==> Delivers(s, t, e, target, payload))
      && (t.out != s.out ==>
            && |t.out| == |s.out| + 1
            && Due(cfg, s, e, t.out[|s.out|].target, t.out[|s.out|].payload))
  {
    var s := Run(cfg, Init(start), events);
    var t := Step(cfg, s, e);
    RunKeepsInv(cfg, start, events);
    if Due(cfg, s, e, target, payload) {
      DueIsSent(cfg, start, events, e, target, payload);
    }
    if t.out != s.out {
      SentIsDue(cfg, start, events, e);
    }
  }

  lemma {:induction false} RateDecides(cfg: Config, start: nat, events: seq<Event>, s: State, e: Event, now: nat)
    requires s == Run(cfg, Init(start), events) && e.Arrives? && now == Max(s.clock, e.at)
    ensures OverRate(cfg, Windowed(cfg, Locked(s, e.source, now), now))
      <==> cfg.rate.Some? && CapReached(cfg.rate.value, s.out, now)
  {
    if cfg.rate.Some? {
      RefusedIff(cfg, start, events, now);
    }
  }

  lemma {:induction false} DueIsSent(cfg: Config, start: nat, events: seq<Event>, e: Event, target: SocketAddr,
                                     payload: Bytes)
    requires Due(cfg, Run(cfg, Init(start), events), e, target, payload)
    ensures var s := Run(cfg, Init(start), events);
      Delivers(s, Step(cfg, s, e), e, target, payload)
  {
    var s := Run(cfg, Init(start), events);
    var now := Max(s.clock, e.at);
    RunKeepsInv(cfg, start, events);
    RateDecides(cfg, start, events, s, e, now);
    var datagram := D.Decap(e.bytes).value;
    TargetIff(cfg, datagram.address, e.resolved, target);
    ForwardDelivers(cfg, Windowed(cfg, Locked(s, e.source, now), now), datagram, e);
  }

  lemma {:induction false} SentIsDue(cfg: Config, start: nat, events: seq<Event>, e: Event)
    requires var s := Run(cfg, Init(start), events); Step(cfg, s, e).out != s.out
    ensures var s := Run(cfg, Init(start), events);
      var t := Step(cfg, s, e);
      |t.out| == |s.out| + 1 && Due(cfg, s, e, t.out[|s.out|].target, t.out[|s.out|].payload)
  {
    var s := Run(cfg, Init(start), events);
    var now := Max(s.clock, e.at);
    RateDecides(cfg, start, events, s, e, now);
    var datagram := D.Decap(e.bytes).value;
    var target := Target(cfg, datagram.address, e.resolved).value;
    TargetIff(cfg, datagram.address, e.resolved, target);
  }

  // ---- Replies ----

  /** The reply that a datagram earns in state `s`, if any. */
  function ReplyTo(s: State, e: Event): Option<Reply> {
    if s.open && e.Arrives? && s.client.Some? && e.source != s.client.value && e.source in s.known
    then
      var frame := [0, 0, 0] + A.Encoded(ToAddress(e.source)) + e.bytes;
      Some(Reply(s.client.value, frame, e.source, e.bytes, |s.out|))
    else None
  }

  /** One reply for each datagram of a run that comes from a source tracked at that time and is not the
      client's. */
  function RepliesDue(cfg: Config, start: nat, events: seq<Event>): seq<Reply> {
    if events == [] then []
    else
      var n := |events| - 1;
      var before := RepliesDue(cfg, start, events[..n]);
      match ReplyTo(Run(cfg, Init(start), events[..n]), events[n])
      case None => before
      case Some(reply) => before + [reply]
  }

  lemma StepReplies(cfg: Config, s: State, e: Event)
    ensures Step(cfg, s, e).replies
      == match ReplyTo(s, e)
         case None => s.replies
         case Some(reply) => s.replies + [reply]
  {
  }

  /** The replies of a run are exactly those: none is dropped, repeated, reordered or made up. */
  lemma {:induction false} RepliesIff(cfg: Config, start: nat, events: seq<Event>)
    ensures Run(cfg, Init(start), events).replies == RepliesDue(cfg, start, events)
  {
    if events != [] {
      var n := |events| - 1;
      RepliesIff(cfg, start, events[..n]);
      StepReplies(cfg, Run(cfg, Init(start), events[..n]), events[n]);
    }
  }

  // ---- The lock and the end of the loop ----

  lemma StaysOpen(cfg: Config, s: State, e: Event)
    ensures Step(cfg, s, e).open <==> s.open && e != Close
  {
  }

  /** No datagram ends the loop. */
  lemma {:induction false} OpenUntilClosed(cfg: Config, start: nat, events: seq<Event>)
    ensures Run(cfg, Init(start), events).open <==> Close !in events
  {
    if events != [] {
      var n := |events| - 1;
      OpenUntilClosed(cfg, start, events[..n]);
      StaysOpen(cfg, Run(cfg, Init(start), events[..n]), events[n]);
      assert events == events[..n] + [events[n]];
    }
  }

  /** A datagram with the control peer's IP. */
  predicate FromPeer(cfg: Config, e: Event) {
    e.Arrives? && e.source.Ip() == cfg.clientIp
  }

  /** Event `i` is the first of the control peer's IP, in a loop that still runs. */
  predicate FirstContact(cfg: Config, events: seq<Event>, i: nat) {
    && i < |events| && FromPeer(cfg, events[i])
    && (forall j :: 0 <= j < i ==> events[j] != Close && !FromPeer(cfg, events[j]))
  }

  lemma StepLocks(cfg: Config, s: State, e: Event)
    ensures Step(cfg, s, e).client
      == if s.client.None? && s.open && FromPeer(cfg, e) then Some(e.source) else s.client
  {
  }

  lemma {:induction false} FirstContactEarlier(cfg: Config, events: seq<Event>, n: nat, a: SocketAddr)
    requires n + 1 == |events|
    ensures (exists i: nat :: FirstContact(cfg, events, i) && events[i].source == a)
      <==> || (exists i: nat :: FirstContact(cfg, events[..n], i) && events[..n][i].source == a)
           || (FirstContact(cfg, events, n) && events[n].source == a)
  {
    forall i: nat | i < n ensures FirstContact(cfg, events[..n], i) <==> FirstContact(cfg, events, i) {
      assert events[..n][i] == events[i];
      if FirstContact(cfg, events[..n], i) {
        forall j | 0 <= j < i ensures events[j] != Close && !FromPeer(cfg, events[j]) {
          assert events[..n][j] == events[j];
        }
      }
    }
    if exists i: nat :: FirstContact(cfg, events, i) && events[i].source == a {
      var i: nat :| FirstContact(cfg, events, i) && events[i].source == a;
      assert i < n ==> FirstContact(cfg, events[..n], i) && events[..n][i].source == a;
    }
    if exists i: nat :: FirstContact(cfg, events[..n], i) && events[..n][i].source == a {
      var i: nat :| FirstContact(cfg, events[..n], i) && events[..n][i].source == a;
      assert FirstContact(cfg, events, i) && events[i].source == a;
    }
  }

  lemma {:induction false} UnlockedIff(cfg: Config, start: nat, events: seq<Event>)
    ensures var s := Run(cfg, Init(start), events);
      s.client.None? && s.open <==> forall j :: 0 <= j < |events| ==> events[j] != Close && !FromPeer(cfg, events[j])
  {
    if events != [] {
      var n := |events| - 1;
      UnlockedIff(cfg, start, events[..n]);
      StepLocks(cfg, Run(cfg, Init(start), events[..n]), events[n]);
      StaysOpen(cfg, Run(cfg, Init(start), events[..n]), events[n]);
      assert forall j :: 0 <= j < n ==> events[..n][j] == events[j];
    }
  }

  /** The client of a run is the source of the first datagram of the control peer's IP, whether or not
      that datagram decapsulates; nothing before, between or after changes this. */
  lemma {:induction false} LocksIff(cfg: Config, start: nat, events: seq<Event>, a: SocketAddr)
    ensures Run(cfg, Init(start), events).client == Some(a)
      <==> exists i: nat :: FirstContact(cfg, events, i) && events[i].source == a
  {
    if events != [] {
      var n := |events| - 1;
      var s := Run(cfg, Init(start), events[..n]);
      LocksIff(cfg, start, events[..n], a);
      UnlockedIff(cfg, start, events[..n]);
      FirstContactEarlier(cfg, events, n, a);
      StepLocks(cfg, s, events[n]);
      assert FirstContact(cfg, events, n) <==> FromPeer(cfg, events[n]) && s.client.None? && s.open by {
        assert forall j :: 0 <= j < n ==> events[..n][j] == events[j];
      }
    }
  }
}
