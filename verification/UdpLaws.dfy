/** Source locking, tracked targets and the provenance of replies, over every run. */
module UdpLaws {
  import opened Wire
  import opened Net
  import D = Datagrams
  import Egress
  import opened UdpAssociation

  /** The last `n` elements, or all of them. */
  function Latest(s: seq<SocketAddr>, n: nat): seq<SocketAddr> {
    s[|s| - Min(n, |s|)..]
  }

  ghost predicate SameElements(known: set<SocketAddr>, order: seq<SocketAddr>) {
    forall a :: a in known <==> a in order
  }

  /** The set and the queue agree, and the queue is the latest part of the log of insertions. */
  ghost predicate Indexed(cfg: Config, s: State) {
    && SameElements(s.known, s.order)
    && NoDuplicates(s.order)
    && s.order == Latest(s.inserted, Capacity(cfg))
  }

  predicate ReachedBefore(s: State, target: SocketAddr, n: nat) {
    exists i :: 0 <= i < n && i < |s.out| && s.out[i].target == target
  }

  /** A reply goes to the client, decapsulates to its source and payload, and its source is a
      permitted address that an earlier successful send reached. */
  ghost predicate Genuine(cfg: Config, s: State, r: Reply) {
    && s.client == Some(r.to)
    && D.Decap(r.frame) == Ok(D.Datagram(0, ToAddress(r.source), r.payload))
    && r.after <= |s.out| && ReachedBefore(s, r.source, r.after)
    && !cfg.blocked(r.source.Ip())
  }

  ghost predicate Inv(cfg: Config, s: State) {
    && Indexed(cfg, s)
    && (s.client.Some? ==> s.client.value.Ip() == cfg.clientIp)
    && (s.client.None? ==> s.known == {} && s.out == [] && s.replies == [])
    && AllReached(s)
    && (forall o :: o in s.out ==> !cfg.blocked(o.target.Ip()))
    && (forall r :: r in s.replies ==> Genuine(cfg, s, r))
  }

  lemma LatestAfterPush(s: seq<SocketAddr>, target: SocketAddr, n: nat)
    requires n > 0
    ensures var pushed := Latest(s, n) + [target];
      Latest(s + [target], n) == if |pushed| > n then pushed[1..] else pushed
  {
  }

  lemma PushKeepsDistinct(order: seq<SocketAddr>, target: SocketAddr)
    requires NoDuplicates(order) && target !in order
    ensures var pushed := order + [target];
      && NoDuplicates(pushed) && NoDuplicates(pushed[1..])
      && (forall a :: a in pushed <==> a in order || a == target)
      && (forall a :: a in pushed[1..] <==> a in pushed && a != pushed[0])
  {
    var pushed := order + [target];
    assert pushed == [pushed[0]] + pushed[1..];
    assert NoDuplicates(pushed);
    assert pushed[0] !in pushed[1..];
  }

  lemma TrackedKeepsLatest(cfg: Config, s: State, target: SocketAddr)
    requires s.order == Latest(s.inserted, Capacity(cfg))
    ensures var t := Tracked(cfg, s, target);
      t.order == Latest(t.inserted, Capacity(cfg))
  {
    LatestAfterPush(s.inserted, target, Capacity(cfg));
  }

  lemma TrackedKeepsDistinct(cfg: Config, s: State, target: SocketAddr)
    requires NoDuplicates(s.order) && (target in s.order ==> target in s.known)
    ensures NoDuplicates(Tracked(cfg, s, target).order)
  {
    if target !in s.known {
      PushKeepsDistinct(s.order, target);
    }
  }

  lemma TrackedKeepsSet(cfg: Config, s: State, target: SocketAddr)
    requires NoDuplicates(s.order) && SameElements(s.known, s.order)
    ensures SameElements(Tracked(cfg, s, target).known, Tracked(cfg, s, target).order)
  {
    if target !in s.known {
      PushKeepsDistinct(s.order, target);
    }
  }

  lemma TrackedKeepsIndex(cfg: Config, s: State, target: SocketAddr)
    requires Indexed(cfg, s)
    ensures Indexed(cfg, Tracked(cfg, s, target))
  {
    TrackedKeepsLatest(cfg, s, target);
    TrackedKeepsDistinct(cfg, s, target);
    TrackedKeepsSet(cfg, s, target);
  }

  ghost predicate AllReached(s: State) {
    forall a :: a in s.inserted ==> ReachedBefore(s, a, |s.out|)
  }

  lemma SentReaches(cfg: Config, s: State, target: SocketAddr, payload: Bytes, at: nat)
    requires AllReached(s)
    ensures AllReached(OnSent(cfg, s, target, payload, at))
  {
    var t := OnSent(cfg, s, target, payload, at);
    assert t.out[|s.out|].target == target;
    OutGrows(cfg, s, t);
  }

  lemma SentKeepsInv(cfg: Config, s: State, target: SocketAddr, payload: Bytes, at: nat)
    requires Inv(cfg, s) && s.client.Some? && !cfg.blocked(target.Ip())
    ensures Inv(cfg, OnSent(cfg, s, target, payload, at))
  {
    var t := OnSent(cfg, s, target, payload, at);
    TrackedKeepsIndex(cfg, s, target);
    assert Indexed(cfg, t);
    SentReaches(cfg, s, target, payload, at);
    SentKeepsGenuine(cfg, s, target, payload, at);
  }

  lemma SentKeepsGenuine(cfg: Config, s: State, target: SocketAddr, payload: Bytes, at: nat)
    requires forall r :: r in s.replies ==> Genuine(cfg, s, r)
    ensures var t := OnSent(cfg, s, target, payload, at);
      forall r :: r in t.replies ==> Genuine(cfg, t, r)
  {
    OutGrows(cfg, s, OnSent(cfg, s, target, payload, at));
  }

  /** Facts about past sends survive further sends. */
  lemma OutGrows(cfg: Config, s: State, t: State)
    requires s.out <= t.out && s.client == t.client
    ensures forall a, n: nat :: ReachedBefore(s, a, n) ==> ReachedBefore(t, a, n)
    ensures forall a :: ReachedBefore(s, a, |s.out|) ==> ReachedBefore(t, a, |t.out|)
    ensures forall r :: Genuine(cfg, s, r) ==> Genuine(cfg, t, r)
  {
    forall a, n: nat | ReachedBefore(s, a, n) ensures ReachedBefore(t, a, n) {
      var i :| 0 <= i < n && i < |s.out| && s.out[i].target == a;
      assert t.out[i].target == a;
    }
    forall a | ReachedBefore(s, a, |s.out|) ensures ReachedBefore(t, a, |t.out|) {
      var i :| 0 <= i < |s.out| && s.out[i].target == a;
      assert t.out[i].target == a;
    }
  }

  lemma ForwardKeepsInv(cfg: Config, s: State, datagram: D.Datagram, e: Event)
    requires Inv(cfg, s) && s.client.Some? && e.Arrives?
    ensures Inv(cfg, Forwarded(cfg, s, datagram, e))
  {
    var t := s.(clock := Max(s.clock, e.sentAt));
    OutGrows(cfg, s, t);
    var target := Target(cfg, datagram.address, e.resolved);
    if !OverRate(cfg, s) && target.Some? {
      SentKeepsInv(cfg, t, target.value, datagram.data, t.clock);
    }
  }

  lemma LockKeepsInv(cfg: Config, s: State, source: SocketAddr, now: nat)
    requires Inv(cfg, s) && IsClient(cfg, s.client, source)
    ensures Inv(cfg, Locked(s, source, now)) && Inv(cfg, Windowed(cfg, Locked(s, source, now), now))
  {
    var locked := Locked(s, source, now);
    if s.client.Some? {
      OutGrows(cfg, s, locked);
    }
    OutGrows(cfg, locked, Windowed(cfg, locked, now));
  }

  lemma ClientKeepsInv(cfg: Config, s: State, e: Event, now: nat)
    requires Inv(cfg, s) && e.Arrives? && IsClient(cfg, s.client, e.source)
    ensures Inv(cfg, FromClient(cfg, s, e, now))
  {
    LockKeepsInv(cfg, s, e.source, now);
    var datagram := D.Decap(e.bytes);
    if datagram.Ok? {
      ForwardKeepsInv(cfg, Windowed(cfg, Locked(s, e.source, now), now), datagram.value, e);
    }
  }

  lemma TargetKeepsInv(cfg: Config, s: State, e: Event, now: nat)
    requires Inv(cfg, s) && e.Arrives? && e.source in s.known
    ensures Inv(cfg, FromTarget(s, e, now))
  {
    var t := FromTarget(s, e, now);
    OutGrows(cfg, s, t);
    assert e.source in s.order && e.source in s.inserted;
    D.DecapUndoesEncap(ToAddress(e.source), e.bytes);
    var i :| 0 <= i < |s.out| && s.out[i].target == e.source;
    assert s.out[i] in s.out;
  }

  lemma {:induction false} StepKeepsInv(cfg: Config, s: State, e: Event)
    requires Inv(cfg, s)
    ensures Inv(cfg, Step(cfg, s, e))
  {
    if s.open && e.Arrives? {
      var now := Max(s.clock, e.at);
      if IsClient(cfg, s.client, e.source) {
        ClientKeepsInv(cfg, s, e, now);
      } else if e.source in s.known {
        TargetKeepsInv(cfg, s, e, now);
      } else {
        OutGrows(cfg, s, s.(clock := now));
      }
    } else {
      OutGrows(cfg, s, Step(cfg, s, e));
    }
  }

  lemma {:induction false} RunKeepsInv(cfg: Config, start: nat, events: seq<Event>)
    ensures Inv(cfg, Run(cfg, Init(start), events))
  {
    if events != [] {
      RunKeepsInv(cfg, start, events[..|events| - 1]);
      StepKeepsInv(cfg, Run(cfg, Init(start), events[..|events| - 1]), events[|events| - 1]);
    }
  }

  // ---- What a client can rely on ----

  /** Only a tracked target gets a reply through, as the datagram it sent. */
  lemma ReplyComesFromTracked(cfg: Config, s: State, e: Event)
    requires Step(cfg, s, e).replies != s.replies
    ensures e.Arrives? && e.source in s.known && s.client.Some? && e.source != s.client.value
    ensures var frame := D.Encapsulated(ToAddress(e.source), e.bytes);
      Step(cfg, s, e).replies == s.replies + [Reply(s.client.value, frame, e.source, e.bytes, |s.out|)]
  {
  }

  /** The successful send `o` carries the datagram that arrived with `e`: unfragmented, with its exact
      payload, to the address it names or, for a domain, to the first usable one of its answer. */
  predicate Carries(cfg: Config, e: Event, o: Outgoing) {
    && e.Arrives? && e.sent && D.Decap(e.bytes).Ok? && D.Decap(e.bytes).value.frag == 0
    && var d := D.Decap(e.bytes).value;
       && o.payload == d.data && !cfg.blocked(o.target.Ip())
       && (if d.address.Domain?
           then e.resolved.Some? && Some(o.target) == FirstUsable(cfg, e.resolved.value)
                && o.target.Ip().IpV4? == cfg.bindV4
           else ToAddress(o.target) == d.address)
  }

  /** Only the locked client's datagrams are forwarded. */
  lemma SendComesFromClient(cfg: Config, s: State, e: Event)
    requires Step(cfg, s, e).out != s.out
    ensures var t := Step(cfg, s, e);
      && |t.out| == |s.out| + 1 && s.out <= t.out
      && Carries(cfg, e, t.out[|s.out|]) && t.client == Some(e.source) && t.out[|s.out|].at == t.clock
  {
  }

  /** Datagram number `i` of the run is the client's and left as `o`. */
  ghost predicate SentAt(cfg: Config, events: seq<Event>, i: int, o: Outgoing, client: Option<SocketAddr>) {
    0 <= i < |events| && Carries(cfg, events[i], o) && client == Some(events[i].source)
  }

  ghost predicate SentIn(cfg: Config, events: seq<Event>, o: Outgoing, client: Option<SocketAddr>) {
    exists i :: SentAt(cfg, events, i, o, client)
  }

  ghost predicate AllSent(cfg: Config, events: seq<Event>, s: State) {
    forall o :: o in s.out ==> SentIn(cfg, events, o, s.client)
  }

  lemma SentInExtends(cfg: Config, events: seq<Event>, n: nat, o: Outgoing, client: Option<SocketAddr>)
    requires n <= |events| && SentIn(cfg, events[..n], o, client)
    ensures SentIn(cfg, events, o, client)
  {
    var i :| SentAt(cfg, events[..n], i, o, client);
    assert SentAt(cfg, events, i, o, client);
  }

  /** Every send of a run carries a datagram of the locked client that arrived in that run. */
  lemma {:induction false} SendsComeFromClient(cfg: Config, start: nat, events: seq<Event>)
    ensures AllSent(cfg, events, Run(cfg, Init(start), events))
  {
    if events != [] {
      var n := |events| - 1;
      var s, t := Run(cfg, Init(start), events[..n]), Run(cfg, Init(start), events);
      SendsComeFromClient(cfg, start, events[..n]);
      RunKeepsInv(cfg, start, events[..n]);
      forall o | o in s.out ensures SentIn(cfg, events, o, t.client) {
        ClientStays(cfg, s, events[n]);
        SentInExtends(cfg, events, n, o, t.client);
      }
      if t.out != s.out {
        SendComesFromClient(cfg, s, events[n]);
        assert t.out == s.out + [t.out[|s.out|]];
        assert SentAt(cfg, events, n, t.out[|s.out|], t.client);
      }
    }
  }

  lemma ClientStays(cfg: Config, s: State, e: Event)
    requires s.client.Some?
    ensures Step(cfg, s, e).client == s.client
  {
  }

  /** Reply `r` is datagram number `i` of the run, from a target tracked at that time, and the
      client had sent that target something earlier in the run. */
  ghost predicate AnsweredAt(cfg: Config, start: nat, events: seq<Event>, i: int, r: Reply) {
    && 0 <= i < |events| && events[i].Arrives?
    && events[i].source == r.source && events[i].bytes == r.payload
    && r.source in Run(cfg, Init(start), events[..i]).known
    && exists o: Outgoing :: SentIn(cfg, events[..i], o, Some(r.to)) && o.target == r.source
  }

  ghost predicate AnsweredIn(cfg: Config, start: nat, events: seq<Event>, r: Reply) {
    exists i :: AnsweredAt(cfg, start, events, i, r)
  }

  ghost predicate AllAnswered(cfg: Config, start: nat, events: seq<Event>, s: State) {
    forall r :: r in s.replies ==> AnsweredIn(cfg, start, events, r)
  }

  lemma AnsweredInExtends(cfg: Config, start: nat, events: seq<Event>, n: nat, r: Reply)
    requires n <= |events| && AnsweredIn(cfg, start, events[..n], r)
    ensures AnsweredIn(cfg, start, events, r)
  {
    var i :| AnsweredAt(cfg, start, events[..n], i, r);
    assert events[..n][..i] == events[..i];
    assert AnsweredAt(cfg, start, events, i, r);
  }

  lemma {:induction false} TrackedWasReached(cfg: Config, start: nat, events: seq<Event>, target: SocketAddr)
    requires target in Run(cfg, Init(start), events).known
    ensures var s := Run(cfg, Init(start), events);
      s.client.Some? && exists o: Outgoing :: SentIn(cfg, events, o, s.client) && o.target == target
  {
    var s := Run(cfg, Init(start), events);
    RunKeepsInv(cfg, start, events);
    SendsComeFromClient(cfg, start, events);
    assert target in s.order && target in s.inserted;
    var k :| 0 <= k < |s.out| && s.out[k].target == target;
    assert s.out[k] in s.out;
  }

  lemma {:induction false} LatestIsAnswered(cfg: Config, start: nat, events: seq<Event>)
    requires events != []
    requires Run(cfg, Init(start), events).replies != Run(cfg, Init(start), events[..|events| - 1]).replies
    ensures var s := Run(cfg, Init(start), events[..|events| - 1]);
      var t := Run(cfg, Init(start), events);
      |t.replies| == |s.replies| + 1 && s.replies <= t.replies
      && AnsweredIn(cfg, start, events, t.replies[|s.replies|])
  {
    var n := |events| - 1;
    var s := Run(cfg, Init(start), events[..n]);
    ReplyComesFromTracked(cfg, s, events[n]);
    TrackedWasReached(cfg, start, events[..n], events[n].source);
    assert AnsweredAt(cfg, start, events, n, Run(cfg, Init(start), events).replies[|s.replies|]);
  }

  lemma AllAnsweredExtends(cfg: Config, start: nat, events: seq<Event>, n: nat, s: State, t: State)
    requires n <= |events| && AllAnswered(cfg, start, events[..n], s) && s.replies <= t.replies
    requires t.replies == s.replies
      || (|t.replies| == |s.replies| + 1 && AnsweredIn(cfg, start, events, t.replies[|s.replies|]))
    ensures AllAnswered(cfg, start, events, t)
  {
    forall r | r in t.replies ensures AnsweredIn(cfg, start, events, r) {
      if r in s.replies {
        AnsweredInExtends(cfg, start, events, n, r);
      }
    }
  }

  lemma {:induction false} RepliesComeFromArrivals(cfg: Config, start: nat, events: seq<Event>)
    ensures AllAnswered(cfg, start, events, Run(cfg, Init(start), events))
  {
    if events != [] {
      var n := |events| - 1;
      var s, t := Run(cfg, Init(start), events[..n]), Run(cfg, Init(start), events);
      RepliesComeFromArrivals(cfg, start, events[..n]);
      if t.replies != s.replies {
        LatestIsAnswered(cfg, start, events);
      }
      AllAnsweredExtends(cfg, start, events, n, s, t);
    }
  }

  /** Every datagram sent to the client goes to the locked address and decapsulates to exactly the
      source and payload of a datagram that arrived in the run, from a permitted target tracked at
      that time, which an earlier successful send of the client reached; targets are tracked only
      once the client is locked. */
  lemma {:induction false} RepliesAreGenuine(cfg: Config, start: nat, events: seq<Event>)
    ensures var s := Run(cfg, Init(start), events);
      && (forall r :: r in s.replies ==> Genuine(cfg, s, r))
      && AllAnswered(cfg, start, events, s)
      && (s.known != {} ==> s.client.Some?)
      && (s.client.Some? ==> s.client.value.Ip() == cfg.clientIp)
  {
    RunKeepsInv(cfg, start, events);
    RepliesComeFromArrivals(cfg, start, events);
  }

  /** Under an egress policy, nothing is ever sent to, or passed on from, an address that stands for
      one in a refused prefix; and the client has the control peer's canonical address. */
  lemma {:induction false} PolicyHolds(policy: Egress.Policy, peer: IpAddr, bind: IpAddr, maxTargets: nat,
                                       rate: Option<nat>, start: nat, events: seq<Event>)
    ensures var s := Run(ConfigOf(policy, peer, bind, maxTargets, rate), Init(start), events);
      && (forall o :: o in s.out ==> !Egress.InRefused(policy, Egress.Folded(o.target.Ip())))
      && (forall r :: r in s.replies ==> !Egress.InRefused(policy, Egress.Folded(r.source.Ip())))
      && (s.client.Some? ==> s.client.value.Ip() == Canonical(peer))
  {
    var cfg := ConfigOf(policy, peer, bind, maxTargets, rate);
    RunKeepsInv(cfg, start, events);
    forall ip ensures cfg.blocked(ip) <==> Egress.InRefused(policy, Egress.Folded(ip)) {
      Egress.BlockedIffInRefusedPrefix(policy, ip);
    }
  }

  /** Once locked, the client address never changes. */
  lemma {:induction false} ClientStaysLocked(cfg: Config, s: State, events: seq<Event>)
    requires s.client.Some?
    ensures Run(cfg, s, events).client == s.client
  {
    if events != [] {
      ClientStaysLocked(cfg, s, events[..|events| - 1]);
      ClientStays(cfg, Run(cfg, s, events[..|events| - 1]), events[|events| - 1]);
    }
  }

  /** In every reachable state the tracked set is the queue, without repetitions, and the queue is
      the last `max(1, cap)` insertions; so the newest target is never the one evicted. */
  lemma {:induction false} TargetsAreLatest(cfg: Config, start: nat, events: seq<Event>)
    ensures var s := Run(cfg, Init(start), events);
      && s.known == (set a | a in s.order) && NoDuplicates(s.order)
      && s.order == Latest(s.inserted, Capacity(cfg))
      && |s.order| <= Capacity(cfg)
      && (s.inserted != [] ==> s.inserted[|s.inserted| - 1] in s.known)
  {
    RunKeepsInv(cfg, start, events);
    var s := Run(cfg, Init(start), events);
    if s.inserted != [] {
      assert s.order[|s.order| - 1] == s.inserted[|s.inserted| - 1];
    }
  }
}
