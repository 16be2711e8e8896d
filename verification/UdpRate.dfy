/** The outbound rate cap over whole runs. */
module UdpRate {
  import opened Wire
  import opened Net
  import opened Arithmetic
  import D = Datagrams
  import opened UdpAssociation

  /** The send is in window `w`, or `w` started a second or more after its window and not before it. */
  predicate Follows(o: Outgoing, w: nat) {
    o.window == w || (o.window + SECOND <= w && o.at <= w)
  }

  /** Sends are in order of time and of window, each within its window. */
  ghost predicate Ordered(start: nat, windowStart: nat, clock: nat, out: seq<Outgoing>) {
    && start <= windowStart <= clock
    && (forall k :: 0 <= k < |out| ==>
          start <= out[k].window <= out[k].at <= clock && Follows(out[k], windowStart))
    && (forall k, l :: 0 <= k < l < |out| ==> out[k].at <= out[l].at && Follows(out[k], out[l].window))
  }

  /** The sends of the current window are the last `windowCount` ones, and sends `limit` apart are
      in different windows. */
  ghost predicate Capped(limit: nat, windowStart: nat, windowCount: nat, out: seq<Outgoing>) {
    && windowCount <= limit && windowCount <= |out|
    && (forall k :: 0 <= k < |out| - windowCount ==> out[k].window < windowStart)
    && (forall k :: |out| - windowCount <= k < |out| ==> out[k].window == windowStart)
    && (forall k, l :: 0 <= k && k + limit <= l < |out| ==> out[k].window < out[l].window)
  }

  ghost predicate Spaced(limit: nat, start: nat, s: State) {
    Ordered(start, s.windowStart, s.clock, s.out) && Capped(limit, s.windowStart, s.windowCount, s.out)
  }

  lemma RestartKeepsSpacing(cfg: Config, start: nat, s: State, now: nat)
    requires cfg.rate.Some? && Spaced(cfg.rate.value, start, s) && s.clock == now
    ensures Spaced(cfg.rate.value, start, Windowed(cfg, s, now))
  {
  }

  lemma SendKeepsOrder(start: nat, windowStart: nat, clock: nat, out: seq<Outgoing>, o: Outgoing)
    requires Ordered(start, windowStart, clock, out) && o.at == clock && o.window == windowStart
    ensures Ordered(start, windowStart, clock, out + [o])
  {
  }

  lemma SendKeepsCap(limit: nat, windowStart: nat, windowCount: nat, out: seq<Outgoing>, o: Outgoing)
    requires Capped(limit, windowStart, windowCount, out) && windowCount < limit && o.window == windowStart
    ensures Capped(limit, windowStart, windowCount + 1, out + [o])
  {
  }

  lemma SentKeepsSpacing(cfg: Config, start: nat, s: State, target: SocketAddr, payload: Bytes)
    requires cfg.rate.Some? && Spaced(cfg.rate.value, start, s) && !OverRate(cfg, s)
    ensures Spaced(cfg.rate.value, start, OnSent(cfg, s, target, payload, s.clock))
  {
    var o := Outgoing(target, payload, s.clock, s.windowStart);
    SendKeepsOrder(start, s.windowStart, s.clock, s.out, o);
    SendKeepsCap(cfg.rate.value, s.windowStart, s.windowCount, s.out, o);
  }

  lemma WaitKeepsSpacing(limit: nat, start: nat, s: State, now: nat)
    requires Spaced(limit, start, s) && s.clock <= now
    ensures Spaced(limit, start, s.(clock := now))
  {
  }

  lemma ForwardKeepsSpacing(cfg: Config, start: nat, s: State, datagram: D.Datagram, e: Event)
    requires cfg.rate.Some? && Spaced(cfg.rate.value, start, s) && e.Arrives?
    ensures Spaced(cfg.rate.value, start, Forwarded(cfg, s, datagram, e))
  {
    var at := Max(s.clock, e.sentAt);
    WaitKeepsSpacing(cfg.rate.value, start, s, at);
    var target := Target(cfg, datagram.address, e.resolved);
    if !OverRate(cfg, s) && target.Some? {
      SentKeepsSpacing(cfg, start, s.(clock := at), target.value, datagram.data);
    }
  }

  lemma ClientKeepsSpacing(cfg: Config, start: nat, s: State, e: Event, now: nat)
    requires cfg.rate.Some? && Spaced(cfg.rate.value, start, s) && e.Arrives? && s.clock <= now
    ensures Spaced(cfg.rate.value, start, FromClient(cfg, s, e, now))
  {
    var locked := Locked(s, e.source, now);
    WaitKeepsSpacing(cfg.rate.value, start, s.(client := locked.client), now);
    RestartKeepsSpacing(cfg, start, locked, now);
    var datagram := D.Decap(e.bytes);
    if datagram.Ok? {
      ForwardKeepsSpacing(cfg, start, Windowed(cfg, locked, now), datagram.value, e);
    }
  }

  lemma StepKeepsSpacing(cfg: Config, start: nat, s: State, e: Event)
    requires cfg.rate.Some? && Spaced(cfg.rate.value, start, s)
    ensures Spaced(cfg.rate.value, start, Step(cfg, s, e))
  {
    if s.open && e.Arrives? && IsClient(cfg, s.client, e.source) {
      ClientKeepsSpacing(cfg, start, s, e, Max(s.clock, e.at));
    }
  }

  lemma {:induction false} RunKeepsSpacing(cfg: Config, start: nat, events: seq<Event>)
    requires cfg.rate.Some?
    ensures Spaced(cfg.rate.value, start, Run(cfg, Init(start), events))
  {
    if events != [] {
      RunKeepsSpacing(cfg, start, events[..|events| - 1]);
      StepKeepsSpacing(cfg, start, Run(cfg, Init(start), events[..|events| - 1]), events[|events| - 1]);
    }
  }

  /** How many sends succeeded in the half-open interval from `lo` to `hi`. */
  function SendsIn(out: seq<Outgoing>, lo: nat, hi: nat): nat {
    if out == [] then 0
    else
      var n := |out| - 1;
      SendsIn(out[..n], lo, hi) + if lo <= out[n].at < hi then 1 else 0
  }

  ghost predicate InOrder(out: seq<Outgoing>) {
    forall k, l :: 0 <= k < l < |out| ==> out[k].at <= out[l].at
  }

  /** `c` sends in an interval: some `c` in a row all start and end in it. */
  lemma {:induction false} SendsSpan(out: seq<Outgoing>, lo: nat, hi: nat) returns (first: nat)
    requires InOrder(out) && SendsIn(out, lo, hi) > 0
    ensures first + SendsIn(out, lo, hi) <= |out|
    ensures lo <= out[first].at && out[first + SendsIn(out, lo, hi) - 1].at < hi
  {
    var n := |out| - 1;
    if SendsIn(out[..n], lo, hi) == 0 {
      first := n;
    } else {
      first := SendsSpan(out[..n], lo, hi);
    }
  }

  lemma TwoWindowsApart(limit: nat, start: nat, s: State, k: nat, l: nat)
    requires Spaced(limit, start, s) && k + 2 * limit <= l < |s.out|
    ensures s.out[k].at + SECOND <= s.out[l].at
  {
    assert s.out[k].window < s.out[k + limit].window < s.out[k + 2 * limit].window;
  }

  lemma CloseMeansFew(limit: nat, start: nat, s: State, k: nat, l: nat)
    requires Spaced(limit, start, s) && k <= l < |s.out| && s.out[l].at < s.out[k].at + SECOND
    ensures l < k + 2 * limit
  {
    if k + 2 * limit <= l {
      TwoWindowsApart(limit, start, s, k, l);
    }
  }

  /** Any half-open second holds at most twice the cap, however long resolving and sending took. */
  lemma {:induction false} AnySecondHoldsTwiceTheCap(cfg: Config, start: nat, events: seq<Event>, lo: nat)
    requires cfg.rate.Some?
    ensures SendsIn(Run(cfg, Init(start), events).out, lo, lo + SECOND) <= 2 * cfg.rate.value
  {
    RunKeepsSpacing(cfg, start, events);
    var s := Run(cfg, Init(start), events);
    var c := SendsIn(s.out, lo, lo + SECOND);
    if c > 0 {
      var first := SendsSpan(s.out, lo, lo + SECOND);
      CloseMeansFew(cfg.rate.value, start, s, first, first + c - 1);
    }
  }

  /** The k-th send is in a window that starts at least k / limit seconds in. */
  lemma {:induction false} WindowsAdvance(limit: nat, start: nat, s: State, k: nat)
    requires limit > 0 && Spaced(limit, start, s) && k < |s.out|
    ensures start + k / limit * SECOND <= s.out[k].at
    ensures start + k / limit * SECOND <= s.out[k].window
  {
    if k >= limit {
      WindowsAdvance(limit, start, s, k - limit);
      Floor(k - limit, limit);
      QuotientUnique(k, limit, (k - limit) / limit + 1);
      assert s.out[k - limit].window < s.out[k].window;
    } else {
      QuotientUnique(k, limit, 0);
    }
  }

  /** The first `t` nanoseconds hold at most the cap once for every second begun. */
  lemma {:induction false} RunHoldsCapPerSecond(cfg: Config, start: nat, events: seq<Event>, t: nat)
    requires cfg.rate.Some?
    ensures SendsIn(Run(cfg, Init(start), events).out, start, start + t + 1) <= cfg.rate.value * (t / SECOND + 1)
  {
    RunKeepsSpacing(cfg, start, events);
    SpacedHoldsCap(cfg.rate.value, start, Run(cfg, Init(start), events), t);
  }

  lemma {:induction false} SpacedHoldsCap(limit: nat, start: nat, s: State, t: nat)
    requires Spaced(limit, start, s)
    ensures SendsIn(s.out, start, start + t + 1) <= limit * (t / SECOND + 1)
  {
    var c := SendsIn(s.out, start, start + t + 1);
    if c == 0 {
      MulMonotone(0, t / SECOND + 1, limit);
    } else {
      var first := SendsSpan(s.out, start, start + t + 1);
      LastSendIsEarly(limit, start, s, first + c - 1, t);
    }
  }

  lemma LastSendIsEarly(limit: nat, start: nat, s: State, k: nat, t: nat)
    requires Spaced(limit, start, s) && k < |s.out| && s.out[k].at <= start + t
    ensures k < limit * (t / SECOND + 1)
  {
    assert limit > 0;
    WindowsAdvance(limit, start, s, k);
    var q, seconds := k / limit, t / SECOND;
    assert q * SECOND <= t;
    QuotientAtLeast(t, SECOND, q);
    Floor(k, limit);
    MulMonotone(q + 1, seconds + 1, limit);
  }

  /** A datagram is refused exactly when the cap's latest sends were all counted in a window that is not
      over yet, or the cap is zero: `out` and the clock decide. */
  predicate CapReached(limit: nat, out: seq<Outgoing>, now: nat) {
    limit == 0 || (|out| >= limit && now < out[|out| - limit].window + SECOND)
  }

  lemma SpacedRefusesIff(cfg: Config, start: nat, s: State, now: nat)
    requires cfg.rate.Some? && Spaced(cfg.rate.value, start, s) && s.clock <= now
    ensures OverRate(cfg, Windowed(cfg, s, now)) <==> CapReached(cfg.rate.value, s.out, now)
  {
    var limit, out := cfg.rate.value, s.out;
    if limit > 0 && |out| >= limit {
      assert Follows(out[|out| - limit], s.windowStart);
    }
  }

  /** The cap refuses a datagram in exactly those cases; then, unless it is zero, that many sends
      succeeded within the last second. */
  lemma {:induction false} RefusedIff(cfg: Config, start: nat, events: seq<Event>, now: nat)
    requires cfg.rate.Some?
    ensures var s := Run(cfg, Init(start), events);
      s.clock <= now ==>
        && (OverRate(cfg, Windowed(cfg, s, now)) <==> CapReached(cfg.rate.value, s.out, now))
        && (CapReached(cfg.rate.value, s.out, now) && cfg.rate.value > 0 ==>
              && |s.out| >= cfg.rate.value
              && forall k :: |s.out| - cfg.rate.value <= k < |s.out| ==> now < s.out[k].at + SECOND)
  {
    RunKeepsSpacing(cfg, start, events);
    var s := Run(cfg, Init(start), events);
    if s.clock <= now {
      SpacedRefusesIff(cfg, start, s, now);
    }
  }
}
