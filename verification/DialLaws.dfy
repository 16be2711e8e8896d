/** What every run of the dial scheduler keeps, for every schedule of wake-ups. */
module DialLaws {
  import opened Wire
  import opened Net
  import opened Arithmetic
  import opened DialScheduler
  import Egress

  /** The distinct permitted addresses received, in order of first arrival. */
  function Candidates(cfg: Config, received: seq<SocketAddr>): seq<SocketAddr> {
    Fresh(cfg.permitted, received, {})
  }

  function FirstIndex(s: seq<SocketAddr>, a: SocketAddr): (i: nat)
    requires a in s
    ensures i < |s| && s[i] == a && a !in s[..i]
  {
    if s[0] == a then 0
    else
      var i := 1 + FirstIndex(s[1..], a);
      assert s[..i] == [s[0]] + s[1..][..i - 1];
      i
  }

  /** `Candidates` holds exactly the permitted received addresses, once each, by first arrival. */
  lemma {:induction false} CandidatesMeaning(cfg: Config, received: seq<SocketAddr>)
    ensures forall a :: (a in Candidates(cfg, received) <==> a in received && cfg.permitted(a))
    ensures NoDuplicates(Candidates(cfg, received))
    ensures var c := Candidates(cfg, received);
      forall i, j :: 0 <= i < j < |c| && c[i] in received && c[j] in received
        ==> FirstIndex(received, c[i]) < FirstIndex(received, c[j])
  {
    FreshElements(cfg.permitted, received, {});
    if received != [] {
      var n := |received| - 1;
      var front := received[..n];
      CandidatesMeaning(cfg, front);
      assert received == front + [received[n]];
      forall a | a in front ensures FirstIndex(received, a) == FirstIndex(front, a) {
        FirstIndexExtends(front, received, a);
      }
      FreshElements(cfg.permitted, front, {});
      var c := Candidates(cfg, received);
      forall i, j | 0 <= i < j < |c| && c[i] in received && c[j] in received
        ensures FirstIndex(received, c[i]) < FirstIndex(received, c[j])
      {
        if c[j] in front {
          assert c[i] in front && j < |Candidates(cfg, front)|;
        } else {
          assert FirstIndex(received, c[j]) == n;
        }
      }
    }
  }

  lemma {:induction false} FirstIndexExtends(front: seq<SocketAddr>, whole: seq<SocketAddr>, a: SocketAddr)
    requires front <= whole && a in front
    ensures a in whole && FirstIndex(whole, a) == FirstIndex(front, a)
  {
    if front[0] != a {
      FirstIndexExtends(front[1..], whole[1..], a);
    }
  }

  lemma {:induction false} FreshAppends(permitted: SocketAddr -> bool, first: seq<SocketAddr>,
                                        more: seq<SocketAddr>, seen: set<SocketAddr>)
    ensures Fresh(permitted, first + more, seen)
      == Fresh(permitted, first, seen) + Fresh(permitted, more, seen + PermittedSet(permitted, first))
  {
    if more == [] {
      assert first + more == first;
    } else {
      var n := |more| - 1;
      var whole := first + more;
      assert whole[..|whole| - 1] == first + more[..n];
      FreshAppends(permitted, first, more[..n], seen);
      var seen' := seen + PermittedSet(permitted, first);
      var before, after := Fresh(permitted, first, seen), Fresh(permitted, more[..n], seen');
      FreshElements(permitted, first, seen);
      assert more[n] in seen || more[n] in before + after || !permitted(more[n])
        <==> more[n] in seen' || more[n] in after || !permitted(more[n]);
      assert before + (after + [more[n]]) == before + after + [more[n]];
    }
  }

  // ---- The invariant ----

  function Count(b: bool): nat {
    if b then 1 else 0
  }

  /** The candidates and the counters, between any two statements of the loop. */
  ghost predicate Books(cfg: Config, s: State) {
    && s.dialled + s.queue == Candidates(cfg, s.received)
    && s.seen == PermittedSet(cfg.permitted, s.received)
    && (s.blocked <==> SomeBlocked(cfg.permitted, s.received))
    && (s.active.Some? ==> s.dialled != [] && s.dialled[|s.dialled| - 1] == s.active.value)
    && (s.dialled != [] ==> s.active.Some? || s.lastError.Some?)
    && (s.lastError.Some? ==> s.dialled != [])
    && s.fired == Count(s.doneA) + Count(s.doneAaaa) + |s.dialled| - Count(s.active.Some?)
    && |s.grants| == |s.dialled|
  }

  /** The active attempt's deadline: no earlier than its start, no later than the total deadline
      when it began in time, and at most an equal share of what is left now. */
  ghost predicate Timely(cfg: Config, s: State) {
    s.active.Some? ==>
      && s.begun <= s.clock && s.begun <= s.attemptDeadline
      && (s.begun <= cfg.deadline ==> s.attemptDeadline <= cfg.deadline)
      && s.attemptDeadline <= Share(cfg.deadline, s.clock, |s.queue|)
  }

  ghost predicate Core(cfg: Config, s: State) {
    Books(cfg, s) && Timely(cfg, s)
  }

  /** What a finished search says: why it failed, what was dialled, how many branches fired. */
  ghost predicate Verdict(cfg: Config, s: State) {
    && s.outcome.Some?
    && (s.outcome.value.Connected? ==> s.outcome.value.address in s.dialled)
    && (s.outcome.value.Failed? ==>
          var f := s.outcome.value.failure;
          && (f.Dial? <==> Candidates(cfg, s.received) != [])
          && (f.Blocked? <==> Candidates(cfg, s.received) == [] && s.received != [])
          && (f.Dns? <==> s.received == [])
          && (s.expired && f.Dial? ==> f.kind == TimedOut)
          && (!s.expired ==> s.dialled == Candidates(cfg, s.received) && s.doneA && s.doneAaaa))
    && s.dialled + s.queue == Candidates(cfg, s.received)
    && s.fired <= 2 + |Candidates(cfg, s.received)|
  }

  ghost predicate Inv(cfg: Config, s: State) {
    if s.outcome.Some? then Verdict(cfg, s)
    else Core(cfg, s) && (s.active.None? ==> s.queue == [] && !(s.doneA && s.doneAaaa))
  }

  /** Received addresses are permitted or blocked, so no candidate and no blocked one means none. */
  lemma NothingReceived(cfg: Config, received: seq<SocketAddr>)
    ensures Candidates(cfg, received) == [] && !SomeBlocked(cfg.permitted, received) <==> received == []
    ensures Candidates(cfg, received) == [] && SomeBlocked(cfg.permitted, received)
      <==> Candidates(cfg, received) == [] && received != []
  {
    FreshElements(cfg.permitted, received, {});
    if received != [] {
      assert received[0] in received;
      if cfg.permitted(received[0]) {
        assert received[0] in Candidates(cfg, received);
      }
    }
  }

  lemma SharesGrow(deadline: nat, early: nat, late: nat, waiting: nat)
    requires early <= late
    ensures Share(deadline, early, waiting) <= Share(deadline, late, waiting)
  {
    var d := Divisor(waiting);
    var r0 := if early <= deadline then deadline - early else 0;
    var r1 := if late <= deadline then deadline - late else 0;
    QuotientGrowth(r1, r0 - r1, d);
  }

  lemma AnswerKeepsBooks(cfg: Config, s: State, now: nat, family: Family, addresses: Option<seq<SocketAddr>>)
    requires Books(cfg, s)
    requires if family == A then !s.doneA else !s.doneAaaa
    ensures Books(cfg, OnAnswer(cfg, s, now, family, addresses))
  {
    var list := if addresses.Some? then addresses.value else [];
    var t := OnAnswer(cfg, s, now, family, addresses);
    FreshAppends(cfg.permitted, s.received, list, {});
    assert {} + PermittedSet(cfg.permitted, s.received) == s.seen;
    assert s.dialled + t.queue == (s.dialled + s.queue) + Fresh(cfg.permitted, list, s.seen);
    assert t.seen == PermittedSet(cfg.permitted, t.received);
    assert t.blocked <==> SomeBlocked(cfg.permitted, t.received);
  }

  lemma AnswerKeepsTimely(cfg: Config, s: State, now: nat, family: Family, addresses: Option<seq<SocketAddr>>)
    requires Timely(cfg, s) && s.clock <= now
    ensures Timely(cfg, OnAnswer(cfg, s, now, family, addresses))
  {
    var t := OnAnswer(cfg, s, now, family, addresses);
    if s.active.Some? {
      SharesGrow(cfg.deadline, s.clock, now, |t.queue|);
      SharesGrow(cfg.deadline, s.begun, now, |t.queue|);
      if t.queue == [] {
        assert s.queue == [];
      }
    }
  }

  lemma EndKeepsCore(cfg: Config, s: State, now: nat, error: IoKind)
    requires Core(cfg, s) && s.clock <= now && s.active.Some?
    ensures Core(cfg, OnAttemptEnd(s, now, Some(error)))
  {
  }

  lemma DialKeepsBooks(cfg: Config, s: State, now: nat)
    requires Books(cfg, s) && s.outcome.None? && s.active.None? && s.queue != []
    ensures Books(cfg, Top(cfg, s, now))
  {
    assert s.dialled + s.queue == (s.dialled + [s.queue[0]]) + s.queue[1..];
  }

  lemma DialKeepsTimely(cfg: Config, s: State, now: nat)
    requires s.outcome.None? && s.active.None? && s.queue != []
    ensures Timely(cfg, Top(cfg, s, now))
  {
  }

  lemma TopKeepsInv(cfg: Config, s: State, now: nat)
    requires Core(cfg, s) && s.outcome.None? && !s.expired
    ensures Inv(cfg, Top(cfg, s, now))
  {
    if s.active.None? && s.queue != [] {
      DialKeepsBooks(cfg, s, now);
      DialKeepsTimely(cfg, s, now);
    } else if s.active.None? && s.doneA && s.doneAaaa {
      assert s.dialled == s.dialled + s.queue;
      NothingReceived(cfg, s.received);
    }
  }

  lemma AnswerKeepsInv(cfg: Config, s: State, w: Wake, now: nat)
    requires Inv(cfg, s) && s.outcome.None? && !s.expired && w.firing.Answer?
    requires now == Max(s.clock, w.at) && Enabled(cfg, s, now, w.firing)
    ensures Inv(cfg, Step(cfg, s, w)) && !Step(cfg, s, w).expired
  {
    var m := OnAnswer(cfg, s, now, w.firing.family, w.firing.addresses);
    AnswerKeepsBooks(cfg, s, now, w.firing.family, w.firing.addresses);
    AnswerKeepsTimely(cfg, s, now, w.firing.family, w.firing.addresses);
    TopKeepsInv(cfg, m, Max(now, w.resumed));
  }

  lemma EndKeepsInv(cfg: Config, s: State, w: Wake, now: nat, error: Option<IoKind>)
    requires Inv(cfg, s) && s.outcome.None? && !s.expired
    requires w.firing == Attempted(error) || (w.firing == AttemptTimer && error == Some(TimedOut))
    requires now == Max(s.clock, w.at) && Enabled(cfg, s, now, w.firing)
    ensures Inv(cfg, Step(cfg, s, w)) && !Step(cfg, s, w).expired
  {
    var m := OnAttemptEnd(s, now, error);
    assert Step(cfg, s, w) == Top(cfg, m, Max(now, w.resumed));
    if error.Some? {
      EndKeepsCore(cfg, s, now, error.value);
      TopKeepsInv(cfg, m, Max(now, w.resumed));
    }
  }

  lemma ExpiryKeepsInv(cfg: Config, s: State, now: nat)
    requires Inv(cfg, s) && s.outcome.None?
    ensures Inv(cfg, OnTotalTimer(s, now))
  {
    NothingReceived(cfg, s.received);
  }

  lemma StepKeepsInv(cfg: Config, s: State, w: Wake)
    requires Inv(cfg, s) && (s.outcome.None? ==> !s.expired)
    ensures Inv(cfg, Step(cfg, s, w))
    ensures Step(cfg, s, w).outcome.None? ==> !Step(cfg, s, w).expired
  {
    var now := Max(s.clock, w.at);
    if s.outcome.None? && Enabled(cfg, s, now, w.firing) {
      match w.firing
      case Answer(_, _) =>
        AnswerKeepsInv(cfg, s, w, now);
      case Attempted(error) =>
        EndKeepsInv(cfg, s, w, now, error);
      case AttemptTimer =>
        EndKeepsInv(cfg, s, w, now, Some(TimedOut));
      case TotalTimer =>
        assert Step(cfg, s, w) == OnTotalTimer(s, now);
        ExpiryKeepsInv(cfg, s, now);
    }
  }

  lemma {:induction false} RunKeepsInv(cfg: Config, start: nat, schedule: seq<Wake>)
    ensures var s := Run(cfg, Init(cfg, start), schedule);
      Inv(cfg, s) && (s.outcome.None? ==> !s.expired)
  {
    if schedule != [] {
      RunKeepsInv(cfg, start, schedule[..|schedule| - 1]);
      StepKeepsInv(cfg, Run(cfg, Init(cfg, start), schedule[..|schedule| - 1]), schedule[|schedule| - 1]);
    }
  }

  // ---- What a caller can rely on ----

  /** At both exits the failure tells what was received; and unless the total deadline ended the
      search, every distinct permitted address of either family was dialled once, by arrival. */
  lemma {:induction false} FailureClassified(cfg: Config, start: nat, schedule: seq<Wake>)
    ensures var s := Run(cfg, Init(cfg, start), schedule);
      s.outcome.Some? && s.outcome.value.Failed? ==>
        var f := s.outcome.value.failure;
        && (f.Dial? <==> exists a :: a in s.received && cfg.permitted(a))
        && (f.Blocked? <==> s.received != [] && forall a :: a in s.received ==> !cfg.permitted(a))
        && (f.Dns? <==> s.received == [])
        && (!s.expired ==> s.doneA && s.doneAaaa && s.dialled == Candidates(cfg, s.received))
  {
    RunKeepsInv(cfg, start, schedule);
    var s := Run(cfg, Init(cfg, start), schedule);
    CandidatesMeaning(cfg, s.received);
    if Candidates(cfg, s.received) != [] {
      assert Candidates(cfg, s.received)[0] in s.received;
    }
  }

  /** `Socks5Error::from_io(..).reply_code()` and the other arms of the error match in `run`. */
  function ReplyCode(f: Failure): Byte {
    match f
    case Dns => 4
    case Blocked => 2
    case Dial(NetworkUnreachable) => 3
    case Dial(HostUnreachable) => 4
    case Dial(ConnectionRefused) => 5
    case Dial(TimedOut) => 6
    case Dial(AddrNotAvailable) => 4
    case Dial(OtherKind) => 1
  }

  /** What the reply tells the client: "not allowed by ruleset" exactly when addresses were found
      and every one is blocked, "host unreachable" when none was found, and "TTL expired" when the
      total deadline struck although some address was permitted. */
  lemma {:induction false} ReplyTellsWhatWasFound(cfg: Config, start: nat, schedule: seq<Wake>)
    ensures var s := Run(cfg, Init(cfg, start), schedule);
      s.outcome.Some? && s.outcome.value.Failed? ==>
        var code := ReplyCode(s.outcome.value.failure);
        && (code == 2 <==> s.received != [] && forall a :: a in s.received ==> !cfg.permitted(a))
        && (s.received == [] ==> code == 4)
        && (s.expired && (exists a :: a in s.received && cfg.permitted(a)) ==> code == 6)
  {
    FailureClassified(cfg, start, schedule);
    RunKeepsInv(cfg, start, schedule);
  }

  /** Dials are permitted, never repeated and in arrival order; a connected address was dialled;
      what is not dialled is still queued; at every `select!` an idle dialler has an empty queue and
      waits for a lookup; and `select!` fires at most twice plus once per distinct permitted address
      received. */
  lemma {:induction false} DialsAreBounded(cfg: Config, start: nat, schedule: seq<Wake>)
    ensures var s := Run(cfg, Init(cfg, start), schedule);
      && s.dialled + s.queue == Candidates(cfg, s.received)
      && NoDuplicates(s.dialled)
      && (forall a :: a in s.dialled ==> cfg.permitted(a) && a in s.received)
      && s.fired <= 2 + |Candidates(cfg, s.received)|
      && (s.outcome.None? && s.active.None? ==> s.queue == [] && !(s.doneA && s.doneAaaa))
      && (s.outcome.Some? && s.outcome.value.Connected? ==> s.outcome.value.address in s.dialled)
  {
    RunKeepsInv(cfg, start, schedule);
    var s := Run(cfg, Init(cfg, start), schedule);
    CandidatesMeaning(cfg, s.received);
    var c := Candidates(cfg, s.received);
    assert c[..|s.dialled|] == s.dialled;
    forall a | a in s.dialled ensures a in c {
    }
  }

  function Pending(s: State): nat {
    Count(!s.doneA) + Count(!s.doneAaaa)
  }

  function Work(s: State): nat {
    2 * |s.queue| + Count(s.active.Some?)
  }

  /** Every branch that fires ends the search or lowers (pending lookups, queued and active
      work), so every run ends; and until then the total timer can fire. */
  lemma FiringMakesProgress(cfg: Config, s: State, w: Wake)
    requires s.outcome.None? && Enabled(cfg, s, Max(s.clock, w.at), w.firing)
    ensures var t := Step(cfg, s, w);
      || t.outcome.Some?
      || Pending(t) < Pending(s)
      || (Pending(t) == Pending(s) && Work(t) < Work(s))
    ensures Enabled(cfg, s, Max(s.clock, cfg.deadline), TotalTimer)
  {
  }

  /** In every reachable state an attempt's deadline is no earlier than its start, and no later
      than the total deadline if it began in time; no timer cuts the attempt short of the former,
      or the search short of the latter. */
  lemma {:induction false} AttemptDeadlineBounds(cfg: Config, start: nat, schedule: seq<Wake>, w: Wake)
    ensures var s := Run(cfg, Init(cfg, start), schedule);
      var t := Step(cfg, s, w);
      s.outcome.None? && s.active.Some? ==>
        && s.begun <= s.attemptDeadline && (s.begun <= cfg.deadline ==> s.attemptDeadline <= cfg.deadline)
        && (w.firing == AttemptTimer && t != s ==> s.attemptDeadline <= t.clock)
        && (t.expired ==> cfg.deadline <= t.clock)
  {
    RunKeepsInv(cfg, start, schedule);
  }

  lemma ShareIs(deadline: nat, now: nat, waiting: nat)
    requires waiting < U32_MAX
    ensures Share(deadline, now, waiting) == now + SaturatingSub(deadline, now) / (waiting + 1)
  {
  }

  lemma AnswerLowers(cfg: Config, s: State, now: nat, family: Family, addresses: Option<seq<SocketAddr>>)
    requires Timely(cfg, s) && s.clock <= now && s.active.Some?
    ensures var t := OnAnswer(cfg, s, now, family, addresses);
      && t.attemptDeadline <= s.attemptDeadline
      && (t.queue == s.queue ==> t.attemptDeadline == s.attemptDeadline)
      && (t.queue != s.queue ==> t.attemptDeadline == Min(s.attemptDeadline, Share(cfg.deadline, now, |t.queue|)))
  {
    SharesGrow(cfg.deadline, s.clock, now, |s.queue|);
  }

  /** Between `s` and `t` the deadline of the attempt stays, unless candidates were added: then it is the
      earlier of itself and an equal share of what is left. */
  predicate OnlyLowered(cfg: Config, s: State, t: State) {
    && t.active == s.active && t.attemptDeadline <= s.attemptDeadline
    && (t.queue == s.queue ==> t.attemptDeadline == s.attemptDeadline)
    && (t.queue != s.queue && |t.queue| < U32_MAX ==>
          t.attemptDeadline
          == Min(s.attemptDeadline, t.clock + SaturatingSub(cfg.deadline, t.clock) / (|t.queue| + 1)))
  }

  lemma {:induction false} StepOnlyLowers(cfg: Config, s: State, w: Wake)
    requires Timely(cfg, s) && s.outcome.None? && s.active.Some? && w.firing.Answer?
    ensures OnlyLowered(cfg, s, Step(cfg, s, w))
  {
    var now := Max(s.clock, w.at);
    if Enabled(cfg, s, now, w.firing) {
      AnswerLowers(cfg, s, now, w.firing.family, w.firing.addresses);
      var t := OnAnswer(cfg, s, now, w.firing.family, w.firing.addresses);
      assert Step(cfg, s, w) == t;
      if |t.queue| < U32_MAX {
        ShareIs(cfg.deadline, now, |t.queue|);
      }
    }
  }

  /** In every reachable state: an answer lowers the deadline of the active attempt to an equal share of
      what is left, unless it is earlier already; and leaves it alone when it adds no candidate, although
      the share is computed again, later. */
  lemma {:induction false} RecomputationOnlyLowers(cfg: Config, start: nat, schedule: seq<Wake>, w: Wake)
    ensures var s := Run(cfg, Init(cfg, start), schedule);
      s.outcome.None? && s.active.Some? && w.firing.Answer? ==> OnlyLowered(cfg, s, Step(cfg, s, w))
  {
    RunKeepsInv(cfg, start, schedule);
    var s := Run(cfg, Init(cfg, start), schedule);
    if s.outcome.None? && s.active.Some? && w.firing.Answer? {
      StepOnlyLowers(cfg, s, w);
    }
  }

  lemma TopGrants(cfg: Config, s: State, now: nat)
    ensures var t := Top(cfg, s, now);
      if t.dialled == s.dialled then t.grants == s.grants && t.begun == s.begun
      else
        && s.queue != [] && t.dialled == s.dialled + [s.queue[0]] && t.queue == s.queue[1..]
        && t.active == Some(s.queue[0]) && t.begun == t.clock
        && t.grants == s.grants + [t.attemptDeadline - t.begun]
        && t.attemptDeadline == Share(cfg.deadline, t.begun, |t.queue|)
  {
  }

  /** Nothing but the top of the loop dials: the next candidate, whose attempt is granted its share from
      the instant it begins until its deadline. */
  lemma {:induction false} GrantsAreKept(cfg: Config, s: State, w: Wake)
    ensures var t := Step(cfg, s, w);
      if t.dialled == s.dialled then t.grants == s.grants && t.begun == s.begun
      else
        && s.dialled <= t.dialled && |t.dialled| == |s.dialled| + 1
        && t.active == Some(t.dialled[|s.dialled|])
        && t.begun == t.clock == Max(Max(s.clock, w.at), w.resumed)
        && t.grants == s.grants + [t.attemptDeadline - t.begun]
        && (|t.queue| < U32_MAX ==>
              t.attemptDeadline - t.begun == SaturatingSub(cfg.deadline, t.begun) / (|t.queue| + 1))
  {
    var now := Max(s.clock, w.at);
    if s.outcome.None? && Enabled(cfg, s, now, w.firing) {
      var m := Select(cfg, s, now, w.firing);
      assert m.dialled == s.dialled && m.grants == s.grants && m.begun == s.begun;
      TopGrants(cfg, m, Max(now, w.resumed));
      var t := Step(cfg, s, w);
      if |t.queue| < U32_MAX {
        ShareIs(cfg.deadline, t.begun, |t.queue|);
      }
    }
  }

  /** Under an egress policy no address that stands for one in a refused prefix is ever dialled, and
      the client is told "not allowed" exactly when every address found is such a one. */
  lemma {:induction false} PolicyHolds(policy: Egress.Policy, deadline: nat, start: nat, schedule: seq<Wake>)
    ensures var s := Run(ConfigOf(policy, deadline), Init(ConfigOf(policy, deadline), start), schedule);
      && (forall a :: a in s.dialled ==> !Egress.InRefused(policy, Egress.Folded(a.Ip())))
      && (s.outcome.Some? && s.outcome.value.Failed? ==>
            (ReplyCode(s.outcome.value.failure) == 2
             <==> s.received != [] && forall a :: a in s.received ==> Egress.InRefused(policy, Egress.Folded(a.Ip()))))
  {
    var cfg := ConfigOf(policy, deadline);
    DialsAreBounded(cfg, start, schedule);
    ReplyTellsWhatWasFound(cfg, start, schedule);
    forall a: SocketAddr ensures cfg.permitted(a) <==> !Egress.InRefused(policy, Egress.Folded(a.Ip())) {
      Egress.BlockedIffInRefusedPrefix(policy, a.Ip());
    }
  }
}
