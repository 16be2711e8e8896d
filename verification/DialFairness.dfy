/** Every candidate waiting behind the active attempt gets its fair share of the remaining time. */
module DialFairness {
  import opened Wire
  import opened Net
  import opened Arithmetic
  import opened DialScheduler
  import opened DialLaws

  /** Idealised timers: an attempt ends no later than its deadline, and the loop resumes at once. */
  predicate Punctual(s: State, w: Wake) {
    w.resumed <= w.at && (s.active.Some? ==> w.at <= Max(s.attemptDeadline, s.clock))
  }

  predicate PunctualRun(cfg: Config, s: State, schedule: seq<Wake>) {
    schedule != [] ==>
      var n := |schedule| - 1;
      PunctualRun(cfg, s, schedule[..n]) && Punctual(Run(cfg, s, schedule[..n]), schedule[n])
  }

  lemma {:induction false} RunExtends(cfg: Config, s: State, schedule: seq<Wake>, w: Wake)
    ensures Run(cfg, s, schedule + [w]) == Step(cfg, Run(cfg, s, schedule), w)
    ensures PunctualRun(cfg, s, schedule) && Punctual(Run(cfg, s, schedule), w)
      ==> PunctualRun(cfg, s, schedule + [w])
  {
    assert (schedule + [w])[..|schedule|] == schedule;
  }

  /** However late the active attempt ends, everyone in the queue can still get `g`. */
  ghost predicate Reserves(cfg: Config, g: nat, s: State) {
    s.outcome.None? ==>
      if s.active.Some? then Max(s.attemptDeadline, s.clock) + |s.queue| * g <= cfg.deadline
      else s.queue == []
  }

  /** Every dial between `s` and `t` was granted at least `g`. */
  predicate Granted(s: State, t: State, g: nat) {
    && |s.grants| <= |t.grants|
    && forall k :: |s.grants| <= k < |t.grants| ==> t.grants[k] >= g
  }

  /** A share of what is left leaves as much for each of the others. */
  lemma ShareLeavesEnough(left: nat, n: nat, g: nat)
    requires n > 0 && left >= n * g
    ensures left / n >= g && left - left / n >= (n - 1) * g
  {
    QuotientAtLeast(left, n, g);
    Floor(left, n);
    var q := left / n;
    assert n * q - q == (n - 1) * q;
    MulMonotone(g, q, n - 1);
  }

  lemma {:induction false} DialReserves(cfg: Config, g: nat, s: State, now: nat)
    requires s.outcome.None? && s.active.None? && 0 < |s.queue| <= U32_MAX
    requires now + |s.queue| * g <= cfg.deadline
    ensures var t := Top(cfg, s, now);
      Reserves(cfg, g, t) && Granted(s, t, g) && s.grants <= t.grants
  {
    var n := |s.queue|;
    ShareLeavesEnough(cfg.deadline - now, n, g);
    var t := Top(cfg, s, now);
    assert t.attemptDeadline == now + (cfg.deadline - now) / n && |t.queue| == n - 1;
  }

  lemma {:induction false} NothingFresh(cfg: Config, list: seq<SocketAddr>, seen: set<SocketAddr>)
    requires seen + PermittedSet(cfg.permitted, list) == seen
    ensures Fresh(cfg.permitted, list, seen) == []
  {
    if list != [] {
      var n := |list| - 1;
      assert list[n] in list;
      NothingFresh(cfg, list[..n], seen);
    }
  }

  lemma AnswerReserves(cfg: Config, g: nat, s: State, w: Wake)
    requires Reserves(cfg, g, s) && Punctual(s, w) && w.firing.Answer? && s.outcome.None?
    requires Step(cfg, s, w).seen == s.seen
    ensures var t := Step(cfg, s, w);
      Reserves(cfg, g, t) && t.grants == s.grants && t.queue == s.queue
  {
    var list := if w.firing.addresses.Some? then w.firing.addresses.value else [];
    var now := Max(s.clock, w.at);
    if Enabled(cfg, s, now, w.firing) {
      var m := OnAnswer(cfg, s, now, w.firing.family, w.firing.addresses);
      assert m.seen == s.seen;
      NothingFresh(cfg, list, s.seen);
    }
  }

  /** The turn in which an attempt ends, at once followed by the next dial. */
  lemma {:induction false} EndReserves(cfg: Config, g: nat, s: State, w: Wake, error: Option<IoKind>)
    requires Reserves(cfg, g, s) && s.outcome.None? && s.active.Some? && |s.queue| <= U32_MAX && Punctual(s, w)
    requires Enabled(cfg, s, Max(s.clock, w.at), w.firing)
    requires w.firing == Attempted(error) || (w.firing == AttemptTimer && error == Some(TimedOut))
    ensures var t := Step(cfg, s, w);
      Reserves(cfg, g, t) && Granted(s, t, g) && s.grants <= t.grants && |t.queue| <= |s.queue|
  {
    var now := Max(s.clock, w.at);
    var m := OnAttemptEnd(s, now, error);
    assert Step(cfg, s, w) == Top(cfg, m, now);
    if m.outcome.None? && m.queue != [] {
      DialReserves(cfg, g, m, now);
    }
  }

  lemma {:induction false} StepReserves(cfg: Config, g: nat, s: State, w: Wake)
    requires Reserves(cfg, g, s) && |s.queue| <= U32_MAX && Punctual(s, w)
    requires Step(cfg, s, w).seen == s.seen
    ensures var t := Step(cfg, s, w);
      Reserves(cfg, g, t) && Granted(s, t, g) && s.grants <= t.grants && |t.queue| <= |s.queue|
  {
    if s.outcome.None? && Enabled(cfg, s, Max(s.clock, w.at), w.firing) {
      match w.firing
      case Answer(_, _) =>
        AnswerReserves(cfg, g, s, w);
      case Attempted(error) =>
        EndReserves(cfg, g, s, w, error);
      case AttemptTimer =>
        EndReserves(cfg, g, s, w, Some(TimedOut));
      case TotalTimer =>
        assert Step(cfg, s, w).outcome.Some?;
    }
  }

  lemma {:induction false} SeenGrows(cfg: Config, s: State, schedule: seq<Wake>)
    ensures s.seen <= Run(cfg, s, schedule).seen
  {
    if schedule != [] {
      SeenGrows(cfg, s, schedule[..|schedule| - 1]);
      StepSeenGrows(cfg, Run(cfg, s, schedule[..|schedule| - 1]), schedule[|schedule| - 1]);
    }
  }

  lemma StepSeenGrows(cfg: Config, s: State, w: Wake)
    ensures s.seen <= Step(cfg, s, w).seen
  {
    var now := Max(s.clock, w.at);
    if s.outcome.None? && Enabled(cfg, s, now, w.firing) {
      assert s.seen <= Select(cfg, s, now, w.firing).seen;
    }
  }

  lemma {:induction false} RunReserves(cfg: Config, g: nat, s: State, schedule: seq<Wake>)
    requires Reserves(cfg, g, s) && |s.queue| <= U32_MAX
    requires PunctualRun(cfg, s, schedule) && Run(cfg, s, schedule).seen == s.seen
    ensures var t := Run(cfg, s, schedule);
      Reserves(cfg, g, t) && Granted(s, t, g) && s.grants <= t.grants && |t.queue| <= |s.queue|
  {
    if schedule != [] {
      var n := |schedule| - 1;
      var m := Run(cfg, s, schedule[..n]);
      SeenGrows(cfg, s, schedule[..n]);
      StepSeenGrows(cfg, m, schedule[n]);
      RunReserves(cfg, g, s, schedule[..n]);
      StepReserves(cfg, g, m, schedule[n]);
    }
  }

  /** The attempt in progress, if it began after the first `since` dials, may last `g`. */
  predicate Lasts(s: State, since: nat, g: nat) {
    s.outcome.None? && s.active.Some? && |s.grants| > since ==> s.begun + g <= s.attemptDeadline
  }

  lemma StepKeepsTimely(cfg: Config, s: State, w: Wake)
    requires s.outcome.None? ==> Timely(cfg, s)
    ensures Step(cfg, s, w).outcome.None? ==> Timely(cfg, Step(cfg, s, w))
  {
    var now := Max(s.clock, w.at);
    if s.outcome.None? && Enabled(cfg, s, now, w.firing) {
      if w.firing.Answer? {
        AnswerKeepsTimely(cfg, s, now, w.firing.family, w.firing.addresses);
      }
      var m := Select(cfg, s, now, w.firing);
      if m.outcome.None? && m.active.None? && m.queue != [] {
        DialKeepsTimely(cfg, m, Max(now, w.resumed));
      }
    }
  }

  /** An attempt goes on over a step only if nothing happened or an answer came. */
  lemma AttemptGoesOn(cfg: Config, s: State, w: Wake)
    ensures var t := Step(cfg, s, w);
      t.outcome.None? && t.active.Some? && t.dialled == s.dialled && t != s ==>
        s.outcome.None? && s.active.Some? && w.firing.Answer? && s.queue <= t.queue
  {
    var now := Max(s.clock, w.at);
    if s.outcome.None? && Enabled(cfg, s, now, w.firing) {
      var m := Select(cfg, s, now, w.firing);
      assert m.dialled == s.dialled;
      TopGrants(cfg, m, Max(now, w.resumed));
      if m.active.None? {
        assert Top(cfg, m, Max(now, w.resumed)).dialled == m.dialled ==>
          Top(cfg, m, Max(now, w.resumed)).active.None?;
      }
    }
  }

  lemma {:induction false} StepLasts(cfg: Config, s: State, w: Wake, since: nat, g: nat)
    requires s.outcome.None? ==> Timely(cfg, s)
    requires Lasts(s, since, g) && since <= |s.grants|
    requires Granted(s, Step(cfg, s, w), g) && |Step(cfg, s, w).queue| <= |s.queue|
    ensures Lasts(Step(cfg, s, w), since, g)
  {
    GrantsAreKept(cfg, s, w);
    AttemptGoesOn(cfg, s, w);
    var t := Step(cfg, s, w);
    if t.dialled != s.dialled {
      assert t.grants[|s.grants|] >= g;
    } else if t != s && t.outcome.None? && t.active.Some? {
      StepOnlyLowers(cfg, s, w);
      assert t.queue == s.queue;
    }
  }

  lemma {:induction false} RunLasts(cfg: Config, g: nat, s: State, schedule: seq<Wake>)
    requires Timely(cfg, s) && Reserves(cfg, g, s) && |s.queue| <= U32_MAX
    requires PunctualRun(cfg, s, schedule) && Run(cfg, s, schedule).seen == s.seen
    ensures var t := Run(cfg, s, schedule);
      (t.outcome.None? ==> Timely(cfg, t)) && |s.grants| <= |t.grants| && Lasts(t, |s.grants|, g)
  {
    if schedule != [] {
      var n := |schedule| - 1;
      var m := Run(cfg, s, schedule[..n]);
      SeenGrows(cfg, s, schedule[..n]);
      StepSeenGrows(cfg, m, schedule[n]);
      RunLasts(cfg, g, s, schedule[..n]);
      RunReserves(cfg, g, s, schedule[..n]);
      StepReserves(cfg, g, m, schedule[n]);
      StepKeepsTimely(cfg, m, schedule[n]);
      StepLasts(cfg, m, schedule[n], |s.grants|, g);
    }
  }

  /** An attempt is active, in time, and the divisor does not saturate. */
  predicate Sharing(cfg: Config, s: State) {
    s.outcome.None? && s.active.Some? && s.clock <= cfg.deadline && |s.queue| + 1 <= U32_MAX
  }

  function EqualShare(cfg: Config, s: State): nat {
    SaturatingSub(cfg.deadline, s.clock) / (|s.queue| + 1)
  }

  lemma {:induction false} FairFrom(cfg: Config, s: State, schedule: seq<Wake>)
    requires Timely(cfg, s) && Sharing(cfg, s)
    requires PunctualRun(cfg, s, schedule) && Run(cfg, s, schedule).seen == s.seen
    ensures Granted(s, Run(cfg, s, schedule), EqualShare(cfg, s))
    ensures Lasts(Run(cfg, s, schedule), |s.grants|, EqualShare(cfg, s))
  {
    var n, left := |s.queue| + 1, cfg.deadline - s.clock;
    var g := left / n;
    assert Reserves(cfg, g, s) by { FairStart(cfg, s, n, left); }
    RunReserves(cfg, g, s, schedule);
    RunLasts(cfg, g, s, schedule);
  }

  /** Whenever, after any run, `n` candidates are outstanding with `R` nanoseconds left, and no later
      answer adds one, every queued candidate that gets dialled is granted at least `R / n`, whatever
      the pattern of failures and timeouts, and as long as its attempt lasts its deadline is at least
      that long after its start. The divisor saturates at `u32::MAX`, hence the bound on `n`. */
  lemma {:induction false} FairShare(cfg: Config, start: nat, earlier: seq<Wake>, schedule: seq<Wake>)
    ensures var s := Run(cfg, Init(cfg, start), earlier);
      var t := Run(cfg, s, schedule);
      Sharing(cfg, s) && PunctualRun(cfg, s, schedule) && t.seen == s.seen ==>
        Granted(s, t, EqualShare(cfg, s)) && Lasts(t, |s.grants|, EqualShare(cfg, s))
  {
    var s := Run(cfg, Init(cfg, start), earlier);
    RunKeepsInv(cfg, start, earlier);
    if Sharing(cfg, s) && PunctualRun(cfg, s, schedule) && Run(cfg, s, schedule).seen == s.seen {
      FairFrom(cfg, s, schedule);
    }
  }

  lemma FairStart(cfg: Config, s: State, n: nat, left: nat)
    requires Timely(cfg, s) && s.active.Some? && s.clock <= cfg.deadline && n <= U32_MAX
    requires n == |s.queue| + 1 && left == cfg.deadline - s.clock
    ensures Reserves(cfg, left / n, s)
  {
    var g := left / n;
    Floor(left, n);
    assert n * g == |s.queue| * g + g;
    assert Share(cfg.deadline, s.clock, |s.queue|) == s.clock + g;
  }
}
