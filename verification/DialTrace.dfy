/** What a run of the dial scheduler owes to its schedule: every answer, every error and every
    timer counts, exactly once and as what it is. */
module DialTrace {
  import opened Wire
  import opened Net
  import opened DialScheduler
  import opened DialLaws

  function Before(cfg: Config, start: nat, schedule: seq<Wake>, i: nat): State
    requires i <= |schedule|
  {
    Run(cfg, Init(cfg, start), schedule[..i])
  }

  predicate Answers(w: Wake, family: Family) {
    w.firing.Answer? && w.firing.family == family
  }

  /** Wake-up `i` answers `family` while the search is undecided. */
  ghost predicate AnswersAt(cfg: Config, start: nat, schedule: seq<Wake>, i: nat, family: Family) {
    i < |schedule| && Answers(schedule[i], family) && Before(cfg, start, schedule, i).outcome.None?
  }

  /** The addresses of the first answer of each family, in order of arrival. */
  ghost function Heard(cfg: Config, start: nat, schedule: seq<Wake>): seq<SocketAddr> {
    if schedule == [] then []
    else
      var n := |schedule| - 1;
      var before := Heard(cfg, start, schedule[..n]);
      var w := schedule[n];
      if w.firing.Answer? && w.firing.addresses.Some?
        && AnswersAt(cfg, start, schedule, n, w.firing.family)
        && !(exists j: nat :: AnswersAt(cfg, start, schedule[..n], j, w.firing.family))
      then before + w.firing.addresses.value
      else before
  }

  function IsDone(s: State, family: Family): bool {
    if family == A then s.doneA else s.doneAaaa
  }

  lemma AnswersEarlier(cfg: Config, start: nat, schedule: seq<Wake>, n: nat, family: Family)
    requires n + 1 == |schedule|
    ensures (exists j: nat :: AnswersAt(cfg, start, schedule, j, family))
      <==> (exists j: nat :: AnswersAt(cfg, start, schedule[..n], j, family))
           || AnswersAt(cfg, start, schedule, n, family)
  {
    forall j: nat | j < n
      ensures AnswersAt(cfg, start, schedule[..n], j, family) <==> AnswersAt(cfg, start, schedule, j, family)
    {
      assert schedule[..n][..j] == schedule[..j];
    }
  }

  lemma TopTakesNoAnswers(cfg: Config, s: State, now: nat)
    ensures var t := Top(cfg, s, now);
      t.doneA == s.doneA && t.doneAaaa == s.doneAaaa && t.received == s.received
  {
  }

  lemma StepTakesAnswers(cfg: Config, s: State, w: Wake, family: Family)
    ensures IsDone(Step(cfg, s, w), family) <==> IsDone(s, family) || (s.outcome.None? && Answers(w, family))
    ensures s.outcome.None? && Answers(w, family) && !IsDone(s, family) && w.firing.addresses.Some?
      ==> Step(cfg, s, w).received == s.received + w.firing.addresses.value
    ensures s.outcome.Some? || !w.firing.Answer? || w.firing.addresses.None? || IsDone(s, w.firing.family)
      ==> Step(cfg, s, w).received == s.received
  {
    var now := Max(s.clock, w.at);
    if s.outcome.None? && Enabled(cfg, s, now, w.firing) {
      TopTakesNoAnswers(cfg, Select(cfg, s, now, w.firing), Max(now, w.resumed));
    }
  }

  lemma {:induction false} DoneIff(cfg: Config, start: nat, schedule: seq<Wake>, family: Family)
    ensures IsDone(Run(cfg, Init(cfg, start), schedule), family)
      <==> exists i: nat :: AnswersAt(cfg, start, schedule, i, family)
  {
    if schedule != [] {
      var n := |schedule| - 1;
      DoneIff(cfg, start, schedule[..n], family);
      AnswersEarlier(cfg, start, schedule, n, family);
      StepTakesAnswers(cfg, Before(cfg, start, schedule, n), schedule[n], family);
    }
  }

  lemma {:induction false} HeardIs(cfg: Config, start: nat, schedule: seq<Wake>)
    ensures Run(cfg, Init(cfg, start), schedule).received == Heard(cfg, start, schedule)
  {
    if schedule != [] {
      var n := |schedule| - 1;
      var s, w := Before(cfg, start, schedule, n), schedule[n];
      HeardIs(cfg, start, schedule[..n]);
      if w.firing.Answer? {
        DoneIff(cfg, start, schedule[..n], w.firing.family);
        StepTakesAnswers(cfg, s, w, w.firing.family);
      } else {
        StepTakesAnswers(cfg, s, w, A);
      }
    }
  }

  /** A lookup is done exactly when its answer came while the search was undecided, and the addresses
      received are those of the first answer of each family: none is lost, invented or counted twice. */
  lemma {:induction false} ReceivedIsHeard(cfg: Config, start: nat, schedule: seq<Wake>)
    ensures var s := Run(cfg, Init(cfg, start), schedule);
      && s.received == Heard(cfg, start, schedule)
      && (s.doneA <==> exists i: nat :: AnswersAt(cfg, start, schedule, i, A))
      && (s.doneAaaa <==> exists i: nat :: AnswersAt(cfg, start, schedule, i, Aaaa))
  {
    HeardIs(cfg, start, schedule);
    DoneIff(cfg, start, schedule, A);
    DoneIff(cfg, start, schedule, Aaaa);
  }

  // ---- Errors ----

  /** The error with which an attempt ends at this wake-up, if one does. */
  function ErrorAt(s: State, w: Wake): Option<IoKind> {
    if s.outcome.Some? || s.active.None? then None
    else match w.firing
      case Attempted(error) => error
      case AttemptTimer => if s.attemptDeadline <= Max(s.clock, w.at) then Some(TimedOut) else None
      case _ => None
  }

  /** The errors of the attempts that ended, in order. */
  function Errors(cfg: Config, start: nat, schedule: seq<Wake>): seq<IoKind> {
    if schedule == [] then []
    else
      var n := |schedule| - 1;
      var before := Errors(cfg, start, schedule[..n]);
      match ErrorAt(Run(cfg, Init(cfg, start), schedule[..n]), schedule[n])
      case None => before
      case Some(error) => before + [error]
  }

  function LastOf(errors: seq<IoKind>): Option<IoKind> {
    if errors == [] then None else Some(errors[|errors| - 1])
  }

  predicate Succeeded(s: State) {
    s.outcome.Some? && s.outcome.value.Connected?
  }

  /** Attempts end in the order of their dials: all but the active or successful one with an error. */
  ghost predicate Accounts(s: State, errors: seq<IoKind>) {
    && s.lastError == LastOf(errors)
    && |s.dialled| == |errors| + Count(s.active.Some?) + Count(Succeeded(s))
    && (s.active.Some? ==> s.dialled[|s.dialled| - 1] == s.active.value)
    && (Succeeded(s) ==> s.active.None? && s.dialled[|s.dialled| - 1] == s.outcome.value.address)
    && (s.outcome.Some? && s.outcome.value.Failed? && !s.expired ==>
          s.active.None? && (s.outcome.value.failure.Dial? <==> errors != []))
    && (s.outcome.Some? && s.outcome.value.Failed? && !s.expired && s.outcome.value.failure.Dial? ==>
          LastOf(errors) == Some(s.outcome.value.failure.kind))
    && (s.outcome.None? ==> !s.expired)
  }

  lemma TopAccounts(cfg: Config, s: State, now: nat, errors: seq<IoKind>)
    requires Accounts(s, errors)
    ensures Accounts(Top(cfg, s, now), errors)
  {
  }

  lemma SelectAccounts(cfg: Config, s: State, w: Wake, now: nat, errors: seq<IoKind>)
    requires Accounts(s, errors) && s.outcome.None? && now == Max(s.clock, w.at) && Enabled(cfg, s, now, w.firing)
    ensures Accounts(Select(cfg, s, now, w.firing),
                     if ErrorAt(s, w).Some? then errors + [ErrorAt(s, w).value] else errors)
  {
  }

  /** Every attempt that ended is accounted for, in dial order: `errors[k]` is that of `dialled[k]`, a
      timeout for one cut off by its timer. An unexpired `Dial` carries the last of them, the error of
      the last candidate. */
  lemma {:induction false} ErrorsFollowDials(cfg: Config, start: nat, schedule: seq<Wake>)
    ensures Accounts(Run(cfg, Init(cfg, start), schedule), Errors(cfg, start, schedule))
  {
    if schedule != [] {
      var n := |schedule| - 1;
      ErrorsFollowDials(cfg, start, schedule[..n]);
      var s, w := Run(cfg, Init(cfg, start), schedule[..n]), schedule[n];
      var now := Max(s.clock, w.at);
      if s.outcome.None? && Enabled(cfg, s, now, w.firing) {
        SelectAccounts(cfg, s, w, now, Errors(cfg, start, schedule[..n]));
        TopAccounts(cfg, Select(cfg, s, now, w.firing), Max(now, w.resumed), Errors(cfg, start, schedule));
      }
    }
  }

  /** Wake-up `i` is the total timer, due, in a search that is still undecided. */
  ghost predicate ExpiresAt(cfg: Config, start: nat, schedule: seq<Wake>, i: nat) {
    && i < |schedule| && schedule[i].firing == TotalTimer
    && var s := Before(cfg, start, schedule, i);
       s.outcome.None? && cfg.deadline <= Max(s.clock, schedule[i].at)
  }

  lemma TopExpiresNothing(cfg: Config, s: State, now: nat)
    ensures Top(cfg, s, now).expired == s.expired
    ensures s.outcome.Some? ==> Top(cfg, s, now) == s
  {
  }

  lemma StepExpires(cfg: Config, s: State, w: Wake)
    ensures Step(cfg, s, w).expired
      <==> s.expired || (s.outcome.None? && w.firing == TotalTimer && cfg.deadline <= Max(s.clock, w.at))
  {
    var now := Max(s.clock, w.at);
    if s.outcome.None? && Enabled(cfg, s, now, w.firing) {
      TopExpiresNothing(cfg, Select(cfg, s, now, w.firing), Max(now, w.resumed));
    }
  }

  lemma ExpiresEarlier(cfg: Config, start: nat, schedule: seq<Wake>, n: nat)
    requires n + 1 == |schedule|
    ensures (exists i: nat :: ExpiresAt(cfg, start, schedule, i))
      <==> (exists i: nat :: ExpiresAt(cfg, start, schedule[..n], i)) || ExpiresAt(cfg, start, schedule, n)
  {
    forall i: nat | i < n ensures ExpiresAt(cfg, start, schedule[..n], i) <==> ExpiresAt(cfg, start, schedule, i) {
      assert schedule[..n][..i] == schedule[..i];
    }
  }

  /** The total deadline ends a search exactly when its timer fires, due, before anything else does. */
  lemma {:induction false} ExpiredIff(cfg: Config, start: nat, schedule: seq<Wake>)
    ensures Run(cfg, Init(cfg, start), schedule).expired <==> exists i: nat :: ExpiresAt(cfg, start, schedule, i)
  {
    if schedule != [] {
      var n := |schedule| - 1;
      ExpiredIff(cfg, start, schedule[..n]);
      ExpiresEarlier(cfg, start, schedule, n);
      StepExpires(cfg, Before(cfg, start, schedule, n), schedule[n]);
    }
  }

  // ---- What the client is told ----

  /** The reply code that names the error of the last candidate. */
  predicate Names(code: Byte, last: IoKind) {
    && (last == TimedOut ==> code == 6)
    && (last == ConnectionRefused ==> code == 5)
    && (last == NetworkUnreachable ==> code == 3)
    && (last in {HostUnreachable, AddrNotAvailable} ==> code == 4)
    && (last == OtherKind ==> code == 1)
  }

  /** What a failed search answers: 4 when no address was heard of, 2 when all are blocked, 6 when time
      ran out, and otherwise the error of the last candidate. */
  ghost predicate Tells(cfg: Config, failure: Failure, heard: seq<SocketAddr>, errors: seq<IoKind>, expired: bool) {
    var code := ReplyCode(failure);
    if heard == [] then code == 4
    else if forall a :: a in heard ==> !cfg.permitted(a) then code == 2
    else if expired then code == 6
    else |errors| == |Candidates(cfg, heard)| > 0 && Names(code, errors[|errors| - 1])
  }

  lemma FailureTells(cfg: Config, s: State, errors: seq<IoKind>)
    requires Verdict(cfg, s) && s.outcome.value.Failed? && Accounts(s, errors)
    ensures Tells(cfg, s.outcome.value.failure, s.received, errors, s.expired)
  {
    CandidatesMeaning(cfg, s.received);
    if Candidates(cfg, s.received) != [] {
      assert Candidates(cfg, s.received)[0] in s.received;
    }
  }

  /** The code of a failed search, in terms of its schedule alone. */
  lemma {:induction false} ReplyFollowsSchedule(cfg: Config, start: nat, schedule: seq<Wake>)
    ensures var s := Run(cfg, Init(cfg, start), schedule);
      s.outcome.Some? && s.outcome.value.Failed? ==>
        Tells(cfg, s.outcome.value.failure, Heard(cfg, start, schedule), Errors(cfg, start, schedule),
              exists i: nat :: ExpiresAt(cfg, start, schedule, i))
  {
    var s := Run(cfg, Init(cfg, start), schedule);
    RunKeepsInv(cfg, start, schedule);
    HeardIs(cfg, start, schedule);
    ErrorsFollowDials(cfg, start, schedule);
    ExpiredIff(cfg, start, schedule);
    if s.outcome.Some? && s.outcome.value.Failed? {
      FailureTells(cfg, s, Errors(cfg, start, schedule));
    }
  }
}
