/** The dual-family dial scheduler `establish`: two lookups, a candidate queue, one active
    attempt, its recomputed deadline and a total deadline. Times are nanoseconds. */
module DialScheduler {
  import opened Wire
  import opened Net
  import Addressing
  import Arithmetic
  import Egress

  datatype IoKind =
    | TimedOut | ConnectionRefused | NetworkUnreachable | HostUnreachable | AddrNotAvailable | OtherKind

  datatype Failure = Dns | Blocked | Dial(kind: IoKind)
  datatype Outcome = Connected(address: SocketAddr) | Failed(failure: Failure)

  /** Which destinations may be dialled, and the total deadline. */
  datatype Config = Config(permitted: SocketAddr -> bool, deadline: nat)

  function ConfigOf(policy: Egress.Policy, deadline: nat): Config {
    Config((address: SocketAddr) => !Egress.IsBlocked(policy, address.Ip()), deadline)
  }

  datatype Family = A | Aaaa

  /** The branches of the `select!`. A lookup answers with addresses or an error, an attempt
      connects or fails. */
  datatype Firing =
    | Answer(family: Family, addresses: Option<seq<SocketAddr>>)
    | Attempted(error: Option<IoKind>)
    | AttemptTimer
    | TotalTimer

  /** One turn of the loop: a branch fires at `at`, and the top of the loop is reached at
      `resumed`. Instants before the current one count as now. */
  datatype Wake = Wake(at: nat, resumed: nat, firing: Firing)

  /** The loop's variables, the clock, and a history: addresses received, addresses dialled,
      the time each dial was granted, when the active attempt began, how many branches fired,
      and whether the total deadline ended the search. */
  datatype State = State(
    doneA: bool, doneAaaa: bool,
    queue: seq<SocketAddr>, seen: set<SocketAddr>, blocked: bool,
    active: Option<SocketAddr>, attemptDeadline: nat, lastError: Option<IoKind>,
    outcome: Option<Outcome>, clock: nat,
    received: seq<SocketAddr>, dialled: seq<SocketAddr>, grants: seq<nat>, begun: nat,
    fired: nat, expired: bool)

  const U32_MAX: nat := 0xFFFF_FFFF

  /** `u32::try_from(queue.len() + 1).unwrap_or(u32::MAX)`. */
  function Divisor(waiting: nat): (d: nat)
    ensures d > 0
  {
    Min(waiting + 1, U32_MAX)
  }

  /** `now + deadline.saturating_duration_since(now) / divisor`. */
  function Share(deadline: nat, now: nat, waiting: nat): (until: nat)
    ensures now <= until && (now <= deadline ==> until <= deadline)
  {
    var left := if now <= deadline then deadline - now else 0;
    Arithmetic.QuotientSmaller(left, Divisor(waiting));
    now + left / Divisor(waiting)
  }

  /** The addresses `add_candidates` appends to the queue. */
  function Fresh(permitted: SocketAddr -> bool, addresses: seq<SocketAddr>, seen: set<SocketAddr>): seq<SocketAddr> {
    if addresses == [] then []
    else
      var last := addresses[|addresses| - 1];
      var before := Fresh(permitted, addresses[..|addresses| - 1], seen);
      if !permitted(last) || last in seen || last in before then before else before + [last]
  }

  function PermittedSet(permitted: SocketAddr -> bool, addresses: seq<SocketAddr>): set<SocketAddr> {
    set a | a in addresses && permitted(a)
  }

  predicate SomeBlocked(permitted: SocketAddr -> bool, addresses: seq<SocketAddr>) {
    exists a :: a in addresses && !permitted(a)
  }

  /** `add_candidates`. */
  method AddCandidates(permitted: SocketAddr -> bool, addresses: seq<SocketAddr>,
                       queue0: seq<SocketAddr>, seen0: set<SocketAddr>, blocked0: bool)
    returns (queue: seq<SocketAddr>, seen: set<SocketAddr>, blocked: bool)
    ensures queue == queue0 + Fresh(permitted, addresses, seen0)
    ensures seen == seen0 + PermittedSet(permitted, addresses)
    ensures blocked == (blocked0 || SomeBlocked(permitted, addresses))
  {
    queue, seen, blocked := queue0, seen0, blocked0;
    for i := 0 to |addresses|
      invariant queue == queue0 + Fresh(permitted, addresses[..i], seen0)
      invariant seen == seen0 + PermittedSet(permitted, addresses[..i])
      invariant blocked == (blocked0 || SomeBlocked(permitted, addresses[..i]))
    {
      var address := addresses[i];
      assert addresses[..i + 1][..i] == addresses[..i];
      assert addresses[..i + 1] == addresses[..i] + [address];
      FreshElements(permitted, addresses[..i], seen0);
      if !permitted(address) {
        blocked := true;
      } else if address !in seen {
        seen := seen + {address};
        queue := queue + [address];
      }
    }
    assert addresses[..|addresses|] == addresses;
  }

  lemma {:induction false} FreshElements(permitted: SocketAddr -> bool, addresses: seq<SocketAddr>,
                                         seen: set<SocketAddr>)
    ensures forall a :: (a in Fresh(permitted, addresses, seen)
                         <==> a in addresses && permitted(a) && a !in seen)
  {
    if addresses != [] {
      var n := |addresses| - 1;
      FreshElements(permitted, addresses[..n], seen);
      assert addresses == addresses[..n] + [addresses[n]];
    }
  }

  // ---- One turn of the loop ----

  function Init(cfg: Config, start: nat): State {
    State(false, false, [], {}, false, None, cfg.deadline, None, None, start, [], [], [], 0, 0, false)
  }

  predicate Enabled(cfg: Config, s: State, now: nat, firing: Firing) {
    match firing
    case Answer(family, _) => if family == A then !s.doneA else !s.doneAaaa
    case Attempted(_) => s.active.Some?
    case AttemptTimer => s.active.Some? && now >= s.attemptDeadline
    case TotalTimer => now >= cfg.deadline
  }

  /** The active attempt's deadline once `waiting` candidates are queued behind it. */
  function Lowered(cfg: Config, active: Option<SocketAddr>, attemptDeadline: nat, now: nat, waiting: nat): nat {
    if active.Some? && waiting != 0 then Min(attemptDeadline, Share(cfg.deadline, now, waiting))
    else attemptDeadline
  }

  function OnAnswer(cfg: Config, s: State, now: nat, family: Family, addresses: Option<seq<SocketAddr>>): State {
    var list := if addresses.Some? then addresses.value else [];
    var queue := s.queue + Fresh(cfg.permitted, list, s.seen);
    s.(doneA := s.doneA || family == A,
       doneAaaa := s.doneAaaa || family == Aaaa,
       queue := queue,
       seen := s.seen + PermittedSet(cfg.permitted, list),
       blocked := s.blocked || SomeBlocked(cfg.permitted, list),
       attemptDeadline := Lowered(cfg, s.active, s.attemptDeadline, now, |queue|),
       received := s.received + list,
       clock := now,
       fired := s.fired + 1)
  }

  function OnAttemptEnd(s: State, now: nat, error: Option<IoKind>): State
    requires s.active.Some?
  {
    s.(active := None,
       lastError := if error.Some? then error else s.lastError,
       outcome := if error.Some? then s.outcome else Some(Connected(s.active.value)),
       clock := now,
       fired := s.fired + 1)
  }

  function OnTotalTimer(s: State, now: nat): State {
    var failure :=
      if s.active.Some? || s.lastError.Some? then Dial(TimedOut)
      else if s.blocked then Blocked
      else Dns;
    s.(outcome := Some(Failed(failure)), clock := now, fired := s.fired + 1, expired := true)
  }

  function Select(cfg: Config, s: State, now: nat, firing: Firing): State
    requires Enabled(cfg, s, now, firing)
  {
    match firing
    case Answer(family, addresses) => OnAnswer(cfg, s, now, family, addresses)
    case Attempted(error) => OnAttemptEnd(s, now, error)
    case AttemptTimer => OnAttemptEnd(s, now, Some(TimedOut))
    case TotalTimer => OnTotalTimer(s, now)
  }

  /** The top of the loop: dial the next candidate, or give up when nothing is left. */
  function Top(cfg: Config, s: State, now: nat): State {
    if s.outcome.Some? || s.active.Some? then s
    else if s.queue != [] then
      var until := Share(cfg.deadline, now, |s.queue| - 1);
      s.(queue := s.queue[1..], active := Some(s.queue[0]), attemptDeadline := until, clock := now,
         dialled := s.dialled + [s.queue[0]], grants := s.grants + [until - now], begun := now)
    else if s.doneA && s.doneAaaa then
      s.(outcome := Some(Failed(
        if s.lastError.Some? then Dial(s.lastError.value) else if s.blocked then Blocked else Dns)))
    else s
  }

  /** A branch that is not enabled cannot fire. */
  function Step(cfg: Config, s: State, w: Wake): State {
    var now := Max(s.clock, w.at);
    if s.outcome.Some? || !Enabled(cfg, s, now, w.firing) then s
    else Top(cfg, Select(cfg, s, now, w.firing), Max(now, w.resumed))
  }

  function Run(cfg: Config, s: State, schedule: seq<Wake>): State {
    if schedule == [] then s
    else Step(cfg, Run(cfg, s, schedule[..|schedule| - 1]), schedule[|schedule| - 1])
  }

  /** The loop variables of `establish`; `model` carries the history as well. */
  class Dialer {
    var doneA: bool
    var doneAaaa: bool
    var queue: seq<SocketAddr>
    var seen: set<SocketAddr>
    var blocked: bool
    var active: Option<SocketAddr>
    var attemptDeadline: nat
    var lastError: Option<IoKind>
    var outcome: Option<Outcome>
    var clock: nat
    var dialled: seq<SocketAddr>
    ghost var model: State

    ghost predicate Valid()
      reads this
    {
      model == State(doneA, doneAaaa, queue, seen, blocked, active, attemptDeadline, lastError, outcome, clock,
                     model.received, dialled, model.grants, model.begun, model.fired, model.expired)
    }

    constructor (cfg: Config, start: nat)
      ensures Valid() && model == Init(cfg, start)
    {
      doneA, doneAaaa, queue, seen, blocked := false, false, [], {}, false;
      active, attemptDeadline, lastError, outcome, clock, dialled := None, cfg.deadline, None, None, start, [];
      model := Init(cfg, start);
    }

    method TakeAnswer(cfg: Config, now: nat, family: Family, addresses: Option<seq<SocketAddr>>)
      requires Valid()
      modifies this
      ensures Valid() && model == OnAnswer(cfg, old(model), now, family, addresses)
    {
      ghost var m := OnAnswer(cfg, model, now, family, addresses);
      var list := if addresses.Some? then addresses.value else [];
      Learn(cfg, list);
      var until := Lowered(cfg, active, attemptDeadline, now, |queue|);
      attemptDeadline, clock := until, now;
      if family == A { doneA := true; } else { doneAaaa := true; }
      model := m;
    }

    method Learn(cfg: Config, list: seq<SocketAddr>)
      modifies this`queue, this`seen, this`blocked
      ensures queue == old(queue) + Fresh(cfg.permitted, list, old(seen))
      ensures seen == old(seen) + PermittedSet(cfg.permitted, list)
      ensures blocked == (old(blocked) || SomeBlocked(cfg.permitted, list))
    {
      queue, seen, blocked := AddCandidates(cfg.permitted, list, queue, seen, blocked);
    }

    method EndAttempt(now: nat, error: Option<IoKind>)
      requires Valid() && active.Some?
      modifies this
      ensures Valid() && model == OnAttemptEnd(old(model), now, error)
    {
      if error.None? { outcome := Some(Connected(active.value)); } else { lastError := error; }
      active := None;
      clock := now;
      model := OnAttemptEnd(model, now, error);
    }

    method Expire(now: nat)
      requires Valid()
      modifies this
      ensures Valid() && model == OnTotalTimer(old(model), now)
    {
      outcome := Some(Failed(
        if active.Some? || lastError.Some? then Dial(TimedOut) else if blocked then Blocked else Dns));
      clock := now;
      model := OnTotalTimer(model, now);
    }

    method TopOfLoop(cfg: Config, now: nat)
      requires Valid()
      modifies this
      ensures Valid() && model == Top(cfg, old(model), now)
    {
      model := Top(cfg, model, now);
      if outcome.None? && active.None? {
        if queue != [] {
          clock := now;
          active := Some(queue[0]);
          dialled := dialled + [queue[0]];
          queue := queue[1..];
          attemptDeadline := Share(cfg.deadline, now, |queue|);
        } else if doneA && doneAaaa {
          outcome := Some(Failed(
            if lastError.Some? then Dial(lastError.value) else if blocked then Blocked else Dns));
        }
      }
    }

    /** Fires the branch that woke up, unless it is not enabled, and goes back to the top. */
    method Turn(cfg: Config, w: Wake)
      requires Valid()
      modifies this
      ensures Valid() && model == Step(cfg, old(model), w)
    {
      var now := Max(clock, w.at);
      if outcome.Some? || !IsEnabled(cfg, now, w.firing) {
        return;
      }
      match w.firing {
        case Answer(family, addresses) => TakeAnswer(cfg, now, family, addresses);
        case Attempted(error) => EndAttempt(now, error);
        case AttemptTimer => EndAttempt(now, Some(TimedOut));
        case TotalTimer => Expire(now);
      }
      TopOfLoop(cfg, Max(now, w.resumed));
    }

    /** The guards of the branches. */
    predicate IsEnabled(cfg: Config, now: nat, firing: Firing)
      requires Valid()
      reads this
      ensures IsEnabled(cfg, now, firing) == Enabled(cfg, model, now, firing)
    {
      match firing
      case Answer(family, _) => !(if family == A then doneA else doneAaaa)
      case Attempted(_) => active.Some?
      case AttemptTimer => active.Some? && attemptDeadline <= now
      case TotalTimer => cfg.deadline <= now
    }
  }

  /** `establish` for a domain target, under any schedule of wake-ups. */
  method EstablishNamed(cfg: Config, start: nat, schedule: seq<Wake>)
    returns (outcome: Option<Outcome>, dialled: seq<SocketAddr>)
    ensures outcome == Run(cfg, Init(cfg, start), schedule).outcome
    ensures dialled == Run(cfg, Init(cfg, start), schedule).dialled
  {
    var d := new Dialer(cfg, start);
    for i := 0 to |schedule|
      invariant d.Valid()
      invariant d.model == Run(cfg, Init(cfg, start), schedule[..i])
    {
      assert schedule[..i + 1][..i] == schedule[..i];
      d.Turn(cfg, schedule[i]);
    }
    assert schedule[..|schedule|] == schedule;
    return d.outcome, d.dialled;
  }

  // ---- Literal targets ----

  /** The lookups a literal target amounts to: none for IPv6, and at once this one address. */
  function Lookups(address: SocketAddr, start: nat): seq<Wake> {
    [Wake(start, start, Answer(Aaaa, None)), Wake(start, start, Answer(A, Some([address])))]
  }

  /** What they lead to. */
  function Alone(cfg: Config, address: SocketAddr, start: nat): State {
    Run(cfg, Init(cfg, start), Lookups(address, start))
  }

  /** After the first of them. */
  function NoIpv6(cfg: Config, start: nat): State {
    Init(cfg, start).(doneAaaa := true, fired := 1)
  }

  lemma {:induction false} FirstLookup(cfg: Config, start: nat)
    ensures Step(cfg, Init(cfg, start), Wake(start, start, Answer(Aaaa, None))) == NoIpv6(cfg, start)
  {
    var s := OnAnswer(cfg, Init(cfg, start), start, Aaaa, None);
    assert s.queue == [] && s.received == [] && s.seen == {} && !s.blocked;
    assert s == NoIpv6(cfg, start);
  }

  lemma {:induction false} TwoWakes(cfg: Config, s: State, first: Wake, second: Wake)
    ensures Run(cfg, s, [first, second]) == Step(cfg, Step(cfg, s, first), second)
  {
    assert [first, second][..1] == [first] && [first][..0] == [];
    assert Run(cfg, s, [first]) == Step(cfg, Run(cfg, s, []), first);
  }

  lemma {:induction false} FreshAlone(permitted: SocketAddr -> bool, address: SocketAddr)
    ensures Fresh(permitted, [address], {}) == if permitted(address) then [address] else []
    ensures SomeBlocked(permitted, [address]) <==> !permitted(address)
  {
    assert [address][..0] == [] && address in [address];
    assert Fresh(permitted, [], {}) == [];
  }

  lemma {:induction false} SecondLookup(cfg: Config, address: SocketAddr, start: nat)
    ensures var t := OnAnswer(cfg, NoIpv6(cfg, start), start, A, Some([address]));
      && t.queue == (if cfg.permitted(address) then [address] else [])
      && t.blocked == !cfg.permitted(address) && t.doneA && t.doneAaaa
  {
    FreshAlone(cfg.permitted, address);
  }

  /** A literal target is refused, or dialled until the total deadline with nothing else to try. */
  lemma {:induction false} AloneDials(cfg: Config, address: SocketAddr, start: nat)
    ensures var s := Alone(cfg, address, start);
      && (!cfg.permitted(address) ==> s.outcome == Some(Failed(Blocked)) && s.dialled == [])
      && (cfg.permitted(address) ==>
            && s.outcome.None? && s.active == Some(address) && s.queue == [] && s.doneA && s.doneAaaa
            && s.clock == start && s.attemptDeadline == Max(start, cfg.deadline) && s.dialled == [address])
  {
    var w := Lookups(address, start);
    TwoWakes(cfg, Init(cfg, start), w[0], w[1]);
    FirstLookup(cfg, start);
    SecondLookup(cfg, address, start);
    var t := OnAnswer(cfg, NoIpv6(cfg, start), start, A, Some([address]));
    assert Alone(cfg, address, start) == Top(cfg, t, start);
  }

  /** `dial_one`: the connection attempt under a timeout. */
  method DialOne(cfg: Config, address: SocketAddr, start: nat, schedule: seq<Wake>) returns (outcome: Option<Outcome>)
    requires cfg.permitted(address)
    ensures outcome == Run(cfg, Alone(cfg, address, start), schedule).outcome
    ensures Run(cfg, Alone(cfg, address, start), schedule).dialled == [address]
  {
    AloneDials(cfg, address, start);
    ghost var s := Alone(cfg, address, start);
    outcome := None;
    for i := 0 to |schedule|
      invariant Run(cfg, s, schedule[..i]).outcome == outcome
      invariant Run(cfg, s, schedule[..i]).dialled == [address]
      invariant outcome.None? ==> Run(cfg, s, schedule[..i]) == s
    {
      assert schedule[..i + 1][..i] == schedule[..i];
      if outcome.None? {
        match schedule[i].firing
        case Attempted(None) => outcome := Some(Connected(address));
        case Attempted(Some(error)) => outcome := Some(Failed(Dial(error)));
        case Answer(_, _) =>
        case _ =>
          if Max(start, schedule[i].at) >= cfg.deadline {
            outcome := Some(Failed(Dial(TimedOut)));
          }
      }
    }
    assert schedule[..|schedule|] == schedule;
  }

  // ---- When a search connects ----

  /** Wake-up `i` reports that the attempt on `a` succeeded, in a search that is still undecided. */
  ghost predicate ConnectsAt(cfg: Config, start: nat, schedule: seq<Wake>, i: nat, a: SocketAddr) {
    && i < |schedule| && schedule[i].firing == Attempted(None)
    && var s := Run(cfg, Init(cfg, start), schedule[..i]);
       s.outcome.None? && s.active == Some(a)
  }

  lemma StepConnects(cfg: Config, s: State, w: Wake, a: SocketAddr)
    ensures Step(cfg, s, w).outcome == Some(Connected(a))
      <==> s.outcome == Some(Connected(a))
           || (s.outcome.None? && s.active == Some(a) && w.firing == Attempted(None))
  {
    var now := Max(s.clock, w.at);
    if s.outcome.None? && Enabled(cfg, s, now, w.firing) {
      var m := Select(cfg, s, now, w.firing);
      assert m.outcome == Some(Connected(a)) <==> s.active == Some(a) && w.firing == Attempted(None);
      TopConnectsNobody(cfg, m, Max(now, w.resumed), a);
    }
  }

  lemma TopConnectsNobody(cfg: Config, s: State, now: nat, a: SocketAddr)
    ensures Top(cfg, s, now).outcome == Some(Connected(a)) <==> s.outcome == Some(Connected(a))
  {
  }

  /** A search connects to `a` exactly when a wake-up of its schedule reports the success of the
      attempt on `a`: no success is lost, and nothing else counts as one. */
  lemma {:induction false} ConnectedIff(cfg: Config, start: nat, schedule: seq<Wake>, a: SocketAddr)
    ensures Run(cfg, Init(cfg, start), schedule).outcome == Some(Connected(a))
      <==> exists i :: ConnectsAt(cfg, start, schedule, i, a)
  {
    if schedule != [] {
      var n := |schedule| - 1;
      ConnectedIff(cfg, start, schedule[..n], a);
      forall i: nat | i < n
        ensures ConnectsAt(cfg, start, schedule[..n], i, a) <==> ConnectsAt(cfg, start, schedule, i, a)
      {
        assert schedule[..n][..i] == schedule[..i];
      }
      StepConnects(cfg, Run(cfg, Init(cfg, start), schedule[..n]), schedule[n], a);
      assert Run(cfg, Init(cfg, start), schedule).outcome == Some(Connected(a)) ==>
        ConnectsAt(cfg, start, schedule, n, a) || exists i :: ConnectsAt(cfg, start, schedule[..n], i, a);
    }
  }

  /** The whole of `establish`: a literal target fares like a name that resolves to it at once, and
      the search connects exactly when an attempt succeeds while it is undecided. */
  method Establish(cfg: Config, target: Addressing.Address, start: nat, schedule: seq<Wake>)
    returns (outcome: Option<Outcome>, dialled: seq<SocketAddr>)
    ensures var s := Run(cfg, Init(cfg, start), Answered(target, start) + schedule);
      outcome == s.outcome && dialled == s.dialled
    ensures forall a :: (outcome == Some(Connected(a))
                         <==> exists i :: ConnectsAt(cfg, start, Answered(target, start) + schedule, i, a))
  {
    forall a
      ensures Run(cfg, Init(cfg, start), Answered(target, start) + schedule).outcome == Some(Connected(a))
        <==> exists i :: ConnectsAt(cfg, start, Answered(target, start) + schedule, i, a)
    {
      ConnectedIff(cfg, start, Answered(target, start) + schedule, a);
    }
    var literal := Literal(target);
    if literal.None? {
      assert [] + schedule == schedule;
      outcome, dialled := EstablishNamed(cfg, start, schedule);
    } else {
      RunConcat(cfg, Init(cfg, start), Lookups(literal.value, start), schedule);
      AloneDials(cfg, literal.value, start);
      if !cfg.permitted(literal.value) {
        Settled(cfg, Alone(cfg, literal.value, start), schedule);
        return Some(Failed(Blocked)), [];
      }
      outcome := DialOne(cfg, literal.value, start, schedule);
      dialled := [literal.value];
    }
  }

  /** The lookups that are already answered when the search begins. */
  function Answered(target: Addressing.Address, start: nat): seq<Wake> {
    match Literal(target)
    case None => []
    case Some(address) => Lookups(address, start)
  }

  lemma {:induction false} RunConcat(cfg: Config, s: State, first: seq<Wake>, more: seq<Wake>)
    ensures Run(cfg, s, first + more) == Run(cfg, Run(cfg, s, first), more)
  {
    if more == [] {
      assert first + more == first;
    } else {
      var n := |more| - 1;
      assert (first + more)[..|first| + n] == first + more[..n];
      RunConcat(cfg, s, first, more[..n]);
    }
  }

  lemma {:induction false} Settled(cfg: Config, s: State, schedule: seq<Wake>)
    requires s.outcome.Some?
    ensures Run(cfg, s, schedule) == s
  {
    if schedule != [] {
      Settled(cfg, s, schedule[..|schedule| - 1]);
    }
  }
}
