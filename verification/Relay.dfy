/** The bidirectional relay: two copy loops coupled by one last-activity instant. */
module Relay {
  import opened Wire

  datatype Direction = Up | Down

  datatype End = Eof | Idleness | ReadFailed | WriteFailed | Cancelled

  /** Where `copy_half` is suspended. */
  datatype Phase =
    | Reading(since: nat)
    | Writing(since: nat, data: Bytes)
    | Ended(how: End)

  /** One direction. `source` is all its peer sends before closing, `taken` how much of it was read,
      `delivered` what reached the other side (starting with any pipelined payload) and `counted`
      what the metrics were told. */
  datatype Half = Half(source: Bytes, phase: Phase, taken: nat, delivered: Bytes, counted: nat)

  /** `writes` are the instants of the successful relayed writes. */
  datatype State = State(idle: nat, up: Half, down: Half, lastActivity: nat, clock: nat, writes: seq<nat>)

  /** What resumes a copy loop. A write that fails may have delivered its first `kept` bytes. */
  datatype Wakeup =
    | ReadBytes(n: nat) | ReadEof | ReadError | ReadTimeout
    | WriteDone | WriteError(kept: nat) | WriteTimeout(kept: nat)

  /** One direction wakes up, or the server shuts down and drops both. */
  datatype Event =
    | Wake(at: nat, dir: Direction, what: Wakeup)
    | Shutdown(at: nat, keptUp: nat, keptDown: nat)

  const BUFFER := 65536

  function HalfOf(s: State, dir: Direction): Half {
    if dir == Up then s.up else s.down
  }

  function WithHalf(s: State, dir: Direction, half: Half): State {
    if dir == Up then s.(up := half) else s.(down := half)
  }

  predicate Enabled(idle: nat, h: Half, now: nat, what: Wakeup) {
    match what
    case ReadBytes(n) => h.phase.Reading? && 0 < n <= BUFFER && h.taken + n <= |h.source|
    case ReadEof => h.phase.Reading? && h.taken >= |h.source|
    case ReadError => h.phase.Reading?
    case ReadTimeout => h.phase.Reading? && now >= h.phase.since + idle
    case WriteDone => h.phase.Writing?
    case WriteError(kept) => h.phase.Writing? && kept <= |h.phase.data|
    case WriteTimeout(kept) => h.phase.Writing? && kept <= |h.phase.data| && now >= h.phase.since + idle
  }

  /** Resuming `copy_half` at `now`. */
  function Resume(idle: nat, lastActivity: nat, h: Half, now: nat, what: Wakeup): Half
    requires Enabled(idle, h, now, what)
  {
    match what
    case ReadBytes(n) => h.(phase := Writing(now, h.source[h.taken..h.taken + n]), taken := h.taken + n)
    case ReadEof => h.(phase := Ended(Eof))
    case ReadError => h.(phase := Ended(ReadFailed))
    case ReadTimeout => h.(phase := if lastActivity + idle <= now then Ended(Idleness) else Reading(now))
    case WriteDone =>
      h.(phase := Reading(now), delivered := h.delivered + h.phase.data, counted := h.counted + |h.phase.data|)
    case WriteError(kept) => h.(phase := Ended(WriteFailed), delivered := h.delivered + h.phase.data[..kept])
    case WriteTimeout(kept) => h.(phase := Ended(WriteFailed), delivered := h.delivered + h.phase.data[..kept])
  }

  /** Dropping a copy loop, possibly in the middle of a write. */
  function Drop(h: Half, kept: nat): Half {
    match h.phase
    case Reading(_) => h.(phase := Ended(Cancelled))
    case Writing(_, data) =>
      h.(phase := Ended(Cancelled), delivered := h.delivered + data[..Min(kept, |data|)])
    case Ended(_) => h
  }

  function Step(s: State, e: Event): State {
    var now := Max(s.clock, e.at);
    match e
    case Shutdown(_, keptUp, keptDown) => s.(up := Drop(s.up, keptUp), down := Drop(s.down, keptDown))
    case Wake(_, dir, what) =>
      var h := HalfOf(s, dir);
      if !Enabled(s.idle, h, now, what) then s
      else
        var t := WithHalf(s, dir, Resume(s.idle, s.lastActivity, h, now, what)).(clock := now);
        if what == WriteDone then t.(lastActivity := now, writes := s.writes + [now]) else t
  }

  function Run(s: State, events: seq<Event>): State {
    if events == [] then s else Step(Run(s, events[..|events| - 1]), events[|events| - 1])
  }

  /** After the pipelined payload went upstream: both loops start reading at `start`. */
  function Begin(idle: nat, start: nat, payload: Bytes, client: Bytes, upstream: Bytes): State {
    State(idle, Half(client, Reading(start), 0, payload, |payload|), Half(upstream, Reading(start), 0, [], 0),
          start, start, [])
  }

  predicate Finished(s: State) {
    s.up.phase.Ended? && s.down.phase.Ended?
  }

  // ---- The code: a copy loop resumed by its wakeups ----

  /** The shared `Mutex<Instant>`. */
  class Activity {
    var last: nat

    constructor (now: nat)
      ensures last == now
    {
      last := now;
    }
  }

  class CopyHalf {
    const source: Bytes
    var phase: Phase
    var taken: nat
    var delivered: Bytes
    var counted: nat

    constructor (source: Bytes, start: nat, payload: Bytes)
      ensures View() == Half(source, Reading(start), 0, payload, |payload|)
    {
      this.source, phase, taken, delivered, counted := source, Reading(start), 0, payload, |payload|;
    }

    ghost function View(): Half
      reads this
    {
      Half(source, phase, taken, delivered, counted)
    }

    /** The body of the loop from where it was suspended to the next `await`. */
    method Poll(idle: nat, shared: Activity, now: nat, what: Wakeup)
      requires Enabled(idle, View(), now, what)
      modifies this, shared
      ensures View() == Resume(idle, old(shared.last), old(View()), now, what)
      ensures shared.last == if what == WriteDone then now else old(shared.last)
    {
      match what
      case ReadBytes(n) =>
        phase := Writing(now, source[taken..taken + n]);
        taken := taken + n;
      case ReadEof =>
        phase := Ended(Eof);
      case ReadError =>
        phase := Ended(ReadFailed);
      case ReadTimeout =>
        phase := if shared.last + idle <= now then Ended(Idleness) else Reading(now);
      case WriteDone =>
        delivered := delivered + phase.data;
        shared.last := now;
        counted := counted + |phase.data|;
        phase := Reading(now);
      case WriteError(kept) =>
        delivered := delivered + phase.data[..kept];
        phase := Ended(WriteFailed);
      case WriteTimeout(kept) =>
        delivered := delivered + phase.data[..kept];
        phase := Ended(WriteFailed);
    }
  }

  /** `copy_bidirectional_counted` under any interleaving of wakeups (no shutdown). */
  method CopyBidirectional(idle: nat, start: nat, payload: Bytes, client: Bytes, upstream: Bytes,
                           events: seq<Event>)
    returns (sentUp: Bytes, sentDown: Bytes, done: bool)
    requires forall e :: e in events ==> e.Wake?
    ensures var t := Run(Begin(idle, start, payload, client, upstream), events);
      sentUp == t.up.delivered && sentDown == t.down.delivered && done == Finished(t)
  {
    var shared := new Activity(start);
    var up := new CopyHalf(client, start, payload);
    var down := new CopyHalf(upstream, start, []);
    var clock := start;
    ghost var s := Begin(idle, start, payload, client, upstream);
    for i := 0 to |events|
      invariant s == Run(Begin(idle, start, payload, client, upstream), events[..i])
      invariant s.up == up.View() && s.down == down.View() && s.idle == idle
      invariant s.lastActivity == shared.last && s.clock == clock
    {
      var e := events[i];
      assert e in events && events[..i + 1][..i] == events[..i];
      s := Step(s, e);
      var now := Max(clock, e.at);
      var half := if e.dir == Up then up else down;
      if IsEnabled(idle, half, now, e.what) {
        half.Poll(idle, shared, now, e.what);
        clock := now;
      }
    }
    assert events[..|events|] == events;
    return up.delivered, down.delivered, up.phase.Ended? && down.phase.Ended?;
  }

  predicate IsEnabled(idle: nat, half: CopyHalf, now: nat, what: Wakeup)
    reads half
    ensures IsEnabled(idle, half, now, what) == Enabled(idle, half.View(), now, what)
  {
    Enabled(idle, Half(half.source, half.phase, half.taken, half.delivered, half.counted), now, what)
  }

  // ---- Conservation ----

  /** `lead` is what the direction sends before its source: the pipelined payload. */
  ghost predicate Conserves(h: Half, lead: Bytes) {
    && h.taken <= |h.source|
    && match h.phase
       case Reading(_) => h.delivered == lead + h.source[..h.taken] && h.counted == |h.delivered|
       case Writing(_, data) => h.delivered + data == lead + h.source[..h.taken] && h.counted == |h.delivered|
       case Ended(how) =>
         && h.delivered <= lead + h.source && h.counted <= |h.delivered|
         && (how == Eof ==> h.delivered == lead + h.source && h.counted == |h.delivered|)
  }

  lemma ConservesPrefix(h: Half, lead: Bytes)
    requires Conserves(h, lead)
    ensures h.delivered <= lead + h.source && h.counted <= |h.delivered|
  {
    var all := lead + h.source;
    assert lead + h.source[..h.taken] == all[..|lead| + h.taken];
  }

  lemma ResumeConserves(idle: nat, lastActivity: nat, h: Half, now: nat, what: Wakeup, lead: Bytes)
    requires Conserves(h, lead) && Enabled(idle, h, now, what)
    ensures Conserves(Resume(idle, lastActivity, h, now, what), lead)
  {
    ConservesPrefix(h, lead);
    match what
    case ReadBytes(n) =>
      assert h.source[..h.taken + n] == h.source[..h.taken] + h.source[h.taken..h.taken + n];
    case ReadEof =>
      assert h.source[..h.taken] == h.source;
    case WriteError(kept) =>
      PartialWrite(h, lead, kept);
    case WriteTimeout(kept) =>
      PartialWrite(h, lead, kept);
    case _ =>
  }

  lemma PartialWrite(h: Half, lead: Bytes, kept: nat)
    requires Conserves(h, lead) && h.phase.Writing? && kept <= |h.phase.data|
    ensures h.delivered + h.phase.data[..kept] <= lead + h.source
  {
    var all := lead + h.source;
    var sofar := lead + h.source[..h.taken];
    assert sofar == all[..|sofar|];
    assert h.delivered + h.phase.data[..kept] == sofar[..|h.delivered| + kept];
  }

  lemma StepConserves(s: State, e: Event, lead: Bytes)
    requires Conserves(s.up, lead) && Conserves(s.down, [])
    ensures Conserves(Step(s, e).up, lead) && Conserves(Step(s, e).down, [])
    ensures Step(s, e).up.source == s.up.source && Step(s, e).down.source == s.down.source
  {
    var now := Max(s.clock, e.at);
    match e
    case Wake(_, dir, what) =>
      var h := HalfOf(s, dir);
      if Enabled(s.idle, h, now, what) {
        ResumeConserves(s.idle, s.lastActivity, h, now, what, if dir == Up then lead else []);
      }
    case Shutdown(_, keptUp, keptDown) =>
      DropConserves(s.up, lead, keptUp);
      DropConserves(s.down, [], keptDown);
  }

  lemma DropConserves(h: Half, lead: Bytes, kept: nat)
    requires Conserves(h, lead)
    ensures Conserves(Drop(h, kept), lead)
  {
    ConservesPrefix(h, lead);
    if h.phase.Writing? {
      PartialWrite(h, lead, Min(kept, |h.phase.data|));
    }
  }

  /** However and whenever the relay ends, each side has received a prefix of what the other sent
      (upstream: the pipelined payload first), the counters never run ahead, and a direction that
      ends by end of file has delivered and counted everything. */
  lemma {:induction false} BytesAreConserved(idle: nat, start: nat, payload: Bytes, client: Bytes, upstream: Bytes,
                                             events: seq<Event>)
    ensures var t := Run(Begin(idle, start, payload, client, upstream), events);
      && Conserves(t.up, payload) && Conserves(t.down, [])
      && t.up.source == client && t.down.source == upstream
      && t.up.delivered <= payload + client && t.up.counted <= |t.up.delivered|
      && t.down.delivered <= upstream && t.down.counted <= |t.down.delivered|
      && (t.up.phase == Ended(Eof) ==> t.up.delivered == payload + client && t.up.counted == |t.up.delivered|)
      && (t.down.phase == Ended(Eof) ==> t.down.delivered == upstream && t.down.counted == |t.down.delivered|)
  {
    var s := Begin(idle, start, payload, client, upstream);
    if events == [] {
      assert client[..0] == [] && upstream[..0] == [];
    } else {
      var n := |events| - 1;
      BytesAreConserved(idle, start, payload, client, upstream, events[..n]);
      StepConserves(Run(s, events[..n]), events[n], payload);
    }
    var t := Run(s, events);
    ConservesPrefix(t.up, payload);
    ConservesPrefix(t.down, []);
    assert [] + upstream == upstream;
  }

  // ---- Idleness ----

  /** A direction is torn down for idleness only if no relayed write succeeded, in either direction,
      during the whole idle window before, and its own read waited that long; a write is given up
      only when it has taken the whole idle time. */
  lemma {:induction false} IdleTeardownIsCoupled(idle: nat, start: nat, payload: Bytes, client: Bytes, upstream: Bytes,
                                                 events: seq<Event>, e: Event, dir: Direction)
    ensures var s := Run(Begin(idle, start, payload, client, upstream), events);
      var t := Step(s, e);
      var phase := HalfOf(s, dir).phase;
      && (phase != Ended(Idleness) && HalfOf(t, dir).phase == Ended(Idleness) ==>
            && start + idle <= t.clock && (forall w :: w in s.writes ==> w + idle <= t.clock)
            && phase.Reading? && phase.since + idle <= t.clock)
      && (e.Wake? && e.dir == dir && e.what.WriteTimeout? && t != s ==>
            phase.Writing? && phase.since + idle <= t.clock)
  {
    ActivityIsLatest(idle, start, payload, client, upstream, events);
  }

  lemma {:induction false} ActivityIsLatest(idle: nat, start: nat, payload: Bytes, client: Bytes, upstream: Bytes,
                                            events: seq<Event>)
    ensures var s := Run(Begin(idle, start, payload, client, upstream), events);
      && s.idle == idle && start <= s.lastActivity <= s.clock
      && (forall w :: w in s.writes ==> w <= s.lastActivity)
  {
    if events != [] {
      ActivityIsLatest(idle, start, payload, client, upstream, events[..|events| - 1]);
    }
  }

  /** No suspended loop has waited past its timeout at `now`. */
  predicate OnTime(s: State, now: nat) {
    && (s.up.phase.Ended? || now <= s.up.phase.since + s.idle)
    && (s.down.phase.Ended? || now <= s.down.phase.since + s.idle)
  }

  /** Idealised timers: no suspended loop is resumed after its timeout. */
  predicate Punctual(s: State, e: Event) {
    OnTime(s, e.at)
  }

  predicate PunctualRun(s: State, events: seq<Event>) {
    events != [] ==>
      var n := |events| - 1;
      PunctualRun(s, events[..n]) && Punctual(Run(s, events[..n]), events[n])
  }

  /** A loop that waits began to, and will time out, soon after the last activity. */
  ghost predicate Prompt(s: State, h: Half) {
    match h.phase
    case Reading(since) => since <= s.clock <= since + s.idle && since < s.lastActivity + s.idle
    case Writing(since, _) => since <= s.clock <= since + s.idle && since < s.lastActivity + 2 * s.idle
    case Ended(_) => true
  }

  ghost predicate Timely(s: State) {
    && s.idle > 0 && s.lastActivity <= s.clock < s.lastActivity + 3 * s.idle
    && Prompt(s, s.up) && Prompt(s, s.down)
  }

  lemma ResumeIsPrompt(s: State, h: Half, now: nat, what: Wakeup)
    requires s.idle > 0 && Prompt(s, h) && s.lastActivity <= s.clock <= now
    requires Enabled(s.idle, h, now, what) && now <= h.phase.since + s.idle
    ensures now < s.lastActivity + 3 * s.idle
    ensures var last := if what == WriteDone then now else s.lastActivity;
      Prompt(s.(clock := now, lastActivity := last), Resume(s.idle, s.lastActivity, h, now, what))
  {
  }

  lemma StepIsTimely(s: State, e: Event)
    requires Timely(s) && Punctual(s, e)
    ensures Timely(Step(s, e))
  {
    if e.Wake? {
      var h, now := HalfOf(s, e.dir), Max(s.clock, e.at);
      if Enabled(s.idle, h, now, e.what) {
        ResumeIsPrompt(s, h, now, e.what);
      }
    }
  }

  lemma {:induction false} RunIsTimely(idle: nat, start: nat, payload: Bytes, client: Bytes, upstream: Bytes,
                                       events: seq<Event>)
    requires idle > 0 && PunctualRun(Begin(idle, start, payload, client, upstream), events)
    ensures var t := Run(Begin(idle, start, payload, client, upstream), events);
      Timely(t) && t.idle == idle
  {
    ActivityIsLatest(idle, start, payload, client, upstream, events);
    if events != [] {
      var n := |events| - 1;
      RunIsTimely(idle, start, payload, client, upstream, events[..n]);
      StepIsTimely(Run(Begin(idle, start, payload, client, upstream), events[..n]), events[n]);
    }
  }

  lemma {:induction false} RunExtends(s: State, events: seq<Event>, e: Event)
    requires PunctualRun(s, events) && Punctual(Run(s, events), e)
    ensures PunctualRun(s, events + [e]) && Run(s, events + [e]) == Step(Run(s, events), e)
  {
    assert (events + [e])[..|events|] == events;
  }

  // ---- The relay ends ----

  /** How often a loop can still be resumed before something is written. */
  function Rank(s: State, h: Half): nat {
    match h.phase
    case Ended(_) => 0
    case Writing(_, _) => 1
    case Reading(since) => if s.lastActivity <= since then 2 else 3
  }

  function Ranks(s: State): nat {
    Rank(s, s.up) + Rank(s, s.down)
  }

  /** Every wake-up that takes effect, other than a successful write, uses up rank; a successful
      write gives back at most two. */
  lemma WakeLowersRank(s: State, e: Event)
    requires s.lastActivity <= s.clock && e.Wake? && Step(s, e) != s
    ensures e.what != WriteDone ==> Ranks(Step(s, e)) < Ranks(s) && Step(s, e).lastActivity == s.lastActivity
    ensures e.what == WriteDone ==> Ranks(Step(s, e)) <= Ranks(s) + 2 && |Step(s, e).writes| == |s.writes| + 1
  {
  }

  /** The wake-ups of a run that take effect. */
  function Wakeups(s: State, events: seq<Event>): nat {
    if events == [] then 0
    else
      var n := |events| - 1;
      var t := Run(s, events[..n]);
      Wakeups(s, events[..n]) + if events[n].Wake? && Step(t, events[n]) != t then 1 else 0
  }

  function Busy(h: Half): nat {
    if h.phase.Writing? then 1 else 0
  }

  /** Every successful write carries at least one byte read. */
  ghost predicate WritesAreFed(s: State) {
    && |s.writes| + Busy(s.up) + Busy(s.down) <= s.up.taken + s.down.taken
    && s.up.taken <= |s.up.source| && s.down.taken <= |s.down.source|
  }

  lemma StepFeedsWrites(s: State, e: Event)
    requires WritesAreFed(s)
    ensures WritesAreFed(Step(s, e))
    ensures Step(s, e).up.source == s.up.source && Step(s, e).down.source == s.down.source
  {
  }

  /** No run goes on for ever, punctual or not: four wake-ups, three more for each successful
      write, and no more successful writes than bytes to relay. */
  lemma {:induction false} WakeupsAreBounded(idle: nat, start: nat, payload: Bytes, client: Bytes, upstream: Bytes,
                                             events: seq<Event>)
    ensures var s := Begin(idle, start, payload, client, upstream);
      var t := Run(s, events);
      && Wakeups(s, events) + Ranks(t) <= 4 + 3 * |t.writes|
      && |t.writes| <= |client| + |upstream|
      && WritesAreFed(t) && t.up.source == client && t.down.source == upstream
  {
    if events != [] {
      var n := |events| - 1;
      WakeupsAreBounded(idle, start, payload, client, upstream, events[..n]);
      ActivityIsLatest(idle, start, payload, client, upstream, events[..n]);
      var t := Run(Begin(idle, start, payload, client, upstream), events[..n]);
      StepFeedsWrites(t, events[n]);
      if events[n].Wake? && Step(t, events[n]) != t {
        WakeLowersRank(t, events[n]);
      }
    }
  }

  /** The timer that is due first. */
  function DueFirst(s: State): Event
    requires !Finished(s)
  {
    var dir := if s.up.phase.Ended? then Down
               else if s.down.phase.Ended? || s.up.phase.since <= s.down.phase.since then Up
               else Down;
    var phase := HalfOf(s, dir).phase;
    Wake(phase.since + s.idle, dir, if phase.Reading? then ReadTimeout else WriteTimeout(0))
  }

  /** An unfinished relay always has a timer that is due in time, fires, and uses up rank. */
  lemma DueFirstFires(s: State)
    requires Timely(s) && !Finished(s)
    ensures var e := DueFirst(s);
      var t := Step(s, e);
      Punctual(s, e) && t != s && Ranks(t) < Ranks(s) && t.lastActivity == s.lastActivity
      && Timely(t) && t.idle == s.idle
  {
    StepIsTimely(s, DueFirst(s));
    WakeLowersRank(s, DueFirst(s));
  }

  predicate TimersOnly(events: seq<Event>) {
    forall e :: e in events ==> e.Wake? && (e.what == ReadTimeout || e.what == WriteTimeout(0))
  }

  lemma {:induction false} TimersOnlyExtend(e: Event, rest: seq<Event>)
    requires TimersOnly([e]) && TimersOnly(rest)
    ensures TimersOnly([e] + rest)
  {
    assert e in [e];
  }

  /** From a timely state the timers alone end the relay, still timely. */
  ghost predicate Winds(s: State, more: seq<Event>) {
    && TimersOnly(more) && PunctualRun(s, more)
    && Finished(Run(s, more)) && Timely(Run(s, more))
    && Run(s, more).lastActivity == s.lastActivity && Run(s, more).idle == s.idle
  }

  lemma {:induction false} RunConcat(s: State, events: seq<Event>, more: seq<Event>)
    requires PunctualRun(s, events) && PunctualRun(Run(s, events), more)
    ensures Run(s, events + more) == Run(Run(s, events), more) && PunctualRun(s, events + more)
  {
    if more == [] {
      assert events + more == events;
    } else {
      var n := |more| - 1;
      RunConcat(s, events, more[..n]);
      assert events + more == (events + more[..n]) + [more[n]];
      RunExtends(s, events + more[..n], more[n]);
    }
  }

  lemma {:induction false} TimersEndRelay(s: State) returns (more: seq<Event>)
    requires Timely(s)
    ensures Winds(s, more) && |more| <= Ranks(s)
    decreases Ranks(s)
  {
    more := [];
    if !Finished(s) {
      var e := DueFirst(s);
      DueFirstFires(s);
      var rest := TimersEndRelay(Step(s, e));
      RunExtends(s, [], e);
      assert [] + [e] == [e];
      RunConcat(s, [e], rest);
      TimersOnlyExtend(e, rest);
      more := [e] + rest;
    }
  }

  /** For a positive idle time and punctual timers, after any run: the last successful write is
      less than three idle times ago, and no unfinished relay can be seen three idle times after
      it; unless the relay is finished a timer can fire; and if nothing else happens, at most six
      timers end both directions, still less than three idle times after that write. */
  lemma {:induction false} RelayEndsInTime(idle: nat, start: nat, payload: Bytes, client: Bytes, upstream: Bytes,
                                           events: seq<Event>)
    returns (more: seq<Event>)
    requires idle > 0 && PunctualRun(Begin(idle, start, payload, client, upstream), events)
    ensures var s := Begin(idle, start, payload, client, upstream);
      var t := Run(s, events);
      var u := Run(s, events + more);
      && t.clock < t.lastActivity + 3 * idle
      && (forall now :: OnTime(t, now) && t.lastActivity + 3 * idle <= now ==> Finished(t))
      && (!Finished(t) ==> Punctual(t, DueFirst(t)) && Step(t, DueFirst(t)) != t)
      && TimersOnly(more) && |more| <= 6
      && PunctualRun(s, events + more) && Finished(u)
      && u.lastActivity == t.lastActivity && u.clock < u.lastActivity + 3 * idle
  {
    var s := Begin(idle, start, payload, client, upstream);
    var t := Run(s, events);
    RunIsTimely(idle, start, payload, client, upstream, events);
    if !Finished(t) {
      DueFirstFires(t);
    }
    more := TimersEndRelay(t);
    RunConcat(s, events, more);
  }

  // ---- The bound is tight ----

  lemma {:induction false} TwoEvents(s: State, first: Event, second: Event)
    requires Punctual(s, first) && Punctual(Step(s, first), second)
    ensures PunctualRun(s, [first, second]) && Run(s, [first, second]) == Step(Step(s, first), second)
  {
    RunExtends(s, [], first);
    assert [] + [first] == [first];
    RunExtends(s, [first], second);
    assert [first] + [second] == [first, second];
  }

  /** A write, then a read that times out just too early to be stale. */
  function Stretched(idle: nat, start: nat): seq<Event> {
    [Wake(start + 1, Up, ReadBytes(1)), Wake(start + 1, Up, WriteDone)]
    + [Wake(start + idle, Down, ReadTimeout), Wake(start + 1 + idle, Up, ReadTimeout)]
  }

  /** After the write. */
  function Wrote(idle: nat, start: nat, byte: Byte): State {
    State(idle, Half([byte], Reading(start + 1), 1, [byte], 1), Half([byte], Reading(start), 0, [], 0),
          start + 1, start + 1, [start + 1])
  }

  lemma {:induction false} Writes(idle: nat, start: nat, byte: Byte)
    requires idle > 0
    ensures var s := Begin(idle, start, [], [byte], [byte]);
      var events := [Wake(start + 1, Up, ReadBytes(1)), Wake(start + 1, Up, WriteDone)];
      PunctualRun(s, events) && Run(s, events) == Wrote(idle, start, byte)
  {
    var s := Begin(idle, start, [], [byte], [byte]);
    var t := Step(s, Wake(start + 1, Up, ReadBytes(1)));
    assert [byte][0..1] == [byte];
    assert t == s.(up := Half([byte], Writing(start + 1, [byte]), 1, [], 0), clock := start + 1);
    assert [] + [byte] == [byte];
    TwoEvents(s, Wake(start + 1, Up, ReadBytes(1)), Wake(start + 1, Up, WriteDone));
  }

  lemma {:induction false} Lingers(idle: nat, start: nat, byte: Byte)
    requires idle > 0
    ensures var s := Wrote(idle, start, byte);
      var events := [Wake(start + idle, Down, ReadTimeout), Wake(start + 1 + idle, Up, ReadTimeout)];
      && PunctualRun(s, events)
      && Run(s, events) == s.(up := s.up.(phase := Ended(Idleness)), down := s.down.(phase := Reading(start + idle)),
                              clock := start + 1 + idle)
  {
    var s := Wrote(idle, start, byte);
    var e, f := Wake(start + idle, Down, ReadTimeout), Wake(start + 1 + idle, Up, ReadTimeout);
    assert Step(s, e) == s.(down := s.down.(phase := Reading(start + idle)), clock := start + idle);
    TwoEvents(s, e, f);
  }

  lemma {:induction false} StretchedRun(idle: nat, start: nat, byte: Byte)
    requires idle > 0
    ensures var s := Begin(idle, start, [], [byte], [byte]);
      var t := Run(s, Stretched(idle, start));
      && PunctualRun(s, Stretched(idle, start))
      && t.idle == idle && t.lastActivity == start + 1 && t.clock == start + 1 + idle
      && t.up.phase == Ended(Idleness) && t.down == Half([byte], Reading(start + idle), 0, [], 0)
  {
    var e, f := Wake(start + idle, Down, ReadTimeout), Wake(start + 1 + idle, Up, ReadTimeout);
    Writes(idle, start, byte);
    Lingers(idle, start, byte);
    RunConcat(Begin(idle, start, [], [byte], [byte]),
              [Wake(start + 1, Up, ReadBytes(1)), Wake(start + 1, Up, WriteDone)], [e, f]);
  }

  /** Then bytes at the last moment, whose write never completes. */
  function Slowest(idle: nat, start: nat): seq<Event> {
    Stretched(idle, start)
    + [Wake(start + 2 * idle, Down, ReadBytes(1))] + [Wake(start + 3 * idle, Down, WriteTimeout(0))]
  }

  /** The bound cannot be lowered: for every positive idle time a punctual relay ends exactly one
      nanosecond below it. */
  lemma {:induction false} BoundIsTight(idle: nat, start: nat, byte: Byte)
    requires idle > 0
    ensures var s := Begin(idle, start, [], [byte], [byte]);
      var t := Run(s, Slowest(idle, start));
      PunctualRun(s, Slowest(idle, start)) && Finished(t) && t.clock == t.lastActivity + 3 * idle - 1
  {
    var s := Begin(idle, start, [], [byte], [byte]);
    var events := Stretched(idle, start);
    StretchedRun(idle, start, byte);
    RunExtends(s, events, Wake(start + 2 * idle, Down, ReadBytes(1)));
    events := events + [Wake(start + 2 * idle, Down, ReadBytes(1))];
    RunExtends(s, events, Wake(start + 3 * idle, Down, WriteTimeout(0)));
  }
}
