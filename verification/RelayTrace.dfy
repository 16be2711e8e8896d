/** What the relay owes to its events: bytes read are written on, and a direction ends for a reason. */
module RelayTrace {
  import opened Wire
  import opened Relay

  function At(s: State, e: Event): nat {
    Max(s.clock, e.at)
  }

  /** The event wakes this direction, which is suspended in a read or in a write. */
  predicate WakesRead(s: State, e: Event, dir: Direction) {
    e.Wake? && e.dir == dir && HalfOf(s, dir).phase.Reading?
  }

  predicate WakesWrite(s: State, e: Event, dir: Direction) {
    e.Wake? && e.dir == dir && HalfOf(s, dir).phase.Writing?
  }

  /** The event ends direction `dir` for the reason `how`: end of file when all is read, a failing read, a
      failing or overdue write, a shutdown; idleness only when the read timed out and no write succeeded
      in either direction for the idle time. */
  predicate EndsBy(s: State, start: nat, e: Event, dir: Direction, how: End) {
    var h, now := HalfOf(s, dir), At(s, e);
    match how
    case Cancelled => e.Shutdown? && !h.phase.Ended?
    case Eof => WakesRead(s, e, dir) && e.what == ReadEof && h.taken >= |h.source|
    case ReadFailed => WakesRead(s, e, dir) && e.what == ReadError
    case Idleness =>
      && WakesRead(s, e, dir) && e.what == ReadTimeout && h.phase.since + s.idle <= now
      && start + s.idle <= now && forall w :: w in s.writes ==> w + s.idle <= now
    case WriteFailed =>
      && WakesWrite(s, e, dir)
      && ((e.what.WriteError? && e.what.kept <= |h.phase.data|)
          || (e.what.WriteTimeout? && e.what.kept <= |h.phase.data| && h.phase.since + s.idle <= now))
  }

  ghost predicate EndedAt(s: State, events: seq<Event>, i: nat, dir: Direction, how: End) {
    i < |events| && EndsBy(Run(s, events[..i]), s.clock, events[i], dir, how)
  }

  /** The last activity is the last successful write, or the start. */
  predicate LastActive(s: State, start: nat) {
    && s.lastActivity == (if s.writes == [] then start else s.writes[|s.writes| - 1])
    && start <= s.lastActivity <= s.clock && forall w :: w in s.writes ==> w <= s.lastActivity
  }

  lemma StepLastActive(s: State, start: nat, e: Event)
    requires LastActive(s, start)
    ensures LastActive(Step(s, e), start)
  {
  }

  lemma {:induction false} RunLastActive(s: State, start: nat, events: seq<Event>)
    requires LastActive(s, start)
    ensures LastActive(Run(s, events), start)
  {
    if events != [] {
      RunLastActive(s, start, events[..|events| - 1]);
      StepLastActive(Run(s, events[..|events| - 1]), start, events[|events| - 1]);
    }
  }

  lemma StepEnds(s: State, start: nat, e: Event, dir: Direction, how: End)
    requires LastActive(s, start)
    ensures HalfOf(Step(s, e), dir).phase == Ended(how)
      <==> HalfOf(s, dir).phase == Ended(how) || EndsBy(s, start, e, dir, how)
  {
    assert s.writes != [] ==> s.lastActivity in s.writes;
  }

  lemma EndedEarlier(s: State, events: seq<Event>, n: nat, dir: Direction, how: End)
    requires n + 1 == |events|
    ensures (exists i: nat :: EndedAt(s, events, i, dir, how))
      <==> (exists i: nat :: EndedAt(s, events[..n], i, dir, how)) || EndedAt(s, events, n, dir, how)
  {
    forall i: nat | i < n ensures EndedAt(s, events[..n], i, dir, how) <==> EndedAt(s, events, i, dir, how) {
      assert events[..n][..i] == events[..i];
    }
  }

  lemma {:induction false} EndsIff(s: State, events: seq<Event>, dir: Direction, how: End)
    requires LastActive(s, s.clock) && !HalfOf(s, dir).phase.Ended?
    ensures HalfOf(Run(s, events), dir).phase == Ended(how) <==> exists i: nat :: EndedAt(s, events, i, dir, how)
  {
    if events != [] {
      var n := |events| - 1;
      EndsIff(s, events[..n], dir, how);
      EndedEarlier(s, events, n, dir, how);
      RunLastActive(s, s.clock, events[..n]);
      StepEnds(Run(s, events[..n]), s.clock, events[n], dir, how);
    }
  }

  /** A direction has ended in a way exactly when some event of the run ended it that way. */
  lemma {:induction false} EndsForAReason(idle: nat, start: nat, payload: Bytes, client: Bytes, upstream: Bytes,
                                          events: seq<Event>, dir: Direction, how: End)
    ensures var s := Begin(idle, start, payload, client, upstream);
      HalfOf(Run(s, events), dir).phase == Ended(how) <==> exists i: nat :: EndedAt(s, events, i, dir, how)
  {
    EndsIff(Begin(idle, start, payload, client, upstream), events, dir, how);
  }

  // ---- Bytes ----

  /** How many bytes a read at this event takes from the source. */
  function ReadAt(s: State, e: Event, dir: Direction): nat {
    var h := HalfOf(s, dir);
    if WakesRead(s, e, dir) && e.what.ReadBytes? && 0 < e.what.n <= BUFFER && h.taken + e.what.n <= |h.source|
    then e.what.n
    else 0
  }

  /** Over a run. */
  function ReadIn(s: State, events: seq<Event>, dir: Direction): nat {
    if events == [] then 0
    else
      var n := |events| - 1;
      ReadIn(s, events[..n], dir) + ReadAt(Run(s, events[..n]), events[n], dir)
  }

  function InFlight(h: Half): Bytes {
    if h.phase.Writing? then h.phase.data else []
  }

  lemma StepReads(s: State, e: Event, dir: Direction)
    ensures HalfOf(Step(s, e), dir).taken == HalfOf(s, dir).taken + ReadAt(s, e, dir)
    ensures HalfOf(Step(s, e), dir).source == HalfOf(s, dir).source
  {
  }

  lemma {:induction false} TakenIsRead(s: State, events: seq<Event>, dir: Direction)
    ensures HalfOf(Run(s, events), dir).taken == HalfOf(s, dir).taken + ReadIn(s, events, dir)
    ensures HalfOf(Run(s, events), dir).source == HalfOf(s, dir).source
  {
    if events != [] {
      var n := |events| - 1;
      TakenIsRead(s, events[..n], dir);
      StepReads(Run(s, events[..n]), events[n], dir);
    }
  }

  /** Unless an event of the run ended the direction, what it delivered and what it is writing are together
      the pipelined payload and all that was read, and every delivered byte is counted. */
  lemma {:induction false} NothingIsHeldBack(idle: nat, start: nat, payload: Bytes, client: Bytes, upstream: Bytes,
                                             events: seq<Event>, dir: Direction)
    ensures var s := Begin(idle, start, payload, client, upstream);
      var h := HalfOf(Run(s, events), dir);
      var lead, source := if dir == Up then payload else [], if dir == Up then client else upstream;
      var n := ReadIn(s, events, dir);
      n <= |source|
      && ((forall how, i: nat :: !EndedAt(s, events, i, dir, how)) ==>
            && !h.phase.Ended? && h.delivered + InFlight(h) == lead + source[..n] && h.counted == |h.delivered|
            && (h.phase.Writing? ==> InFlight(h) != []))
  {
    var s := Begin(idle, start, payload, client, upstream);
    var h := HalfOf(Run(s, events), dir);
    BytesAreConserved(idle, start, payload, client, upstream, events);
    TakenIsRead(s, events, dir);
    WritesCarryBytes(s, events, dir);
    if h.phase.Ended? {
      EndsForAReason(idle, start, payload, client, upstream, events, dir, h.phase.how);
    }
  }

  lemma {:induction false} WritesCarryBytes(s: State, events: seq<Event>, dir: Direction)
    requires InFlight(HalfOf(s, dir)) != [] || !HalfOf(s, dir).phase.Writing?
    ensures InFlight(HalfOf(Run(s, events), dir)) != [] || !HalfOf(Run(s, events), dir).phase.Writing?
  {
    if events != [] {
      WritesCarryBytes(s, events[..|events| - 1], dir);
    }
  }

  /** How much of a write in progress still arrives when this event cuts it off. */
  function StillSent(e: Event, dir: Direction): nat {
    match e
    case Shutdown(_, keptUp, keptDown) => if dir == Up then keptUp else keptDown
    case Wake(_, _, WriteError(kept)) => kept
    case Wake(_, _, WriteTimeout(kept)) => kept
    case _ => 0
  }

  lemma StepEndsWith(s: State, e: Event, dir: Direction)
    ensures var h, t := HalfOf(s, dir), HalfOf(Step(s, e), dir);
      && (h.phase.Ended? ==> t == h)
      && (!h.phase.Ended? && t.phase.Ended? ==>
            && t.delivered == h.delivered + InFlight(h)[..Min(StillSent(e, dir), |InFlight(h)|)]
            && t.counted == h.counted && t.taken == h.taken)
  {
  }

  lemma {:induction false} EndedStays(s: State, events: seq<Event>, dir: Direction)
    requires HalfOf(s, dir).phase.Ended?
    ensures HalfOf(Run(s, events), dir) == HalfOf(s, dir)
  {
    if events != [] {
      var n := |events| - 1;
      EndedStays(s, events[..n], dir);
      StepEndsWith(Run(s, events[..n]), events[n], dir);
    }
  }

  /** The event that ends a direction settles it, whatever comes later: what it had delivered, the part of
      a cut-off write that still arrived, and the counters as they were. */
  lemma {:induction false} EndIsFinal(s: State, e: Event, more: seq<Event>, dir: Direction)
    requires !HalfOf(s, dir).phase.Ended? && HalfOf(Step(s, e), dir).phase.Ended?
    ensures var h, t := HalfOf(s, dir), HalfOf(Run(Step(s, e), more), dir);
      && t.phase == HalfOf(Step(s, e), dir).phase
      && t.delivered == h.delivered + InFlight(h)[..Min(StillSent(e, dir), |InFlight(h)|)]
      && t.counted == h.counted && t.taken == h.taken
  {
    StepEndsWith(s, e, dir);
    EndedStays(Step(s, e), more, dir);
  }

  lemma StepDelivers(s: State, e: Event, dir: Direction)
    ensures HalfOf(s, dir).delivered <= HalfOf(Step(s, e), dir).delivered
  {
  }

  /** What was delivered stays delivered. */
  lemma {:induction false} DeliveredGrows(s: State, events: seq<Event>, dir: Direction)
    ensures HalfOf(s, dir).delivered <= HalfOf(Run(s, events), dir).delivered
  {
    if events != [] {
      var n := |events| - 1;
      DeliveredGrows(s, events[..n], dir);
      StepDelivers(Run(s, events[..n]), events[n], dir);
    }
  }

  /** Only the other direction is woken. */
  predicate Elsewhere(events: seq<Event>, dir: Direction) {
    forall e :: e in events ==> e.Wake? && e.dir != dir
  }

  lemma {:induction false} ElsewhereKeeps(s: State, events: seq<Event>, dir: Direction)
    requires Elsewhere(events, dir)
    ensures HalfOf(Run(s, events), dir) == HalfOf(s, dir)
  {
    if events != [] {
      var n := |events| - 1;
      assert events[n] in events;
      ElsewhereKeeps(s, events[..n], dir);
    }
  }

  lemma {:induction false} RunsOn(s: State, first: Event, middle: seq<Event>, last: Event)
    ensures Run(s, [first] + middle + [last]) == Step(Run(Step(s, first), middle), last)
  {
    var events := [first] + middle + [last];
    assert events[..|events| - 1] == [first] + middle;
    RunFront(s, first, middle);
  }

  lemma {:induction false} RunFront(s: State, first: Event, more: seq<Event>)
    ensures Run(s, [first] + more) == Run(Step(s, first), more)
  {
    if more == [] {
      assert [first] + more == [first] && [first][..0] == [];
      assert Run(s, [first]) == Step(Run(s, []), first);
    } else {
      var n := |more| - 1;
      assert ([first] + more)[..n + 1] == [first] + more[..n];
      RunFront(s, first, more[..n]);
    }
  }

  /** Whatever the other direction does in between: bytes read by a waiting direction are written on, all
      of them and only they, then counted, then it waits for more. */
  lemma {:induction false} WhatIsReadIsWritten(s: State, dir: Direction, n: nat, at: nat, middle: seq<Event>, done: nat)
    requires HalfOf(s, dir).phase.Reading? && 0 < n <= BUFFER && HalfOf(s, dir).taken + n <= |HalfOf(s, dir).source|
    requires Elsewhere(middle, dir)
    ensures var h := HalfOf(s, dir);
      var t := Run(s, [Wake(at, dir, ReadBytes(n))] + middle + [Wake(done, dir, WriteDone)]);
      var h' := HalfOf(t, dir);
      && h'.delivered == h.delivered + h.source[h.taken..h.taken + n]
      && h'.counted == h.counted + n && h'.taken == h.taken + n
      && h'.phase == Reading(t.clock) && t.lastActivity == t.clock && t.writes != []
      && t.writes[|t.writes| - 1] == t.clock
  {
    var read, done' := Wake(at, dir, ReadBytes(n)), Wake(done, dir, WriteDone);
    RunsOn(s, read, middle, done');
    ElsewhereKeeps(Step(s, read), middle, dir);
  }
}
