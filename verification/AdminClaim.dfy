/** The admin-socket claim protocol: probe, lock, probe again, unlink, bind, serve, remove, run by
    any number of processes. A process may die at any point; its listener and its lock are then
    closed separately, in either order. */
module AdminClaim {
  import opened Wire

  type Pid = nat

  /** What the socket path names. A socket entry remembers whose `bind` created it. */
  datatype Entry = Absent | NotASocket | Socket(owner: Pid)

  /** Where a process is in `claim_socket` and `serve`. `Closing` covers every way out: the
      process does nothing more but lose its listener and its lock. */
  datatype Stage =
    | Idle | Probing | Locking | Reprobing | Inspecting | Unlinking | Binding | Listening | Restricting
    | Serving | Removing | Closing

  /** The path, the holder of the advisory lock, the live listeners and every process's stage. */
  datatype Host = Host(path: Entry, lock: Option<Pid>, listening: set<Pid>, stages: map<Pid, Stage>)

  /** System calls may fail; that is the environment's choice. */
  datatype Action =
    | Start
    | Probe(fails: bool) | Lock(fails: bool) | Reprobe(fails: bool)
    | Inspect(fails: bool) | Unlink(fails: bool)
    | Bind(fails: bool) | Listen(fails: bool) | Restrict(fails: bool)
    | Stop | Remove(fails: bool)
    | Crash | CloseListener | ReleaseLock

  /** A process acts, or some other program creates a file where there was nothing. */
  datatype Step = By(who: Pid, action: Action) | Touch

  function StageOf(h: Host, p: Pid): Stage {
    if p in h.stages then h.stages[p] else Idle
  }

  function Enter(h: Host, p: Pid, stage: Stage): Host {
    h.(stages := h.stages[p := stage])
  }

  /** `socket_is_live`: a connection succeeds exactly when the entry's listener is open. */
  predicate Live(h: Host) {
    h.path.Socket? && h.path.owner in h.listening
  }

  /** The stage in which an action can happen. */
  predicate Ready(stage: Stage, action: Action) {
    match action
    case Start => stage == Idle
    case Probe(_) => stage == Probing
    case Lock(_) => stage == Locking
    case Reprobe(_) => stage == Reprobing
    case Inspect(_) => stage == Inspecting
    case Unlink(_) => stage == Unlinking
    case Bind(_) => stage == Binding
    case Listen(_) => stage == Listening
    case Restrict(_) => stage == Restricting
    case Stop => stage == Serving
    case Remove(_) => stage == Removing
    case Crash => stage != Idle
    case CloseListener => stage == Closing
    case ReleaseLock => stage == Closing
  }

  /** The effect of an action. `reprobes` tells whether the protocol probes under the lock. */
  function Effect(reprobes: bool, h: Host, p: Pid, action: Action): Host {
    match action
    case Start => Enter(h, p, Probing)
    case Probe(fails) => Enter(h, p, if fails || Live(h) then Closing else Locking)
    case Lock(fails) =>
      if fails || h.lock.Some? then Enter(h, p, Closing)
      else Enter(h.(lock := Some(p)), p, if reprobes then Reprobing else Inspecting)
    case Reprobe(fails) => Enter(h, p, if fails || Live(h) then Closing else Inspecting)
    case Inspect(fails) =>
      Enter(h, p, if fails || h.path == NotASocket then Closing else if h.path == Absent then Binding else Unlinking)
    case Unlink(fails) =>
      if fails || h.path == Absent then Enter(h, p, Closing) else Enter(h.(path := Absent), p, Binding)
    case Bind(fails) =>
      if fails || h.path != Absent then Enter(h, p, Closing) else Enter(h.(path := Socket(p)), p, Listening)
    case Listen(fails) =>
      if fails then Enter(h, p, Closing) else Enter(h.(listening := h.listening + {p}), p, Restricting)
    case Restrict(fails) => Enter(h, p, if fails then Closing else Serving)
    case Stop => Enter(h, p, Removing)
    case Remove(fails) => Enter(if fails then h else h.(path := Absent), p, Closing)
    case Crash => Enter(h, p, Closing)
    case CloseListener => h.(listening := h.listening - {p})
    case ReleaseLock => if h.lock == Some(p) then h.(lock := None) else h
  }

  function Next(reprobes: bool, h: Host, step: Step): Host {
    match step
    case Touch => if h.path == Absent then h.(path := NotASocket) else h
    case By(p, action) => if Ready(StageOf(h, p), action) then Effect(reprobes, h, p, action) else h
  }

  function Run(reprobes: bool, h: Host, steps: seq<Step>): Host {
    if steps == [] then h
    else Next(reprobes, Run(reprobes, h, steps[..|steps| - 1]), steps[|steps| - 1])
  }

  lemma {:induction false} Then(reprobes: bool, h: Host, steps: seq<Step>, step: Step)
    ensures Run(reprobes, h, steps + [step]) == Next(reprobes, Run(reprobes, h, steps), step)
  {
    assert (steps + [step])[..|steps|] == steps;
  }

  /** Before any process starts; the path may hold anything that nobody serves. */
  predicate Initial(h: Host) {
    h.lock == None && h.listening == {} && forall p :: p in h.stages ==> h.stages[p] == Idle
  }

  // ---- The invariant ----

  predicate Locked(stage: Stage) {
    stage !in {Idle, Probing, Locking, Closing}
  }

  /** The lock is held from before the second probe until the process closes; between that probe
      and `bind` nothing live is at the path; from `bind` to removal the path is the process's own. */
  ghost predicate Sound(h: Host, p: Pid) {
    var stage := StageOf(h, p);
    && (Locked(stage) ==> h.lock == Some(p))
    && (stage in {Inspecting, Unlinking, Binding} ==> !Live(h))
    && (stage == Unlinking ==> h.path.Socket?) && (stage == Binding ==> !h.path.Socket?)
    && (stage in {Listening, Restricting, Serving, Removing} ==> h.path == Socket(p))
    && (stage in {Restricting, Serving, Removing} ==> p in h.listening)
    && (p in h.listening ==> stage in {Restricting, Serving, Removing, Closing})
  }

  ghost predicate Inv(h: Host) {
    forall p :: Sound(h, p)
  }

  lemma EffectKeepsOwn(h: Host, p: Pid, action: Action)
    requires Inv(h) && Ready(StageOf(h, p), action)
    ensures Sound(Effect(true, h, p, action), p)
  {
    assert Sound(h, p);
    assert h.path.Socket? ==> Sound(h, h.path.owner);
  }

  lemma EffectKeepsOther(h: Host, p: Pid, action: Action, q: Pid)
    requires Inv(h) && Ready(StageOf(h, p), action) && p != q
    ensures Sound(Effect(true, h, p, action), q)
  {
    assert Sound(h, p) && Sound(h, q);
    assert StageOf(Effect(true, h, p, action), q) == StageOf(h, q);
  }

  lemma NextKeepsInv(h: Host, step: Step)
    requires Inv(h)
    ensures Inv(Next(true, h, step))
  {
    forall q ensures Sound(Next(true, h, step), q) {
      assert Sound(h, q);
      if step.By? && Ready(StageOf(h, step.who), step.action) {
        if q == step.who {
          EffectKeepsOwn(h, q, step.action);
        } else {
          EffectKeepsOther(h, step.who, step.action, q);
        }
      }
    }
  }

  lemma {:induction false} RunKeepsInv(h: Host, steps: seq<Step>)
    requires Initial(h)
    ensures Inv(Run(true, h, steps))
  {
    if steps != [] {
      RunKeepsInv(h, steps[..|steps| - 1]);
      NextKeepsInv(Run(true, h, steps[..|steps| - 1]), steps[|steps| - 1]);
    }
  }

  // ---- Safety in every interleaving ----

  /** Whatever the interleaving: the entry of a live listener changes only when its own process
      removes it, and a file that is not a socket stays. */
  lemma LiveEntryIsNeverTaken(h0: Host, steps: seq<Step>, step: Step)
    requires Initial(h0)
    ensures var h := Run(true, h0, steps);
      var h' := Next(true, h, step);
      && (Live(h) && h'.path != h.path ==> step == By(h.path.owner, Remove(false)) && h'.path == Absent)
      && (h.path == NotASocket ==> h'.path == NotASocket)
  {
    RunKeepsInv(h0, steps);
    var h := Run(true, h0, steps);
    if step.By? {
      assert Sound(h, step.who);
    }
  }

  /** A serving process is listening, is reached through the path, and is the only one; no other
      process holds the lock or can get it, and one that probes is turned away. */
  lemma ServingIsExclusive(h0: Host, steps: seq<Step>, p: Pid, q: Pid, action: Action)
    requires Initial(h0)
    requires StageOf(Run(true, h0, steps), p) == Serving
    ensures var h := Run(true, h0, steps);
      var h' := Next(true, h, By(q, action));
      && h.path == Socket(p) && Live(h) && h.lock == Some(p)
      && (StageOf(h, q) == Serving ==> q == p)
      && (q != p ==> !Locked(StageOf(h, q)) && !Locked(StageOf(h', q)) && h'.path == h.path && h'.lock == h.lock)
      && (q != p && StageOf(h, q) == Probing && action.Probe? ==> StageOf(h', q) == Closing)
  {
    RunKeepsInv(h0, steps);
    assert Sound(Run(true, h0, steps), p) && Sound(Run(true, h0, steps), q);
  }

  // ---- Progress of a lone starter ----

  /** What `p` does next when every call succeeds. */
  function NextAction(stage: Stage): Action {
    match stage
    case Idle => Start
    case Probing => Probe(false)
    case Locking => Lock(false)
    case Reprobing => Reprobe(false)
    case Inspecting => Inspect(false)
    case Unlinking => Unlink(false)
    case Binding => Bind(false)
    case Listening => Listen(false)
    case Restricting => Restrict(false)
    case Serving => Stop
    case Removing => Remove(false)
    case Closing => ReleaseLock
  }

  function Remaining(stage: Stage): nat {
    match stage
    case Idle => 9
    case Probing => 8
    case Locking => 7
    case Reprobing => 6
    case Inspecting => 5
    case Unlinking => 4
    case Binding => 3
    case Listening => 2
    case Restricting => 1
    case _ => 0
  }

  /** Nothing stands in the way of `p`: no live or locking peer, no foreign file. */
  predicate OnTrack(h: Host, p: Pid) {
    var stage := StageOf(h, p);
    && stage !in {Removing, Closing}
    && h.lock == (if stage in {Idle, Probing, Locking} then None else Some(p))
    && match stage
       case Unlinking => h.path.Socket? && !Live(h)
       case Binding => h.path == Absent
       case Listening => h.path == Socket(p)
       case Restricting => h.path == Socket(p) && Live(h)
       case Serving => h.path == Socket(p) && Live(h)
       case _ => !Live(h) && h.path != NotASocket
  }

  lemma TrackAdvances(h: Host, p: Pid)
    requires OnTrack(h, p) && StageOf(h, p) != Serving
    ensures var g := Next(true, h, By(p, NextAction(StageOf(h, p))));
      OnTrack(g, p) && Remaining(StageOf(g, p)) < Remaining(StageOf(h, p))
  {
  }

  lemma {:induction false} RunFront(reprobes: bool, h: Host, step: Step, more: seq<Step>)
    ensures Run(reprobes, h, [step] + more) == Run(reprobes, Next(reprobes, h, step), more)
  {
    var n := |more| - 1;
    if more == [] {
      Then(reprobes, h, [], step);
      assert [step] + more == [] + [step];
    } else {
      RunFront(reprobes, h, step, more[..n]);
      assert [step] + more == ([step] + more[..n]) + [more[n]];
      Then(reprobes, h, [step] + more[..n], more[n]);
    }
  }

  /** With no live and no locking peer, and nothing but a stale socket in the way, a starter left
      alone claims the path by its own successful steps. */
  lemma {:induction false} LoneStarterClaims(h: Host, p: Pid) returns (steps: seq<Step>)
    requires OnTrack(h, p)
    ensures |steps| <= 9 && forall step :: step in steps ==> step.By? && step.who == p
    ensures var t := Run(true, h, steps);
      StageOf(t, p) == Serving && t.path == Socket(p) && Live(t) && t.lock == Some(p)
    ensures |steps| <= Remaining(StageOf(h, p))
    decreases Remaining(StageOf(h, p))
  {
    if StageOf(h, p) == Serving {
      steps := [];
    } else {
      var step := By(p, NextAction(StageOf(h, p)));
      TrackAdvances(h, p);
      var more := LoneStarterClaims(Next(true, h, step), p);
      RunFront(true, h, step, more);
      steps := [step] + more;
    }
  }

  // ---- Progress of a lock holder among others ----

  /** Any step but a foreign file, a failing call, a death or a stop of `p`. */
  predicate Favourable(p: Pid, step: Step) {
    step.By? && (step.who == p ==> step.action in Willing())
  }

  function Willing(): set<Action> {
    {Start, Probe(false), Lock(false), Reprobe(false), Inspect(false), Unlink(false), Bind(false), Listen(false),
     Restrict(false)}
  }

  /** How many of the steps are calls that `p` makes. */
  function Calls(h: Host, steps: seq<Step>, p: Pid): nat {
    if steps == [] then 0
    else
      var n := |steps| - 1;
      var stage := StageOf(Run(true, h, steps[..n]), p);
      Calls(h, steps[..n], p) + if steps[n].By? && steps[n].who == p && Ready(stage, steps[n].action) then 1 else 0
  }

  lemma OthersStayOff(h: Host, p: Pid, q: Pid, action: Action)
    requires Inv(h) && OnTrack(h, p) && Locked(StageOf(h, p)) && q != p
    ensures var t := Next(true, h, By(q, action));
      OnTrack(t, p) && StageOf(t, p) == StageOf(h, p)
  {
    assert Sound(h, p) && Sound(h, q);
  }

  lemma OwnStepAdvances(h: Host, p: Pid, action: Action)
    requires OnTrack(h, p) && Locked(StageOf(h, p)) && action in Willing() && Ready(StageOf(h, p), action)
    ensures var t := Next(true, h, By(p, action));
      OnTrack(t, p) && Locked(StageOf(t, p)) && Remaining(StageOf(t, p)) < Remaining(StageOf(h, p))
  {
    assert action == NextAction(StageOf(h, p));
    TrackAdvances(h, p);
  }

  /** Whatever the other processes do in between: a process that holds the lock, with nothing live
      and no foreign file at the path, is never turned away; until it serves its next call is
      possible, and it serves after at most six calls. */
  lemma {:induction false} LockHolderClaims(h: Host, p: Pid, steps: seq<Step>)
    requires Inv(h) && OnTrack(h, p) && Locked(StageOf(h, p))
    requires forall step :: step in steps ==> Favourable(p, step)
    ensures var t := Run(true, h, steps);
      && Inv(t) && OnTrack(t, p) && Locked(StageOf(t, p))
      && Calls(h, steps, p) + Remaining(StageOf(t, p)) <= Remaining(StageOf(h, p)) <= 6
      && (StageOf(t, p) != Serving ==> Ready(StageOf(t, p), NextAction(StageOf(t, p))) && Remaining(StageOf(t, p)) > 0)
      && (StageOf(t, p) == Serving ==> t.path == Socket(p) && Live(t) && t.lock == Some(p))
  {
    if steps != [] {
      var n := |steps| - 1;
      var step := steps[n];
      assert step in steps;
      LockHolderClaims(h, p, steps[..n]);
      var s := Run(true, h, steps[..n]);
      NextKeepsInv(s, step);
      if step.who != p {
        OthersStayOff(s, p, step.who, step.action);
      } else if Ready(StageOf(s, p), step.action) {
        OwnStepAdvances(s, p, step.action);
      }
    }
  }

  // ---- A clean shutdown ----

  /** What `p` leaves after it stops, removes the entry, and loses listener and lock. */
  function AfterShutdown(h: Host, p: Pid): Host {
    var stopped := Next(true, h, By(p, Stop));
    var removed := Next(true, stopped, By(p, Remove(false)));
    Next(true, Next(true, removed, By(p, CloseListener)), By(p, ReleaseLock))
  }

  /** A clean shutdown from any reachable serving state leaves no entry, no listener and no lock
      behind, so that the next starter, whoever it is, is on its way to claim the path. */
  lemma ShutdownMakesRoom(h0: Host, steps: seq<Step>, p: Pid, next: Pid)
    requires Initial(h0)
    requires StageOf(Run(true, h0, steps), p) == Serving && StageOf(Run(true, h0, steps), next) == Idle
    ensures var t := AfterShutdown(Run(true, h0, steps), p);
      t.path == Absent && p !in t.listening && t.lock == None && OnTrack(t, next)
  {
    ServingIsExclusive(h0, steps, p, next, Start);
    ShutdownEffect(Run(true, h0, steps), p);
  }

  lemma ShutdownEffect(h: Host, p: Pid)
    requires StageOf(h, p) == Serving && h.lock == Some(p)
    ensures AfterShutdown(h, p) == Enter(h.(path := Absent, listening := h.listening - {p}, lock := None), p, Closing)
  {
    var stopped := Enter(h, p, Removing);
    assert Next(true, h, By(p, Stop)) == stopped;
    var removed := Enter(h.(path := Absent), p, Closing);
    assert Next(true, stopped, By(p, Remove(false))) == removed;
    assert Next(true, removed, By(p, CloseListener)) == removed.(listening := h.listening - {p});
  }

  // ---- When the path must be probed again under the lock ----

  /** A process loses the lock while its listener can still be reached, and another one, which
      probed earlier, is about to take that lock. */
  predicate Exposes(h: Host, step: Step) {
    && step.By? && step.action == ReleaseLock && StageOf(h, step.who) == Closing
    && h.lock == Some(step.who) && h.path == Socket(step.who) && Live(h)
    && exists q :: q in h.stages && h.stages[q] == Locking
  }

  ghost predicate NeverExposes(h: Host, steps: seq<Step>) {
    steps != [] ==>
      var n := |steps| - 1;
      NeverExposes(h, steps[..n]) && !Exposes(Run(false, h, steps[..n]), steps[n])
  }

  /** Only its own process holds the lock beside a live entry; once that is gone nobody is left
      that could take it. */
  ghost predicate Shielded(h: Host) {
    Live(h) ==>
      || h.lock == Some(h.path.owner)
      || (h.lock == None && forall q :: q in h.stages ==> h.stages[q] != Locking)
  }

  lemma LockKeepsInvUnprobed(h: Host, p: Pid, fails: bool)
    requires Inv(h) && Shielded(h) && StageOf(h, p) == Locking
    ensures Inv(Effect(false, h, p, Lock(fails))) && Shielded(Effect(false, h, p, Lock(fails)))
  {
    var t := Effect(false, h, p, Lock(fails));
    forall q ensures Sound(t, q) {
      assert Sound(h, q) && Sound(h, p);
    }
  }

  /** All other calls are the same with and without the second probe. */
  lemma OtherKeepsShield(h: Host, p: Pid, action: Action)
    requires Inv(h) && Shielded(h) && Ready(StageOf(h, p), action) && !action.Lock?
    requires !Exposes(h, By(p, action))
    ensures Shielded(Effect(true, h, p, action))
  {
    assert Sound(h, p);
    assert h.path.Socket? ==> Sound(h, h.path.owner);
  }

  lemma UnprobedKeepsInv(h: Host, step: Step)
    requires Inv(h) && Shielded(h) && !Exposes(h, step)
    ensures Inv(Next(false, h, step)) && Shielded(Next(false, h, step))
  {
    if step.By? && Ready(StageOf(h, step.who), step.action) {
      if step.action.Lock? {
        LockKeepsInvUnprobed(h, step.who, step.action.fails);
      } else {
        assert Next(false, h, step) == Next(true, h, step);
        NextKeepsInv(h, step);
        OtherKeepsShield(h, step.who, step.action);
      }
    } else {
      assert Next(false, h, step) == Next(true, h, step);
      NextKeepsInv(h, step);
    }
  }

  lemma {:induction false} UnprobedRunKeepsInv(h: Host, steps: seq<Step>)
    requires Initial(h) && NeverExposes(h, steps)
    ensures Inv(Run(false, h, steps)) && Shielded(Run(false, h, steps))
  {
    if steps != [] {
      var n := |steps| - 1;
      UnprobedRunKeepsInv(h, steps[..n]);
      UnprobedKeepsInv(Run(false, h, steps[..n]), steps[n]);
    }
  }

  /** Without the second probe a live entry is safe in every run that exposes none ... */
  lemma {:induction false} UnexposedIsSafe(h0: Host, steps: seq<Step>, step: Step)
    requires Initial(h0) && NeverExposes(h0, steps)
    ensures var h := Run(false, h0, steps);
      var h' := Next(false, h, step);
      Live(h) && h'.path != h.path ==> step == By(h.path.owner, Remove(false)) && h'.path == Absent
  {
    UnprobedRunKeepsInv(h0, steps);
    var h := Run(false, h0, steps);
    if step.By? {
      assert Sound(h, step.who);
    }
  }

  function Taking(p: Pid, q: Pid): seq<Step> {
    [By(p, ReleaseLock), By(q, Lock(false)), By(q, Inspect(false)), By(q, Unlink(false))]
  }

  /** ... and whenever a run exposes one, it can go on so that another process unlinks it. */
  lemma {:induction false} ExposedIsTaken(h: Host, p: Pid) returns (q: Pid)
    requires Exposes(h, By(p, ReleaseLock))
    ensures q != p && p in Run(false, h, Taking(p, q)[..3]).listening
    ensures Run(false, h, Taking(p, q)[..3]).path == Socket(p) && Live(Run(false, h, Taking(p, q)[..3]))
    ensures Run(false, h, Taking(p, q)).path == Absent
  {
    q :| q in h.stages && h.stages[q] == Locking;
    var trace := (i: nat) => Taken(h, q, i);
    TakingFollows(h, p, q);
    TraceIsRun(trace, Taking(p, q), 3);
    ReachedBy(trace, Taking(p, q));
  }

  function Taken(h: Host, q: Pid, i: nat): Host {
    if i == 0 then h
    else if i == 1 then h.(lock := None)
    else if i == 2 then Enter(h.(lock := Some(q)), q, Inspecting)
    else if i == 3 then Enter(h.(lock := Some(q)), q, Unlinking)
    else Enter(h.(lock := Some(q), path := Absent), q, Binding)
  }

  lemma TakingFollows(h: Host, p: Pid, q: Pid)
    requires Exposes(h, By(p, ReleaseLock)) && StageOf(h, q) == Locking
    ensures Follows((i: nat) => Taken(h, q, i), Taking(p, q))
  {
    assert Next(false, Taken(h, q, 0), By(p, ReleaseLock)) == Taken(h, q, 1);
    assert Next(false, Taken(h, q, 1), By(q, Lock(false))) == Taken(h, q, 2);
    assert Next(false, Taken(h, q, 2), By(q, Inspect(false))) == Taken(h, q, 3);
    assert Next(false, Taken(h, q, 3), By(q, Unlink(false))) == Taken(h, q, 4);
  }

  /** `trace` lists the states of a run step by step. */
  ghost predicate Follows(trace: nat -> Host, steps: seq<Step>) {
    forall k: nat :: k < |steps| ==> Next(false, trace(k), steps[k]) == trace(k + 1)
  }

  lemma {:induction false} TraceIsRun(trace: nat -> Host, steps: seq<Step>, i: nat)
    requires Follows(trace, steps) && i <= |steps|
    ensures Run(false, trace(0), steps[..i]) == trace(i)
  {
    if i > 0 {
      TraceIsRun(trace, steps, i - 1);
      assert steps[..i] == steps[..i - 1] + [steps[i - 1]];
      Then(false, trace(0), steps[..i - 1], steps[i - 1]);
    }
  }

  /** Process 1 probes an empty path, then process 2 claims it. Process 2 ends by a crash, or by a
      shutdown that fails to remove the entry. */
  function Overtaken(crash: bool): seq<Step> {
    [By(1, Start), By(1, Probe(false)), By(2, Start), By(2, Probe(false)), By(2, Lock(false)),
     By(2, Inspect(false)), By(2, Bind(false)), By(2, Listen(false)), By(2, Restrict(false))]
    + if crash then [By(2, Crash)] else [By(2, Stop), By(2, Remove(true))]
  }

  function Two(path: Entry, lock: Option<Pid>, listening: set<Pid>, one: Stage, two: Stage): Host {
    Host(path, lock, listening, map[1 := one, 2 := two])
  }

  /** The states of that run. */
  function Overtaking(crash: bool, i: nat): Host {
    if i == 0 then Two(Absent, None, {}, Idle, Idle)
    else if i == 1 then Two(Absent, None, {}, Probing, Idle)
    else if i == 2 then Two(Absent, None, {}, Locking, Idle)
    else if i == 3 then Two(Absent, None, {}, Locking, Probing)
    else if i == 4 then Two(Absent, None, {}, Locking, Locking)
    else if i == 5 then Two(Absent, Some(2), {}, Locking, Inspecting)
    else if i == 6 then Two(Absent, Some(2), {}, Locking, Binding)
    else if i == 7 then Two(Socket(2), Some(2), {}, Locking, Listening)
    else if i == 8 then Two(Socket(2), Some(2), {2}, Locking, Restricting)
    else if i == 9 then Two(Socket(2), Some(2), {2}, Locking, Serving)
    else if i == 10 && !crash then Two(Socket(2), Some(2), {2}, Locking, Removing)
    else Two(Socket(2), Some(2), {2}, Locking, Closing)
  }

  lemma OvertakingEarly(crash: bool, i: nat)
    requires i < 6
    ensures Next(false, Overtaking(crash, i), Overtaken(crash)[i]) == Overtaking(crash, i + 1)
  {
  }

  lemma OvertakingLate(crash: bool, i: nat)
    requires 6 <= i < 9
    ensures Next(false, Overtaking(crash, i), Overtaken(crash)[i]) == Overtaking(crash, i + 1)
  {
  }

  lemma OvertakingEnds(crash: bool, i: nat)
    requires 9 <= i < |Overtaken(crash)|
    ensures Next(false, Overtaking(crash, i), Overtaken(crash)[i]) == Overtaking(crash, i + 1)
  {
  }

  lemma OvertakingAdvances(crash: bool, i: nat)
    requires i < |Overtaken(crash)|
    ensures Next(false, Overtaking(crash, i), Overtaken(crash)[i]) == Overtaking(crash, i + 1)
  {
    if i < 6 {
      OvertakingEarly(crash, i);
    } else if i < 9 {
      OvertakingLate(crash, i);
    } else {
      OvertakingEnds(crash, i);
    }
  }

  lemma {:induction false} ReachedBy(trace: nat -> Host, steps: seq<Step>)
    requires Follows(trace, steps)
    ensures Run(false, trace(0), steps) == trace(|steps|)
  {
    TraceIsRun(trace, steps, |steps|);
    assert steps[..|steps|] == steps;
  }

  lemma OvertakenRuns(crash: bool)
    ensures Run(false, Overtaking(crash, 0), Overtaken(crash)) == Two(Socket(2), Some(2), {2}, Locking, Closing)
  {
    var trace := (i: nat) => Overtaking(crash, i);
    var steps := Overtaken(crash);
    forall i: nat | i < |steps| ensures Next(false, trace(i), steps[i]) == trace(i + 1) {
      OvertakingAdvances(crash, i);
    }
    ReachedBy(trace, steps);
  }

  /** Exposing runs exist, from two idle processes and an empty path: with a crash, and without any
      when a shutdown fails to remove the entry. So the second probe is needed in both cases. */
  lemma {:induction false} SecondProbeIsNeeded(crash: bool)
    ensures Initial(Overtaking(crash, 0))
    ensures Exposes(Run(false, Overtaking(crash, 0), Overtaken(crash)), By(2, ReleaseLock))
    ensures crash || forall step :: step in Overtaken(crash) ==> step.action != Crash
  {
    OvertakenRuns(crash);
    EndIsExposed();
  }

  lemma EndIsExposed()
    ensures Exposes(Two(Socket(2), Some(2), {2}, Locking, Closing), By(2, ReleaseLock))
  {
    assert Two(Socket(2), Some(2), {2}, Locking, Closing).stages[1] == Locking;
  }

  // ---- Why a starter is turned away ----

  /** The call fails, by the environment's choice. */
  predicate Fails(action: Action) {
    match action
    case Probe(fails) => fails
    case Lock(fails) => fails
    case Reprobe(fails) => fails
    case Inspect(fails) => fails
    case Unlink(fails) => fails
    case Bind(fails) => fails
    case Listen(fails) => fails
    case Restrict(fails) => fails
    case _ => false
  }

  /** A live peer answers a probe, the lock is held, or a foreign file is at the path. */
  predicate InTheWay(h: Host, action: Action) {
    match action
    case Probe(_) => Live(h)
    case Lock(_) => h.lock.Some?
    case Reprobe(_) => Live(h)
    case Inspect(_) => h.path == NotASocket
    case Bind(_) => h.path == NotASocket
    case _ => false
  }

  /** The calls of `claim_socket`, and the wish to stop. */
  predicate IsCall(action: Action) {
    !action.Remove? && action !in {Crash, CloseListener, ReleaseLock}
  }

  /** A call gets through exactly when it does not fail and nothing is in its way; it then leads to
      the next stage. */
  lemma CallGetsThrough(h: Host, p: Pid, action: Action)
    requires Inv(h) && Ready(StageOf(h, p), action) && IsCall(action)
    ensures var stage := StageOf(Next(true, h, By(p, action)), p);
      && (stage == Closing <==> Fails(action) || InTheWay(h, action))
      && (stage != Closing ==> stage in Successors(action))
  {
    assert Sound(h, p);
  }

  /** Step `k` of the log is a call of `p` that met with one of these obstacles. */
  ghost predicate ObstructedAt(start: Host, log: seq<Step>, p: Pid, k: nat) {
    && k < |log| && log[k].By? && log[k].who == p
    && var h := Run(true, start, log[..k]);
       Ready(StageOf(h, p), log[k].action) && InTheWay(h, log[k].action)
  }

  /** So is some step from the `from`-th on. */
  ghost predicate Obstructed(start: Host, log: seq<Step>, p: Pid, from: nat) {
    exists k: nat :: from <= k && ObstructedAt(start, log, p, k)
  }

  lemma StaysObstructed(start: Host, log: seq<Step>, log': seq<Step>, p: Pid, from: nat)
    requires Obstructed(start, log, p, from) && log <= log'
    ensures Obstructed(start, log', p, from)
  {
    var k: nat :| from <= k && ObstructedAt(start, log, p, k);
    assert log'[..k] == log[..k];
    assert ObstructedAt(start, log', p, k);
  }

  /** No lock, no live peer, no foreign file: whatever else is at the path is stale. */
  predicate Vacant(h: Host) {
    h.lock == None && h.path != NotASocket && !Live(h)
  }

  /** One of the calls of `claim_socket` fails. */
  ghost predicate SomeFails(fails: nat -> bool) {
    exists i: nat :: i < 8 && fails(i)
  }

  /** Nothing happens between the calls of `claim_socket`. */
  ghost predicate Undisturbed(others: nat -> seq<Step>) {
    forall i: nat :: i < 8 ==> others(i) == []
  }

  /** At some point from the `from`-th step on, `p` serves. */
  ghost predicate Served(start: Host, log: seq<Step>, p: Pid, from: nat) {
    exists k: nat :: from <= k <= |log| && StageOf(Run(true, start, log[..k]), p) == Serving
  }

  // ---- The code, one process at a time ----

  /** A machine. `log` is everything that has happened since `start`. */
  class Machine {
    var path: Entry
    var lock: Option<Pid>
    var listening: set<Pid>
    var stages: map<Pid, Stage>
    ghost var start: Host
    ghost var log: seq<Step>

    ghost function View(): Host
      reads this
    {
      Host(path, lock, listening, stages)
    }

    ghost predicate Valid()
      reads this
    {
      Initial(start) && View() == Run(true, start, log)
    }

    constructor (path: Entry)
      ensures Valid() && log == [] && this.path == path
    {
      this.path, lock, listening, stages := path, None, {}, map[];
      start, log := Host(path, None, {}, map[]), [];
    }

    function Stage(p: Pid): Stage
      reads this
    {
      if p in stages then stages[p] else Idle
    }

    /** One system call of process `p`, or its death. */
    method Act(p: Pid, action: Action)
      requires Valid()
      modifies this
      ensures Valid() && start == old(start) && log == old(log) + [By(p, action)]
      ensures View() == Next(true, old(View()), By(p, action))
    {
      ghost var before, steps := View(), log + [By(p, action)];
      assert Run(true, start, steps) == Next(true, before, By(p, action)) by {
        Then(true, start, log, By(p, action));
      }
      if Ready(Stage(p), action) {
        Perform(p, action);
      }
      assert View() == Next(true, before, By(p, action));
      log := steps;
    }

    method Perform(p: Pid, action: Action)
      requires Ready(Stage(p), action)
      modifies this`path, this`lock, this`listening, this`stages
      ensures View() == Effect(true, old(View()), p, action)
    {
      var live := path.Socket? && path.owner in listening;
      match action
      case Start => stages := stages[p := Probing];
      case Probe(fails) => stages := stages[p := if fails || live then Closing else Locking];
      case Lock(fails) =>
        if fails || lock.Some? {
          stages := stages[p := Closing];
        } else {
          lock := Some(p);
          stages := stages[p := Reprobing];
        }
      case Reprobe(fails) => stages := stages[p := if fails || live then Closing else Inspecting];
      case Inspect(fails) =>
        stages := stages[p := if fails || path == NotASocket then Closing
                              else if path == Absent then Binding else Unlinking];
      case Unlink(fails) =>
        if fails || path == Absent {
          stages := stages[p := Closing];
        } else {
          path := Absent;
          stages := stages[p := Binding];
        }
      case Bind(fails) =>
        if fails || path != Absent {
          stages := stages[p := Closing];
        } else {
          path := Socket(p);
          stages := stages[p := Listening];
        }
      case Listen(fails) =>
        if fails {
          stages := stages[p := Closing];
        } else {
          listening := listening + {p};
          stages := stages[p := Restricting];
        }
      case Restrict(fails) => stages := stages[p := if fails then Closing else Serving];
      case Stop => stages := stages[p := Removing];
      case Remove(fails) =>
        if !fails {
          path := Absent;
        }
        stages := stages[p := Closing];
      case Crash => stages := stages[p := Closing];
      case CloseListener => listening := listening - {p};
      case ReleaseLock =>
        if lock == Some(p) {
          lock := None;
        }
    }

    /** Other processes, and other programs, between two system calls of `p`. */
    method Interfere(p: Pid, others: seq<Step>)
      requires Valid() && forall step :: step in others && step.By? ==> step.who != p
      modifies this
      ensures Valid() && start == old(start) && Stage(p) == old(Stage(p)) && old(log) <= log
      ensures others == [] ==> View() == old(View())
    {
      for i := 0 to |others|
        invariant Valid() && start == old(start) && Stage(p) == old(Stage(p)) && old(log) <= log
        invariant i == 0 ==> View() == old(View())
      {
        assert others[i] in others;
        if others[i].By? {
          Act(others[i].who, others[i].action);
        } else {
          Then(true, start, log, Touch);
          log := log + [Touch];
          if path == Absent {
            path := NotASocket;
          }
        }
      }
    }

    /** One system call of `p`, after whatever the others did first. */
    method Call(p: Pid, action: Action, others: seq<Step>, ghost from: nat) returns (ok: bool)
      requires Valid() && from <= |log| && Ready(Stage(p), action) && IsCall(action)
      requires forall step :: step in others && step.By? ==> step.who != p
      modifies this
      ensures Valid() && start == old(start) && old(log) <= log
      ensures ok == (Stage(p) != Closing)
      ensures ok ==> Stage(p) in Successors(action)
      ensures action in {Start, Stop} ==> ok
      ensures !ok ==> Fails(action) || Obstructed(start, log, p, from)
      ensures old(OnTrack(View(), p)) && others == [] && !Fails(action) && action != Stop ==> ok && OnTrack(View(), p)
    {
      Interfere(p, others);
      ghost var before, steps := View(), log;
      RunKeepsInv(start, log);
      CallGetsThrough(before, p, action);
      if OnTrack(before, p) && !Fails(action) && action != Stop {
        assert action == NextAction(StageOf(before, p));
        TrackAdvances(before, p);
      }
      Act(p, action);
      ok := Stage(p) != Closing;
      if !ok && !Fails(action) {
        assert log[..|steps|] == steps;
        assert ObstructedAt(start, log, p, |steps|);
      }
    }

    /** `claim_socket` of process `p`: `fails(i)` tells whether its i-th system call fails, and
        `others(i)` what happens before it. On success the path is `p`'s own live socket. It gives up
        only when a call fails, a probe finds a live peer, the lock is held or a foreign file is in
        the way; so it succeeds when none of that is the case at the start and nobody interferes. */
    method ClaimSocket(p: Pid, fails: nat -> bool, others: nat -> seq<Step>) returns (ok: bool)
      requires Valid() && Stage(p) == Idle
      requires forall i: nat, step :: step in others(i) && step.By? ==> step.who != p
      modifies this
      ensures Valid() && start == old(start) && old(log) <= log
      ensures Stage(p) == if ok then Serving else Closing
      ensures ok ==> path == Socket(p) && p in listening && lock == Some(p)
      ensures !ok ==> SomeFails(fails) || Obstructed(start, log, p, |old(log)|)
      ensures !SomeFails(fails) && Undisturbed(others) && old(Vacant(View())) ==> ok
    {
      ghost var from := |log|;
      ok := LockPath(p, fails, others, from);
      if !ok { return; }
      ok := BindSocket(p, fails, others, from);
    }

    /** Steps 1 to 3: probe, lock, probe again. */
    method LockPath(p: Pid, fails: nat -> bool, others: nat -> seq<Step>, ghost from: nat) returns (ok: bool)
      requires Valid() && from <= |log| && Stage(p) == Idle
      requires forall i: nat, step :: step in others(i) && step.By? ==> step.who != p
      modifies this
      ensures Valid() && start == old(start) && old(log) <= log
      ensures Stage(p) == if ok then Inspecting else Closing
      ensures !ok ==> SomeFails(fails) || Obstructed(start, log, p, from)
      ensures !SomeFails(fails) && Undisturbed(others) && old(Vacant(View())) ==> ok && OnTrack(View(), p)
    {
      ok := Call(p, Start, [], from);
      ok := Call(p, Probe(fails(0)), others(0), from);
      if !ok { return; }
      ok := Call(p, Lock(fails(1)), others(1), from);
      if !ok { return; }
      ok := Call(p, Reprobe(fails(2)), others(2), from);
    }

    /** Step 4 of `claim_socket`: unlink a stale socket, then publish a fresh one. */
    method BindSocket(p: Pid, fails: nat -> bool, others: nat -> seq<Step>, ghost from: nat) returns (ok: bool)
      requires Valid() && from <= |log| && Stage(p) == Inspecting
      requires forall i: nat, step :: step in others(i) && step.By? ==> step.who != p
      modifies this
      ensures Valid() && start == old(start) && old(log) <= log
      ensures Stage(p) == if ok then Serving else Closing
      ensures ok ==> path == Socket(p) && p in listening && lock == Some(p)
      ensures !ok ==> SomeFails(fails) || Obstructed(start, log, p, from)
      ensures !SomeFails(fails) && Undisturbed(others) && old(OnTrack(View(), p)) ==> ok
    {
      ok := Call(p, Inspect(fails(3)), others(3), from);
      if !ok { return; }
      if Stage(p) == Unlinking {
        ok := Call(p, Unlink(fails(4)), others(4), from);
        if !ok { return; }
      }
      ok := Publish(p, fails, others, from);
    }

    /** `UnixListener::bind` (which binds and listens) and the permission change. */
    method Publish(p: Pid, fails: nat -> bool, others: nat -> seq<Step>, ghost from: nat) returns (ok: bool)
      requires Valid() && from <= |log| && Stage(p) == Binding
      requires forall i: nat, step :: step in others(i) && step.By? ==> step.who != p
      modifies this
      ensures Valid() && start == old(start) && old(log) <= log
      ensures Stage(p) == if ok then Serving else Closing
      ensures ok ==> path == Socket(p) && p in listening && lock == Some(p)
      ensures !ok ==> SomeFails(fails) || Obstructed(start, log, p, from)
      ensures !SomeFails(fails) && Undisturbed(others) && old(OnTrack(View(), p)) ==> ok
    {
      ok := Call(p, Bind(fails(5)), others(5), from);
      if !ok { return; }
      ok := Call(p, Listen(fails(6)), others(6), from);
      if !ok { return; }
      ok := Call(p, Restrict(fails(7)), others(7), from);
      if ok {
        ServingIsExclusive(start, log, p, p, Stop);
      }
    }

    /** The path is removed while the lock is still held. A failing removal is ignored. */
    method ShutDown(p: Pid, fails: bool, others: nat -> seq<Step>)
      requires Valid() && Stage(p) == Serving
      requires forall i: nat, step :: step in others(i) && step.By? ==> step.who != p
      modifies this
      ensures Valid() && start == old(start) && old(log) <= log && Stage(p) == Closing
      ensures path == if fails then Socket(p) else Absent
    {
      var _ := Call(p, Stop, others(8), |log|);
      Interfere(p, others(9));
      RunKeepsInv(start, log);
      assert Sound(View(), p);
      Act(p, Remove(fails));
    }

    /** Dropping lock and listener. `serve` drops its lock first; a `claim_socket` that fails drops
        a listener it may already have before the lock. */
    method Close(p: Pid, lockFirst: bool)
      requires Valid() && Stage(p) == Closing
      modifies this
      ensures Valid() && start == old(start) && old(log) <= log && Stage(p) == Closing
      ensures p !in listening && lock != Some(p) && path == old(path)
    {
      if lockFirst {
        Act(p, ReleaseLock);
        Act(p, CloseListener);
      } else {
        Act(p, CloseListener);
        Act(p, ReleaseLock);
      }
    }

    /** `serve`: a process that cannot claim the path, for one of the reasons of `ClaimSocket`, changes
        nothing more; one that can serves until shutdown and then removes its entry, which stays only
        if the removal fails. Either way it ends without listener and without lock. */
    method Serve(p: Pid, fails: nat -> bool, others: nat -> seq<Step>) returns (ok: bool)
      requires Valid() && Stage(p) == Idle
      requires forall i: nat, step :: step in others(i) && step.By? ==> step.who != p
      modifies this
      ensures Valid() && start == old(start) && old(log) <= log
      ensures Stage(p) == Closing && p !in listening && lock != Some(p)
      ensures !ok ==> SomeFails(fails) || Obstructed(start, log, p, |old(log)|)
      ensures !SomeFails(fails) && Undisturbed(others) && old(Vacant(View())) ==> ok
      ensures ok ==> Served(start, log, p, |old(log)|) && path == if fails(8) then Socket(p) else Absent
    {
      ok := ClaimSocket(p, fails, others);
      ghost var claimed := log;
      if ok {
        ShutDown(p, fails(8), others);
      }
      Close(p, ok);
      assert log[..|claimed|] == claimed;
      if !ok && !SomeFails(fails) {
        StaysObstructed(start, claimed, log, p, |old(log)|);
      }
    }
  }

  /** The stages an action can lead to short of closing. */
  function Successors(action: Action): set<Stage> {
    match action
    case Start => {Probing}
    case Probe(_) => {Locking}
    case Lock(_) => {Reprobing}
    case Reprobe(_) => {Inspecting}
    case Inspect(_) => {Unlinking, Binding}
    case Unlink(_) => {Binding}
    case Bind(_) => {Listening}
    case Listen(_) => {Restricting}
    case Restrict(_) => {Serving}
    case Stop => {Removing}
    case _ => {}
  }
}
