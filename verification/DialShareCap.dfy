/** The divisor of a share saturates at `u32::MAX`; beyond that many candidates the fair share
    fails, for every list of candidates. */
module DialShareCap {
  import opened Wire
  import opened Net
  import opened Arithmetic
  import opened DialScheduler
  import opened DialFairness
  import Egress

  function Pow(b: nat, e: nat): (p: nat)
    ensures b > 0 ==> p > 0
  {
    if e == 0 then 1 else b * Pow(b, e - 1)
  }

  function AfterShare(left: nat, divisor: nat): (rest: nat)
    requires divisor > 0
    ensures rest <= left
  {
    QuotientSmaller(left, divisor);
    left - left / divisor
  }

  /** What is left of `r` after `k` of `n` candidates ran into their deadlines. */
  function Leftover(r: nat, n: nat, k: nat): (left: nat)
    requires k <= n
    ensures left <= r
  {
    if k == 0 then r else AfterShare(Leftover(r, n, k - 1), Divisor(n - k))
  }

  lemma CappedStep(M: nat, n: nat, a: nat, b: nat)
    requires M > 1
    ensures AfterShare(n * (a * (M * b)), M) == n * (((M - 1) * a) * b)
  {
    var q := n * (a * b);
    Swap(a, M, b);
    Swap(n, M, a * b);
    QuotientUnique(M * q, M, q);
    Distribute(q, M - 1, 1);
    Swap(M - 1, n, a * b);
    Associate(M - 1, a, b);
  }

  /** While more than `U32_MAX` are outstanding, a timeout takes one part in `U32_MAX`. */
  lemma {:induction false} LeftoverCapped(n: nat, over: nat, k: nat)
    requires n == U32_MAX + over && k <= over
    ensures Leftover(n * Pow(U32_MAX, over + 1), n, k) == n * (Pow(U32_MAX - 1, k) * Pow(U32_MAX, over + 1 - k))
  {
    if k == 0 {
      assert Pow(U32_MAX - 1, 0) * Pow(U32_MAX, over + 1) == Pow(U32_MAX, over + 1);
    } else {
      LeftoverCapped(n, over, k - 1);
      CappedStep(U32_MAX, n, Pow(U32_MAX - 1, k - 1), Pow(U32_MAX, over + 1 - k));
    }
  }

  /** Bernoulli: taking one part in `M`, `over` times, undershoots an equal split. */
  lemma {:induction false} Undershoots(M: nat, over: nat)
    requires M > 1 && over > 0
    ensures (M + over) * Pow(M - 1, over) < Pow(M, over + 1)
  {
    var p := Pow(M - 1, over - 1);
    UndershootsStep(M, over, p);
    if over == 1 {
      assert Pow(M, 1) == M * Pow(M, 0) == M;
    } else {
      Undershoots(M, over - 1);
      MulMonotone((M + over - 1) * p, Pow(M, over), M);
    }
  }

  lemma UndershootsStep(M: nat, over: nat, p: nat)
    requires M > 1 && over > 0 && p > 0
    ensures (M + over) * ((M - 1) * p) < ((M + over - 1) * p) * M
  {
    var x := M + over;
    var a, b := x * (M - 1), (x - 1) * M;
    Crossed(x, M);
    Associate(x, M - 1, p);
    Associate(x - 1, p, M);
    Associate(x - 1, M, p);
    assert p * M == M * p;
    Grows(a, b, p);
  }

  lemma Crossed(x: nat, M: nat)
    requires x > M > 1
    ensures x * (M - 1) < (x - 1) * M
  {
    Distribute(x, M - 1, 1);
    Distribute(M, x - 1, 1);
  }

  lemma Grows(a: nat, b: nat, p: nat)
    requires a < b && p > 0
    ensures a * p < b * p
  {
    MulMonotone(a + 1, b, p);
  }

  // ---- The run in which every attempt times out ----

  /** Distinct addresses, all permitted. */
  predicate Crowd(permitted: SocketAddr -> bool, crowd: seq<SocketAddr>) {
    NoDuplicates(crowd) && forall a :: a in crowd ==> permitted(a)
  }

  function Timeout(r: nat, n: nat, k: nat): Wake
    requires k < n
  {
    var at := r - Leftover(r, n, k + 1);
    Wake(at, at, AttemptTimer)
  }

  function Timeouts(r: nat, n: nat, k: nat): seq<Wake>
    requires k <= n
  {
    Wakes((i: nat) requires i < n => Timeout(r, n, i), k)
  }

  function Wakes(wake: nat --> Wake, k: nat): seq<Wake>
    requires forall i: nat :: i < k ==> wake.requires(i)
  {
    if k == 0 then [] else Wakes(wake, k - 1) + [wake(k - 1)]
  }

  /** What each wake-up in turn carries on holds at the end. */
  lemma {:induction false} WakesCarry(cfg: Config, s: State, wake: nat --> Wake, holds: (nat, State) -> bool, k: nat)
    requires forall i: nat :: i < k ==> wake.requires(i)
    requires holds(0, s)
    requires forall i: nat, t :: i < k && holds(i, t) ==> Punctual(t, wake(i)) && holds(i + 1, Step(cfg, t, wake(i)))
    ensures PunctualRun(cfg, s, Wakes(wake, k)) && holds(k, Run(cfg, s, Wakes(wake, k)))
  {
    if k > 0 {
      WakesCarry(cfg, s, wake, holds, k - 1);
      RunExtends(cfg, s, Wakes(wake, k - 1), wake(k - 1));
    }
  }

  /** All candidates arrive at once, at instant 0 of a search with total deadline `cfg.deadline`. */
  function Started(cfg: Config, crowd: seq<SocketAddr>): State {
    Run(cfg, Init(cfg, 0), [Wake(0, 0, Answer(Aaaa, Some(crowd)))])
  }

  lemma {:induction false} CrowdIsFresh(permitted: SocketAddr -> bool, crowd: seq<SocketAddr>)
    requires Crowd(permitted, crowd)
    ensures Fresh(permitted, crowd, {}) == crowd
  {
    if crowd != [] {
      var n := |crowd| - 1;
      CrowdIsFresh(permitted, crowd[..n]);
      assert crowd == crowd[..n] + [crowd[n]];
    }
  }

  /** After `k` timeouts: who is being dialled, until when, and what it was granted. */
  ghost predicate Waited(cfg: Config, crowd: seq<SocketAddr>, k: nat, s: State)
    requires k < |crowd|
  {
    && s.outcome.None? && s.active.Some?
    && s.queue == crowd[k + 1..]
    && s.clock == cfg.deadline - Leftover(cfg.deadline, |crowd|, k)
    && s.attemptDeadline == Share(cfg.deadline, s.clock, |crowd| - k - 1)
    && |s.grants| == k + 1
    && s.grants[k] == s.attemptDeadline - s.clock
  }

  lemma {:induction false} AnswerStarts(cfg: Config, crowd: seq<SocketAddr>)
    ensures Started(cfg, crowd) == Top(cfg, OnAnswer(cfg, Init(cfg, 0), 0, Aaaa, Some(crowd)), 0)
  {
    var w := Wake(0, 0, Answer(Aaaa, Some(crowd)));
    assert [w][..0] == [];
    assert Run(cfg, Init(cfg, 0), []) == Init(cfg, 0);
    assert Started(cfg, crowd) == Step(cfg, Init(cfg, 0), w);
  }

  lemma {:induction false} StartedWaits(cfg: Config, crowd: seq<SocketAddr>)
    requires crowd != [] && Crowd(cfg.permitted, crowd)
    ensures Waited(cfg, crowd, 0, Started(cfg, crowd))
  {
    CrowdIsFresh(cfg.permitted, crowd);
    AnswerStarts(cfg, crowd);
    var s := OnAnswer(cfg, Init(cfg, 0), 0, Aaaa, Some(crowd));
    assert s.queue == crowd && s.grants == [] && s.active.None? && s.outcome.None?;
  }

  /** The attempt that times out leaves what is left over. */
  lemma {:induction false} TimeoutComesAt(cfg: Config, crowd: seq<SocketAddr>, k: nat, s: State)
    requires k < |crowd| && Waited(cfg, crowd, k, s)
    ensures s.attemptDeadline == cfg.deadline - Leftover(cfg.deadline, |crowd|, k + 1)
  {
    var left := Leftover(cfg.deadline, |crowd|, k);
    assert Leftover(cfg.deadline, |crowd|, k + 1) == AfterShare(left, Divisor(|crowd| - k - 1));
  }

  lemma {:induction false} TimeoutWaits(cfg: Config, crowd: seq<SocketAddr>, k: nat, s: State)
    requires k + 1 < |crowd| && Waited(cfg, crowd, k, s)
    ensures Punctual(s, Timeout(cfg.deadline, |crowd|, k))
    ensures var t := Step(cfg, s, Timeout(cfg.deadline, |crowd|, k));
      Waited(cfg, crowd, k + 1, t) && t.seen == s.seen
  {
    TimeoutComesAt(cfg, crowd, k, s);
    assert crowd[k + 1..][1..] == crowd[k + 2..];
    var now := s.attemptDeadline;
    assert Step(cfg, s, Timeout(cfg.deadline, |crowd|, k)) == Top(cfg, OnAttemptEnd(s, now, Some(TimedOut)), now);
  }

  lemma {:induction false} AllTimeOut(cfg: Config, crowd: seq<SocketAddr>, s: State, k: nat)
    requires k < |crowd| && Waited(cfg, crowd, 0, s)
    ensures PunctualRun(cfg, s, Timeouts(cfg.deadline, |crowd|, k))
    ensures var t := Run(cfg, s, Timeouts(cfg.deadline, |crowd|, k));
      Waited(cfg, crowd, k, t) && t.seen == s.seen
  {
    var r, n := cfg.deadline, |crowd|;
    var wake := (i: nat) requires i < n => Timeout(r, n, i);
    var holds := (i: nat, t: State) => i < n && Waited(cfg, crowd, i, t) && t.seen == s.seen;
    forall i: nat, t | i < k && holds(i, t) ensures Punctual(t, wake(i)) && holds(i + 1, Step(cfg, t, wake(i))) {
      TimeoutWaits(cfg, crowd, i, t);
    }
    WakesCarry(cfg, s, wake, holds, k);
  }

  lemma LastGrant(cfg: Config, crowd: seq<SocketAddr>, k: nat, s: State)
    requires k < |crowd| && Waited(cfg, crowd, k, s)
    ensures s.grants[k] == Leftover(cfg.deadline, |crowd|, k) / Divisor(|crowd| - k - 1)
  {
  }

  /** With the whole of `crowd` outstanding, and nothing added later, a punctual run in which some
      candidate is granted less than an equal share of what was left. */
  ghost predicate Unfair(cfg: Config, crowd: seq<SocketAddr>, schedule: seq<Wake>)
    requires crowd != []
  {
    var s := Started(cfg, crowd);
    && s.outcome.None? && s.active.Some? && |s.queue| + 1 == |crowd| && s.clock <= cfg.deadline
    && PunctualRun(cfg, s, schedule) && Run(cfg, s, schedule).seen == s.seen
    && !Granted(s, Run(cfg, s, schedule), (cfg.deadline - s.clock) / |crowd|)
  }

  /** If the candidate after `k` timeouts is left with too little, that is what it gets. */
  lemma {:induction false} TimeoutsShow(cfg: Config, crowd: seq<SocketAddr>, k: nat)
    requires Crowd(cfg.permitted, crowd) && 0 < k < |crowd|
    requires Leftover(cfg.deadline, |crowd|, k) / Divisor(|crowd| - k - 1) < cfg.deadline / |crowd|
    ensures Unfair(cfg, crowd, Timeouts(cfg.deadline, |crowd|, k))
  {
    var s := Started(cfg, crowd);
    StartedWaits(cfg, crowd);
    AllTimeOut(cfg, crowd, s, k);
    var t := Run(cfg, s, Timeouts(cfg.deadline, |crowd|, k));
    LastGrant(cfg, crowd, k, t);
    assert s.clock == 0;
    assert |s.grants| <= k < |t.grants| && t.grants[k] < cfg.deadline / |crowd|;
  }

  /** Whatever the policy: for every list of more than `u32::MAX` distinct permitted addresses there
      is a punctual run, with these outstanding and none added later, in which some candidate is
      granted less than `R / n`. */
  lemma {:induction false} FairShareFailsAboveCap(permitted: SocketAddr -> bool, crowd: seq<SocketAddr>)
    returns (r: nat, schedule: seq<Wake>)
    requires Crowd(permitted, crowd) && |crowd| > U32_MAX
    ensures Unfair(Config(permitted, r), crowd, schedule)
  {
    var over := |crowd| - U32_MAX;
    var fair := Pow(U32_MAX, over + 1);
    r := |crowd| * fair;
    schedule := Timeouts(r, |crowd|, over);
    LastShare(|crowd|, over);
    QuotientUnique(r, |crowd|, fair);
    TimeoutsShow(Config(permitted, r), crowd, over);
  }

  lemma LastShare(n: nat, over: nat)
    requires over > 0 && n == U32_MAX + over
    ensures Leftover(n * Pow(U32_MAX, over + 1), n, over) / Divisor(n - over - 1) < Pow(U32_MAX, over + 1)
  {
    LeftoverCapped(n, over, over);
    var share := n * Pow(U32_MAX - 1, over);
    assert Pow(U32_MAX, 1) == U32_MAX * Pow(U32_MAX, 0) == U32_MAX;
    Associate(n, Pow(U32_MAX - 1, over), U32_MAX);
    QuotientUnique(share * U32_MAX, U32_MAX, share);
    Undershoots(U32_MAX, over);
  }

  // ---- Such lists exist ----

  /** The last `k` base-256 digits of `i`. */
  function Digits(i: nat, k: nat): (d: Bytes)
    ensures |d| == k
  {
    if k == 0 then [] else Digits(i / 256, k - 1) + [i % 256]
  }

  lemma {:induction false} DigitsDiffer(i: nat, j: nat, k: nat)
    requires i < Pow(256, k) && j < Pow(256, k) && Digits(i, k) == Digits(j, k)
    ensures i == j
  {
    if k > 0 {
      var a, b := Digits(i / 256, k - 1), Digits(j / 256, k - 1);
      assert (a + [i % 256])[..k - 1] == a && (b + [j % 256])[..k - 1] == b;
      assert (a + [i % 256])[k - 1] == i % 256 && (b + [j % 256])[k - 1] == j % 256;
      DigitsDiffer(i / 256, j / 256, k - 1);
    }
  }

  /** Global unicast addresses under 2000::/8, as an AAAA answer for one port would list them. */
  function Host(i: nat): SocketAddr {
    SocketOf(IpV6([0x20] + Digits(i, 15)), 443)
  }

  lemma HostsDiffer(i: nat, j: nat)
    requires i < j < Pow(256, 15)
    ensures Host(i) != Host(j)
  {
    var a, b := Digits(i, 15), Digits(j, 15);
    if a == b {
      DigitsDiffer(i, j, 15);
    }
    assert ([0x20] + a)[1..] == a && ([0x20] + b)[1..] == b;
  }

  function Hosts(n: nat): seq<SocketAddr> {
    seq(n, i requires 0 <= i => Host(i))
  }

  /** For every number up to 2^120 there is such a list, permitted by every egress policy. */
  lemma {:induction false} CrowdsExist(policy: Egress.Policy, n: nat)
    requires n <= Pow(256, 15)
    ensures |Hosts(n)| == n && Crowd(ConfigOf(policy, 0).permitted, Hosts(n))
    ensures Pow(256, 15) == 0x1_000000_000000_000000_000000_000000
  {
    forall i: nat, j: nat | i < j < n ensures Host(i) != Host(j) {
      HostsDiffer(i, j);
    }
    forall i: nat | i < n ensures !Egress.IsBlocked(policy, Host(i).Ip()) {
      Egress.GlobalUnicastPasses(policy, [0x20] + Digits(i, 15));
    }
    PowTable();
  }

  lemma PowTable()
    ensures Pow(256, 15) == 0x1_000000_000000_000000_000000_000000
  {
    assert Pow(256, 3) == 0x100_0000;
    assert Pow(256, 6) == 0x1_0000_0000_0000;
    assert Pow(256, 9) == 0x100_0000_0000_0000_0000;
    assert Pow(256, 12) == 0x1_0000_0000_0000_0000_0000_0000;
  }
}
