/** The rotating port scan `bind_with_retry`. */
module PortScan {
  import opened Wire
  import opened Arithmetic

  const U32: nat := 0x1_0000_0000

  /** An inclusive range, as `PortRange::parse` admits it. */
  datatype PortRange = PortRange(start: nat, end: nat)
  {
    predicate Valid() {
      1 <= start <= end <= 0xFFFF
    }

    function Width(): (w: nat)
      requires Valid()
      ensures 1 <= w <= 0xFFFF
    {
      end - start + 1
    }
  }

  datatype BindOutcome = Bound | InUse | Denied | Unusable
  datatype BindError = Exhausted | Fatal

  /** The shared `AtomicU32`; `fetch_add` wraps around. */
  class PortCursor {
    var next: nat

    ghost predicate Valid()
      reads this
    {
      next < U32
    }

    constructor ()
      ensures Valid() && next == 0
    {
      next := 0;
    }

    method FetchAdd() returns (base: nat)
      requires Valid()
      modifies this
      ensures Valid() && base == old(next) && next == (old(next) + 1) % U32
    {
      base := next;
      next := (next + 1) % U32;
    }
  }

  /** The i-th port tried: `start + base.wrapping_add(i) % width`. */
  function ScannedPort(range: PortRange, base: nat, i: nat): (port: nat)
    requires range.Valid()
    ensures range.start <= port <= range.end
  {
    range.start + (base + i) % U32 % range.Width()
  }

  predicate Refused(outcome: BindOutcome) {
    outcome == InUse || outcome == Denied
  }

  /** `bind_with_retry`; `bind(i, port)` is how the i-th attempt fares, and port 0 asks the system
      for any free one. */
  method BindWithRetry(cursor: PortCursor, range: Option<PortRange>, bind: (nat, nat) -> BindOutcome)
    returns (r: Result<nat, BindError>, attempts: nat)
    requires cursor.Valid() && (range.Some? ==> range.value.Valid())
    modifies cursor
    ensures cursor.Valid()
    ensures range.None? ==> cursor.next == old(cursor.next) && attempts == 1
    ensures range.None? ==> r == if bind(0, 0) == Bound then Ok(0) else Err(Fatal)
    ensures range.Some? ==> cursor.next == (old(cursor.next) + 1) % U32
    ensures range.Some? ==> Scanned(range.value, old(cursor.next), bind, r, attempts)
  {
    if range.None? {
      r := if bind(0, 0) == Bound then Ok(0) else Err(Fatal);
      return r, 1;
    }
    var width := range.value.Width();
    var base := cursor.FetchAdd();
    attempts := 0;
    while attempts < width
      invariant attempts <= width
      invariant forall i :: 0 <= i < attempts ==> Refused(bind(i, ScannedPort(range.value, base, i)))
    {
      var port := ScannedPort(range.value, base, attempts);
      var outcome := bind(attempts, port);
      attempts := attempts + 1;
      if outcome == Bound {
        return Ok(port), attempts;
      } else if outcome == Unusable {
        return Err(Fatal), attempts;
      }
    }
    r := Err(Exhausted);
  }

  /** The result of a scan: all attempts but the last were refused, and the last decides; it is
      "exhausted" only when that was refused too and every offset was tried. */
  ghost predicate Scanned(range: PortRange, base: nat, bind: (nat, nat) -> BindOutcome,
                          r: Result<nat, BindError>, attempts: nat)
    requires range.Valid()
  {
    && 1 <= attempts <= range.Width()
    && (forall i :: 0 <= i < attempts - 1 ==> Refused(bind(i, ScannedPort(range, base, i))))
    && var last := ScannedPort(range, base, attempts - 1);
       match bind(attempts - 1, last)
       case Bound => r == Ok(last)
       case Unusable => r == Err(Fatal)
       case _ => r == Err(Exhausted) && attempts == range.Width()
  }

  // ---- Which scans try every port ----

  predicate Tries(range: PortRange, base: nat, port: nat)
    requires range.Valid()
  {
    exists i :: 0 <= i < range.Width() && ScannedPort(range, base, i) == port
  }

  predicate TriesAll(range: PortRange, base: nat)
    requires range.Valid()
  {
    forall port :: range.start <= port <= range.end ==> Tries(range, base, port)
  }

  predicate NeverRepeats(range: PortRange, base: nat)
    requires range.Valid()
  {
    forall i, j :: 0 <= i < j < range.Width() ==> ScannedPort(range, base, i) != ScannedPort(range, base, j)
  }

  /** The scan does not straddle the wrap of the cursor, or the wrap does not disturb it. */
  predicate Undisturbed(range: PortRange, base: nat)
    requires range.Valid()
  {
    base + range.Width() <= U32 || U32 % range.Width() == 0
  }

  /** A scan is a permutation of the range exactly when it is undisturbed: otherwise it both
      repeats a port and misses one. */
  lemma {:induction false} ScanIsPermutationIff(range: PortRange, base: nat)
    requires range.Valid() && base < U32
    ensures Undisturbed(range, base) <==> TriesAll(range, base)
    ensures Undisturbed(range, base) <==> NeverRepeats(range, base)
  {
    if Undisturbed(range, base) {
      forall port | range.start <= port <= range.end ensures Tries(range, base, port) {
        UndisturbedTries(range, base, port);
      }
      forall i, j | 0 <= i < j < range.Width()
        ensures ScannedPort(range, base, i) != ScannedPort(range, base, j)
      {
        UndisturbedDistinct(range, base, i, j);
      }
    } else {
      var missed := DisturbedMisses(range, base);
      var i, j := DisturbedRepeats(range, base);
    }
  }

  /** Adding less than a width to a residue wraps it at most once. */
  lemma {:induction false} AddResidue(a: nat, i: nat, w: nat)
    requires 0 < w && i < w
    ensures (a + i) % w == if a % w + i < w then a % w + i else a % w + i - w
  {
    Floor(a, w);
    var q, r := a / w, a % w;
    if r + i < w {
      QuotientUnique(a + i, w, q);
    } else {
      Distribute(w, q, 1);
      QuotientUnique(a + i, w, q + 1);
    }
  }

  lemma {:induction false} SubResidue(a: nat, d: nat, w: nat)
    requires 0 < w && d <= w && d <= a
    ensures (a - d) % w == if d <= a % w then a % w - d else a % w - d + w
  {
    if d < w {
      AddResidue(a - d, d, w);
    } else {
      AddResidue(a - d, 0, w);
      Floor(a - d, w);
      var q := (a - d) / w;
      assert w * (q + 1) == w * q + w;
      QuotientUnique(a, w, q + 1);
    }
  }

  lemma {:induction false} UndisturbedPort(range: PortRange, base: nat, i: nat)
    requires range.Valid() && base < U32 && Undisturbed(range, base) && i < range.Width()
    ensures ScannedPort(range, base, i) == range.start + (base + i) % range.Width()
  {
    if base + i >= U32 {
      QuotientUnique(base + i, U32, 1);
      AddMultiple(base + i - U32, U32, range.Width());
    } else {
      QuotientUnique(base + i, U32, 0);
    }
  }

  lemma {:induction false} AddMultiple(a: nat, m: nat, w: nat)
    requires 0 < w && m % w == 0
    ensures (a + m) % w == a % w
  {
    Floor(a, w);
    Floor(m, w);
    var p, q := a / w, m / w;
    Distribute(w, p, q);
    QuotientUnique(a + m, w, p + q);
  }

  lemma {:induction false} UndisturbedTries(range: PortRange, base: nat, port: nat)
    requires range.Valid() && base < U32 && Undisturbed(range, base) && range.start <= port <= range.end
    ensures Tries(range, base, port)
  {
    var w, t := range.Width(), port - range.start;
    var b := base % w;
    var i := if b <= t then t - b else t - b + w;
    AddResidue(base, i, w);
    UndisturbedPort(range, base, i);
  }

  lemma {:induction false} UndisturbedDistinct(range: PortRange, base: nat, i: nat, j: nat)
    requires range.Valid() && base < U32 && Undisturbed(range, base) && i < j < range.Width()
    ensures ScannedPort(range, base, i) != ScannedPort(range, base, j)
  {
    UndisturbedPort(range, base, i);
    UndisturbedPort(range, base, j);
    AddResidue(base, i, range.Width());
    AddResidue(base, j, range.Width());
  }

  /** Past the wrap a disturbed scan starts again at the first port; before it, it counts down to
      the residue of the wrap. */
  lemma {:induction false} DisturbedPort(range: PortRange, base: nat, i: nat)
    requires range.Valid() && base < U32 && base + range.Width() > U32 && i < range.Width()
    ensures var w, k, r := range.Width(), U32 - base, U32 % range.Width();
      ScannedPort(range, base, i) - range.start ==
        if i >= k then i - k else if k - i <= r then r - (k - i) else r - (k - i) + w
  {
    var w, k := range.Width(), U32 - base;
    if i >= k {
      QuotientUnique(base + i, U32, 1);
      QuotientUnique(i - k, w, 0);
    } else {
      QuotientUnique(base + i, U32, 0);
      SubResidue(U32, k - i, w);
    }
  }

  lemma DisturbedMisses(range: PortRange, base: nat) returns (port: nat)
    requires range.Valid() && base < U32 && !Undisturbed(range, base)
    ensures range.start <= port <= range.end && !Tries(range, base, port)
  {
    var w, k, r := range.Width(), U32 - base, U32 % range.Width();
    port := range.start + Max(r, w - k);
    forall i | 0 <= i < w ensures ScannedPort(range, base, i) != port {
      DisturbedPort(range, base, i);
    }
  }

  lemma DisturbedRepeats(range: PortRange, base: nat) returns (i: nat, j: nat)
    requires range.Valid() && base < U32 && !Undisturbed(range, base)
    ensures i < j < range.Width() && ScannedPort(range, base, i) == ScannedPort(range, base, j)
  {
    var k, r := U32 - base, U32 % range.Width();
    i, j := if r <= k then k - r else 0, if r <= k then k else r;
    DisturbedPort(range, base, i);
    DisturbedPort(range, base, j);
  }

  /** Some attempt at `port` was made and refused. */
  predicate WasRefused(range: PortRange, base: nat, bind: (nat, nat) -> BindOutcome, port: nat)
    requires range.Valid()
  {
    exists i :: 0 <= i < range.Width() && ScannedPort(range, base, i) == port && Refused(bind(i, port))
  }

  /** When every attempt of a scan is refused, which is when it reports "exhausted", every port of
      the range was refused exactly if the scan was undisturbed; a disturbed one left some out. */
  lemma ExhaustedMeansAllRefusedIff(range: PortRange, base: nat, bind: (nat, nat) -> BindOutcome)
    requires range.Valid() && base < U32
    requires forall i :: 0 <= i < range.Width() ==> Refused(bind(i, ScannedPort(range, base, i)))
    ensures Undisturbed(range, base)
      <==> forall port :: range.start <= port <= range.end ==> WasRefused(range, base, bind, port)
  {
    forall port ensures Tries(range, base, port) <==> WasRefused(range, base, bind, port) {
      TriedMeansRefused(range, base, bind, port);
    }
    ScanIsPermutationIff(range, base);
  }

  lemma TriedMeansRefused(range: PortRange, base: nat, bind: (nat, nat) -> BindOutcome, port: nat)
    requires range.Valid()
    requires forall i :: 0 <= i < range.Width() ==> Refused(bind(i, ScannedPort(range, base, i)))
    ensures Tries(range, base, port) <==> WasRefused(range, base, bind, port)
  {
    if Tries(range, base, port) {
      var i :| 0 <= i < range.Width() && ScannedPort(range, base, i) == port;
      assert Refused(bind(i, ScannedPort(range, base, i)));
    }
  }
}
