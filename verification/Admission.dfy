/** Accept-time admission control: global and per-IP caps. */
module Admission {
  import opened Wire
  import opened Net

  datatype Limits = Limits(maxTotal: Option<nat>, maxPerIp: Option<nat>)

  datatype Op = Admit(ip: IpAddr) | Drop(ip: IpAddr)

  /** A cap that is already met. */
  predicate Full(limits: Limits, live: multiset<IpAddr>, ip: IpAddr) {
    || (limits.maxTotal.Some? && |live| >= limits.maxTotal.value)
    || (limits.maxPerIp.Some? && live[ip] >= limits.maxPerIp.value)
  }

  /** The live permits after one operation. */
  function After(limits: Limits, live: multiset<IpAddr>, op: Op): multiset<IpAddr> {
    match op
    case Admit(ip) => if Full(limits, live, ip) then live else live + multiset{ip}
    case Drop(ip) => live - multiset{ip}
  }

  /** The controller. `live` holds one element for each permit not yet dropped. */
  class Controller {
    const limits: Limits
    var total: nat
    var perIp: map<IpAddr, nat>
    ghost var live: multiset<IpAddr>

    /** The counters agree with the live permits, no entry is zero, and both caps hold. */
    ghost predicate Valid()
      reads this
    {
      && total == |live|
      && (forall ip :: ip in perIp <==> ip in live)
      && (forall ip :: ip in perIp ==> perIp[ip] == live[ip] > 0)
      && (limits.maxTotal.Some? ==> |live| <= limits.maxTotal.value)
      && (limits.maxPerIp.Some? ==> forall ip :: ip in live ==> live[ip] <= limits.maxPerIp.value)
    }

    constructor (limits: Limits)
      ensures Valid() && this.limits == limits && live == multiset{}
    {
      this.limits, total, perIp, live := limits, 0, map[], multiset{};
    }

    /** `try_admit`: refused exactly when a cap is already met. */
    method TryAdmit(ip: IpAddr) returns (admitted: bool)
      requires Valid()
      modifies this
      ensures Valid()
      ensures admitted <==>
        && (limits.maxTotal.Some? ==> |old(live)| < limits.maxTotal.value)
        && (limits.maxPerIp.Some? ==> old(live)[ip] < limits.maxPerIp.value)
      ensures live == if admitted then old(live) + multiset{ip} else old(live)
    {
      if limits.maxTotal.Some? && total >= limits.maxTotal.value {
        return false;
      }
      if limits.maxPerIp.Some? && (if ip in perIp then perIp[ip] else 0) >= limits.maxPerIp.value {
        return false;
      }
      total := total + 1;
      perIp := perIp[ip := (if ip in perIp then perIp[ip] else 0) + 1];
      live := live + multiset{ip};
      return true;
    }

    /** Dropping a live permit: the subtraction never saturates and the entry is always there. */
    method Release(ip: IpAddr)
      requires Valid() && ip in live
      modifies this
      ensures Valid()
      ensures live == old(live) - multiset{ip}
      ensures total == old(total) - 1
    {
      total := SaturatingSub(total, 1);
      if ip in perIp {
        perIp := perIp[ip := perIp[ip] - 1];
        if perIp[ip] == 0 {
          perIp := perIp - {ip};
        }
      }
      live := live - multiset{ip};
    }

    /** A connection arrives, or one that was admitted ends. */
    method Apply(op: Op)
      requires Valid()
      modifies this
      ensures Valid() && live == After(limits, old(live), op)
    {
      match op
      case Admit(ip) =>
        var _ := TryAdmit(ip);
      case Drop(ip) =>
        if ip in perIp {
          Release(ip);
        } else {
          assert live - multiset{ip} == live;
        }
    }
  }

  // ---- Every sequence of admissions and drops ----

  /** The live permits after `ops`; a permit can only be dropped while it is live. */
  function Live(limits: Limits, ops: seq<Op>): multiset<IpAddr> {
    if ops == [] then multiset{}
    else
      var before := Live(limits, ops[..|ops| - 1]);
      After(limits, before, ops[|ops| - 1])
  }

  /** The accept loop over any sequence of connections and disconnections: the counters are those
      of the live permits, and both caps hold at the end (and so after every prefix). */
  method Serve(limits: Limits, ops: seq<Op>) returns (total: nat, perIp: map<IpAddr, nat>)
    ensures total == |Live(limits, ops)|
    ensures forall ip :: (ip in perIp <==> ip in Live(limits, ops))
    ensures forall ip :: ip in perIp ==> perIp[ip] == Live(limits, ops)[ip]
    ensures limits.maxTotal.Some? ==> total <= limits.maxTotal.value
    ensures limits.maxPerIp.Some? ==> forall ip :: ip in perIp ==> perIp[ip] <= limits.maxPerIp.value
  {
    var c := new Controller(limits);
    for i := 0 to |ops|
      invariant c.Valid() && c.limits == limits && c.live == Live(limits, ops[..i])
    {
      assert ops[..i + 1][..i] == ops[..i];
      c.Apply(ops[i]);
    }
    assert ops[..|ops|] == ops;
    return c.total, c.perIp;
  }

  /** Admitting and dropping undo each other, so a freed slot can be taken again. */
  lemma {:induction false} SlotIsFreed(limits: Limits, ops: seq<Op>, ip: IpAddr)
    ensures var live := Live(limits, ops);
      !Full(limits, live, ip) ==> Live(limits, ops + [Admit(ip)] + [Drop(ip)]) == live
    ensures var live := Live(limits, ops);
      ip in live ==> !Full(limits, Live(limits, ops + [Drop(ip)]), ip)
  {
    var a, d := ops + [Admit(ip)], ops + [Drop(ip)];
    var ad := a + [Drop(ip)];
    assert ops + [Admit(ip)] + [Drop(ip)] == ad;
    assert a[..|ops|] == ops && d[..|ops|] == ops && ad[..|a|] == a;
    CapsHold(limits, ops, ip);
  }

  /** Both caps hold after every sequence of operations. */
  lemma {:induction false} CapsHold(limits: Limits, ops: seq<Op>, ip: IpAddr)
    ensures limits.maxTotal.Some? ==> |Live(limits, ops)| <= limits.maxTotal.value
    ensures limits.maxPerIp.Some? ==> Live(limits, ops)[ip] <= limits.maxPerIp.value
  {
    if ops != [] {
      CapsHold(limits, ops[..|ops| - 1], ip);
      var before := Live(limits, ops[..|ops| - 1]);
      if ops[|ops| - 1].Drop? && ops[|ops| - 1].ip !in before {
        assert before - multiset{ops[|ops| - 1].ip} == before;
      }
    }
  }
}
