/** The destination policy `Egress::is_blocked`, against a list of CIDR prefixes. */
module Egress {
  import opened Wire
  import opened Net

  datatype Policy = Policy(blockLoopback: bool, blockLinkLocal: bool, blockPrivate: bool)

  /** Bitwise AND. */
  function And(a: nat, b: nat): nat {
    if a == 0 || b == 0 then 0 else (if a % 2 == 1 && b % 2 == 1 then 1 else 0) + 2 * And(a / 2, b / 2)
  }

  function Segment0(v6: Octets16): nat {
    256 * v6[0] as nat + v6[1] as nat
  }

  predicate IsBlockedV4(p: Policy, o: Octets4) {
    || o == [0, 0, 0, 0]
    || (p.blockLoopback && (o[0] == 127 || o[0] == 0))
    || (p.blockLinkLocal && o[0] == 169 && o[1] == 254)
    || (p.blockPrivate
        && (|| o[0] == 10
            || (o[0] == 172 && 16 <= o[1] <= 31)
            || (o[0] == 192 && o[1] == 168)
            || (o[0] == 100 && And(o[1], 0xC0) == 64)))
  }

  /** `Egress::is_blocked`. */
  predicate IsBlocked(p: Policy, ip: IpAddr) {
    match ip
    case IpV4(v4) => IsBlockedV4(p, v4)
    case IpV6(v6) =>
      || v6 == Compatible([0, 0, 0, 0]).v6
      || (p.blockLoopback && v6 == Compatible([0, 0, 0, 1]).v6)
      || (p.blockLinkLocal && And(Segment0(v6), 0xFFC0) == 0xFE80)
      || (p.blockPrivate && And(Segment0(v6), 0xFE00) == 0xFC00)
      || match ToIpv4(v6)
         case Some(v4) => IsBlockedV4(p, v4)
         case None => false
  }

  // ---- Prefixes ----

  /** `x >> k`. */
  function Shr(x: nat, k: nat): nat {
    if k == 0 then x else Shr(x, k - 1) / 2
  }

  /** `x << k`. */
  function Shl(x: nat, k: nat): nat {
    if k == 0 then x else 2 * Shl(x, k - 1)
  }

  /** Bit `j` of a byte, most significant first. */
  function ByteBit(b: Byte, j: nat): nat
    requires j < 8
  {
    Shr(b, 7 - j) % 2
  }

  /** Bit `i` of an address, most significant first. */
  function Bit(o: Bytes, i: nat): nat
    requires i < 8 * |o|
  {
    ByteBit(o[i / 8], i % 8)
  }

  datatype Prefix = Prefix4(base4: Octets4, length: nat) | Prefix6(base6: Octets16, length: nat)

  predicate SameBits(o: Bytes, base: Bytes, n: nat)
    requires |o| == |base|
  {
    n <= 8 * |o| && forall i :: 0 <= i < n ==> Bit(o, i) == Bit(base, i)
  }

  /** An address is in a prefix when it has its family and its leading bits. */
  predicate Contains(prefix: Prefix, ip: IpAddr) {
    match prefix
    case Prefix4(base, n) => ip.IpV4? && SameBits(ip.v4, base, n)
    case Prefix6(base, n) => ip.IpV6? && SameBits(ip.v6, base, n)
  }

  function V6Base(first: Byte, second: Byte): Octets16 {
    [first, second, 0, 0, 0, 0, 0, 0, 0, 0, 0, 0, 0, 0, 0, 0]
  }

  datatype Class = Unspecified | Loopback | LinkLocal | Private

  function Prefixes(class_: Class): set<Prefix> {
    match class_
    case Unspecified => {Prefix4([0, 0, 0, 0], 32)}
    case Loopback => {Prefix4([127, 0, 0, 0], 8), Prefix4([0, 0, 0, 0], 8)}
    case LinkLocal => {Prefix4([169, 254, 0, 0], 16), Prefix6(V6Base(0xFE, 0x80), 10)}
    case Private =>
      {Prefix4([10, 0, 0, 0], 8), Prefix4([172, 16, 0, 0], 12), Prefix4([192, 168, 0, 0], 16),
       Prefix4([100, 64, 0, 0], 10), Prefix6(V6Base(0xFC, 0), 7)}
  }

  /** The unspecified address is always refused. */
  predicate Refuses(p: Policy, class_: Class) {
    match class_
    case Unspecified => true
    case Loopback => p.blockLoopback
    case LinkLocal => p.blockLinkLocal
    case Private => p.blockPrivate
  }

  predicate InClass(class_: Class, ip: IpAddr) {
    exists prefix :: prefix in Prefixes(class_) && Contains(prefix, ip)
  }

  /** The union of the prefixes of the refused classes. */
  predicate InRefused(p: Policy, ip: IpAddr) {
    exists class_ :: Refuses(p, class_) && InClass(class_, ip)
  }

  /** The address a destination stands for: IPv4 embedded in IPv6 is that IPv4 address. */
  function Folded(ip: IpAddr): IpAddr {
    if ip.IpV6? && ToIpv4(ip.v6).Some? then IpV4(ToIpv4(ip.v6).value) else ip
  }

  /** A destination is blocked exactly when the address it stands for lies in a refused prefix. */
  lemma BlockedIffInRefusedPrefix(p: Policy, ip: IpAddr)
    ensures IsBlocked(p, ip) <==> InRefused(p, Folded(ip))
  {
    match Folded(ip)
    case IpV4(o) =>
      BlockedV4(p, o);
      if ip.IpV6? {
        FoldedVerdict(p, ip.v6);
      }
    case IpV6(o) =>
      BlockedV6(p, o);
  }

  /** Both IPv6 spellings of an IPv4 address get its verdict. */
  lemma EmbeddedFormsAgree(p: Policy, v4: Octets4)
    ensures IsBlocked(p, Mapped(v4)) <==> IsBlocked(p, IpV4(v4))
    ensures IsBlocked(p, Compatible(v4)) <==> IsBlocked(p, IpV4(v4))
  {
    BlockedIffInRefusedPrefix(p, IpV4(v4));
    BlockedIffInRefusedPrefix(p, Mapped(v4));
    BlockedIffInRefusedPrefix(p, Compatible(v4));
    assert Mapped(v4).v6[12..] == v4 && Mapped(v4).v6[..10] == ZERO10;
    assert Compatible(v4).v6[12..] == v4 && Compatible(v4).v6[..10] == ZERO10;
  }

  /** No policy refuses an address under 2000::/8. */
  lemma GlobalUnicastPasses(p: Policy, o: Octets16)
    requires o[0] == 0x20
    ensures !IsBlocked(p, IpV6(o))
  {
    BlockedIffInRefusedPrefix(p, IpV6(o));
    assert o[..10][0] == 0x20;
    RefusedV6(p, o);
    FirstByte(o, V6Base(0xFE, 0x80));
    SameBitsByByte(o, V6Base(0xFC, 0), 0, 7);
  }

  predicate AtLeast(strict: Policy, lax: Policy) {
    && (lax.blockLoopback ==> strict.blockLoopback)
    && (lax.blockLinkLocal ==> strict.blockLinkLocal)
    && (lax.blockPrivate ==> strict.blockPrivate)
  }

  /** Enabling a class never unblocks a destination. */
  lemma BlockingIsMonotone(strict: Policy, lax: Policy, ip: IpAddr)
    requires AtLeast(strict, lax) && IsBlocked(lax, ip)
    ensures IsBlocked(strict, ip)
  {
    BlockedIffInRefusedPrefix(lax, ip);
    BlockedIffInRefusedPrefix(strict, ip);
    var class_ :| Refuses(lax, class_) && InClass(class_, Folded(ip));
    assert Refuses(strict, class_);
  }

  /** The IPv4 rules, read as prefixes. */
  lemma BlockedV4(p: Policy, o: Octets4)
    ensures IsBlockedV4(p, o) <==> InRefused(p, IpV4(o))
  {
    UnspecifiedV4(o);
    LoopbackV4(o);
    LinkLocalV4(o);
    PrivateV4(o);
    assert Refuses(p, Unspecified);
    assert p.blockLoopback <==> Refuses(p, Loopback);
    assert p.blockLinkLocal <==> Refuses(p, LinkLocal);
    assert p.blockPrivate <==> Refuses(p, Private);
  }

  lemma UnspecifiedV4(o: Octets4)
    ensures InClass(Unspecified, IpV4(o)) <==> o == [0, 0, 0, 0]
  {
    WholeBytes(o, [0, 0, 0, 0], 4);
    assert o[..4] == o;
    var prefix := Prefix4([0, 0, 0, 0], 32);
    assert prefix in Prefixes(Unspecified);
    assert Contains(prefix, IpV4(o)) <==> o == [0, 0, 0, 0];
  }

  lemma LoopbackV4(o: Octets4)
    ensures InClass(Loopback, IpV4(o)) <==> o[0] == 127 || o[0] == 0
  {
    FirstByte(o, [127, 0, 0, 0]);
    FirstByte(o, [0, 0, 0, 0]);
    var a, b := Prefix4([127, 0, 0, 0], 8), Prefix4([0, 0, 0, 0], 8);
    assert Prefixes(Loopback) == {a, b};
    assert Contains(a, IpV4(o)) <==> o[0] == 127;
    assert Contains(b, IpV4(o)) <==> o[0] == 0;
  }

  lemma LinkLocalV4(o: Octets4)
    ensures InClass(LinkLocal, IpV4(o)) <==> o[0] == 169 && o[1] == 254
  {
    FirstTwo(o, [169, 254, 0, 0], 8);
    var a, b := Prefix4([169, 254, 0, 0], 16), Prefix6(V6Base(0xFE, 0x80), 10);
    assert Prefixes(LinkLocal) == {a, b};
    assert Contains(a, IpV4(o)) <==> o[0] == 169 && o[1] == 254;
  }

  lemma PrivateV4(o: Octets4)
    ensures InClass(Private, IpV4(o)) <==>
      || o[0] == 10
      || (o[0] == 172 && 16 <= o[1] <= 31)
      || (o[0] == 192 && o[1] == 168)
      || (o[0] == 100 && And(o[1], 0xC0) == 64)
  {
    PrivateParts(o);
    var a, b := Prefix4([10, 0, 0, 0], 8), Prefix4([172, 16, 0, 0], 12);
    var c, d := Prefix4([192, 168, 0, 0], 16), Prefix4([100, 64, 0, 0], 10);
    assert Prefixes(Private) == {a, b, c, d, Prefix6(V6Base(0xFC, 0), 7)};
    var ip := IpV4(o);
    assert InClass(Private, ip) <==> Contains(a, ip) || Contains(b, ip) || Contains(c, ip) || Contains(d, ip);
  }

  lemma PrivateParts(o: Octets4)
    ensures Contains(Prefix4([10, 0, 0, 0], 8), IpV4(o)) <==> o[0] == 10
    ensures Contains(Prefix4([172, 16, 0, 0], 12), IpV4(o)) <==> o[0] == 172 && 16 <= o[1] <= 31
    ensures Contains(Prefix4([192, 168, 0, 0], 16), IpV4(o)) <==> o[0] == 192 && o[1] == 168
    ensures Contains(Prefix4([100, 64, 0, 0], 10), IpV4(o)) <==> o[0] == 100 && And(o[1], 0xC0) == 64
  {
    FirstByte(o, [10, 0, 0, 0]);
    FirstTwo(o, [172, 16, 0, 0], 4);
    FirstTwo(o, [192, 168, 0, 0], 8);
    FirstTwo(o, [100, 64, 0, 0], 2);
    ShrTable(o[1]);
    ShrTable(16);
    ShrTable(64);
    CarrierMask(o[1]);
  }

  lemma CarrierMask(b: Byte)
    ensures And(b, 0xC0) == 64 <==> b / 64 == 1
  {
    ShrTable(b);
    AndShifted(b, 3, 6);
    AndOnes(b / 64, 2);
    ShlTable(3);
    ShlTable(b / 64);
  }

  lemma FirstByte(o: Bytes, base: Bytes)
    requires |o| == |base| >= 1
    ensures SameBits(o, base, 8) <==> o[0] == base[0]
  {
    SameBitsByByte(o, base, 0, 8);
  }

  lemma FirstTwo(o: Bytes, base: Bytes, t: nat)
    requires |o| == |base| >= 2 && t <= 8
    ensures SameBits(o, base, 8 + t) <==> o[0] == base[0] && Shr(o[1], 8 - t) == Shr(base[1], 8 - t)
  {
    FirstByte(o, base);
    SameBitsByByte(o, base, 1, t);
  }

  /** The native IPv6 rules, read as prefixes. */
  lemma BlockedV6(p: Policy, o: Octets16)
    requires ToIpv4(o).None?
    ensures IsBlocked(p, IpV6(o)) <==> InRefused(p, IpV6(o))
  {
    RefusedV6(p, o);
    LinkLocalMask(o);
    UniqueLocalMask(o);
    assert Compatible([0, 0, 0, 0]).v6[..10] == ZERO10 && Compatible([0, 0, 0, 1]).v6[..10] == ZERO10;
    assert Compatible([0, 0, 0, 0]).v6[10..12] == [0, 0] && Compatible([0, 0, 0, 1]).v6[10..12] == [0, 0];
  }

  predicate Has6(o: Octets16, a: Byte, b: Byte, n: nat) {
    SameBits(o, V6Base(a, b), n)
  }

  lemma RefusedV6(p: Policy, o: Octets16)
    ensures InRefused(p, IpV6(o))
      <==> (p.blockLinkLocal && Has6(o, 0xFE, 0x80, 10)) || (p.blockPrivate && Has6(o, 0xFC, 0, 7))
  {
    var a, b := Prefix6(V6Base(0xFE, 0x80), 10), Prefix6(V6Base(0xFC, 0), 7);
    assert a in Prefixes(LinkLocal) && b in Prefixes(Private);
    assert Contains(a, IpV6(o)) <==> Has6(o, 0xFE, 0x80, 10);
    assert Contains(b, IpV6(o)) <==> Has6(o, 0xFC, 0, 7);
    assert p.blockLinkLocal <==> Refuses(p, LinkLocal);
    assert p.blockPrivate <==> Refuses(p, Private);
  }

  lemma LinkLocalMask(o: Octets16)
    ensures Has6(o, 0xFE, 0x80, 10) <==> And(Segment0(o), 0xFFC0) == 0xFE80
  {
    FirstTwo(o, V6Base(0xFE, 0x80), 2);
    ShrTable(o[1]);
    ShrTable(0x80);
    SegmentMask(Segment0(o), 6, 0x3FF, 10);
    assert Segment0(o) / 64 == 4 * o[0] as nat + o[1] as nat / 64;
  }

  lemma UniqueLocalMask(o: Octets16)
    ensures Has6(o, 0xFC, 0, 7) <==> And(Segment0(o), 0xFE00) == 0xFC00
  {
    SameBitsByByte(o, V6Base(0xFC, 0), 0, 7);
    assert Shr(o[0], 1) == o[0] / 2 && Shr(0xFC, 1) == 0x7E;
    SegmentMask(Segment0(o), 9, 0x7F, 7);
    assert Segment0(o) / 512 == o[0] as nat / 2;
  }

  lemma SegmentMask(segment: nat, k: nat, ones: nat, w: nat)
    requires segment < 0x1_0000
    requires (k, ones, w) == (6, 0x3FF, 10) || (k, ones, w) == (9, 0x7F, 7)
    ensures k == 6 ==> And(segment, 0xFFC0) == 64 * (segment / 64)
    ensures k == 9 ==> And(segment, 0xFE00) == 512 * (segment / 512)
  {
    ShrTable(segment);
    AndShifted(segment, ones, k);
    AndOnes(0, w);
    AndOnes(Shr(segment, k), w);
    ShlTable(ones);
    ShlTable(Shr(segment, k));
  }

  /** For an embedded IPv4 address the native rules add nothing to the IPv4 ones. */
  lemma FoldedVerdict(p: Policy, v6: Octets16)
    requires ToIpv4(v6).Some?
    ensures IsBlocked(p, IpV6(v6)) <==> IsBlockedV4(p, ToIpv4(v6).value)
  {
    assert v6[0] == v6[..10][0] && v6[1] == v6[..10][1];
    assert And(Segment0(v6), 0xFFC0) == 0 && And(Segment0(v6), 0xFE00) == 0;
    assert Compatible([0, 0, 0, 0]).v6[12..] == [0, 0, 0, 0];
    assert Compatible([0, 0, 0, 1]).v6[12..] == [0, 0, 0, 1];
  }

  // ---- Masks and prefixes, byte by byte ----

  function Ones(w: nat): nat {
    if w == 0 then 0 else 2 * Ones(w - 1) + 1
  }

  lemma AndOnes(y: nat, w: nat)
    requires y <= Ones(w)
    ensures And(y, Ones(w)) == y
    ensures Ones(2) == 3 && Ones(7) == 0x7F && Ones(10) == 0x3FF
  {
    assert Ones(4) == 15;
    assert Ones(7) == 0x7F;
    if w > 0 {
      AndOnes(y / 2, w - 1);
    }
  }

  /** Masking above bit `k` is masking the shifted value. */
  lemma AndShifted(x: nat, m: nat, k: nat)
    ensures And(x, Shl(m, k)) == Shl(And(Shr(x, k), m), k)
  {
    if k > 0 {
      AndShifted(x / 2, m, k - 1);
      HalfFirst(x, k);
      AndEven(x, Shl(m, k - 1));
    }
  }

  lemma AndEven(x: nat, n: nat)
    ensures And(x, 2 * n) == 2 * And(x / 2, n)
  {
  }

  lemma HalfFirst(x: nat, k: nat)
    requires k > 0
    ensures Shr(x / 2, k - 1) == Shr(x, k)
  {
    if k > 1 {
      HalfFirst(x, k - 1);
    }
  }

  lemma ShrTable(x: nat)
    ensures Shr(x, 4) == x / 16 && Shr(x, 6) == x / 64 && Shr(x, 8) == x / 256 && Shr(x, 9) == x / 512
  {
    assert Shr(x, 1) == x / 2;
    assert Shr(x, 2) == x / 4;
    assert Shr(x, 3) == x / 8;
    assert Shr(x, 4) == x / 16;
    assert Shr(x, 5) == x / 32;
    assert Shr(x, 6) == x / 64;
    assert Shr(x, 7) == x / 128;
    assert Shr(x, 8) == x / 256;
  }

  lemma ShlTable(x: nat)
    ensures Shl(x, 6) == 64 * x && Shl(x, 9) == 512 * x
  {
    assert Shl(x, 1) == 2 * x;
    assert Shl(x, 3) == 8 * x;
    assert Shl(x, 5) == 32 * x;
    assert Shl(x, 7) == 128 * x;
  }

  /** Bytes agree in their top `t` bits exactly when they agree after dropping the rest. */
  lemma TopBits(a: Byte, b: Byte, t: nat)
    requires t <= 8
    ensures (forall j :: 0 <= j < t ==> ByteBit(a, j) == ByteBit(b, j)) <==> Shr(a, 8 - t) == Shr(b, 8 - t)
  {
    if t == 0 {
      ShrTable(a);
      ShrTable(b);
    } else {
      TopBits(a, b, t - 1);
      assert ByteBit(a, t - 1) == Shr(a, 8 - t) % 2 && ByteBit(b, t - 1) == Shr(b, 8 - t) % 2;
    }
  }

  /** A prefix is some whole bytes and the top of the next. */
  lemma SameBitsByByte(o: Bytes, base: Bytes, k: nat, t: nat)
    requires |o| == |base| && k < |o| && t <= 8
    ensures SameBits(o, base, 8 * k + t)
      <==> (k == 0 || SameBits(o, base, 8 * k)) && Shr(o[k], 8 - t) == Shr(base[k], 8 - t)
  {
    TopBits(o[k], base[k], t);
    BitsOfByte(o, k);
    BitsOfByte(base, k);
    if SameBits(o, base, 8 * k + t) {
      forall j | 0 <= j < t ensures ByteBit(o[k], j) == ByteBit(base[k], j) {
        assert Bit(o, 8 * k + j) == Bit(base, 8 * k + j);
      }
    }
    if (k == 0 || SameBits(o, base, 8 * k)) && Shr(o[k], 8 - t) == Shr(base[k], 8 - t) {
      forall i | 0 <= i < 8 * k + t ensures Bit(o, i) == Bit(base, i) {
        if i >= 8 * k {
          assert ByteBit(o[k], i - 8 * k) == ByteBit(base[k], i - 8 * k);
        }
      }
    }
  }

  lemma BitsOfByte(o: Bytes, k: nat)
    requires k < |o|
    ensures forall j :: 0 <= j < 8 ==> Bit(o, 8 * k + j) == ByteBit(o[k], j)
  {
    forall j | 0 <= j < 8 ensures Bit(o, 8 * k + j) == ByteBit(o[k], j) {
      assert (8 * k + j) / 8 == k && (8 * k + j) % 8 == j;
    }
  }

  lemma WholeBytes(o: Bytes, base: Bytes, k: nat)
    requires |o| == |base| && k <= |o|
    ensures SameBits(o, base, 8 * k) <==> o[..k] == base[..k]
  {
    if k > 0 {
      WholeBytes(o, base, k - 1);
      SameBitsByByte(o, base, k - 1, 8);
      assert o[..k] == o[..k - 1] + [o[k - 1]];
      assert base[..k] == base[..k - 1] + [base[k - 1]];
    }
  }
}
