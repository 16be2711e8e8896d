/** SOCKS5 addresses and their codec (section 5 of RFC 1928). */
module Addressing {
  import opened Wire
  import Utf8

  datatype Address =
    | V4(octets4: Octets4, port: Port)
    | V6(octets16: Octets16, port: Port)
    | Domain(name: Bytes, port: Port)

  datatype AddrError = Truncated | BadAtyp(atyp: Byte) | BadDomain

  const ATYP_V4: Byte := 1
  const ATYP_DOMAIN: Byte := 3
  const ATYP_V6: Byte := 4

  /** `Address::decode`: the address at the front of `buf` and the bytes it takes up. */
  function Decode(buf: Bytes): (r: Result<(Address, nat), AddrError>)
    ensures r.Ok? ==> 7 <= r.value.1 <= |buf| || (r.value.0.Domain? && 4 <= r.value.1 <= |buf|)
  {
    if |buf| == 0 then Err(Truncated)
    else if buf[0] == ATYP_V4 then
      if |buf| < 7 then Err(Truncated)
      else Ok((V4(buf[1..5], PortOf(buf[5], buf[6])), 7))
    else if buf[0] == ATYP_V6 then
      if |buf| < 19 then Err(Truncated)
      else Ok((V6(buf[1..17], PortOf(buf[17], buf[18])), 19))
    else if buf[0] == ATYP_DOMAIN then
      if |buf| < 2 || |buf| < 4 + buf[1] as nat then Err(Truncated)
      else
        var n: nat := buf[1];
        if !Utf8.Valid(buf[2..2 + n]) then Err(BadDomain)
        else Ok((Domain(buf[2..2 + n], PortOf(buf[2 + n], buf[3 + n])), 4 + n))
    else Err(BadAtyp(buf[0]))
  }

  /** What `Address::encode` appends. The domain length is cast to `u8`, which truncates. */
  function Encoded(a: Address): Bytes {
    match a
    case V4(octets, port) => [ATYP_V4] + octets + PortBytes(port)
    case V6(octets, port) => [ATYP_V6] + octets + PortBytes(port)
    case Domain(name, port) => [ATYP_DOMAIN, |name| % 256] + name + PortBytes(port)
  }

  /** Why a non-empty buffer does not decode, if it is not cut short. */
  lemma DecodeErrors(buf: Bytes)
    requires buf != []
    ensures var r := Decode(buf);
      if buf[0] !in {1, 3, 4} then r == Err(BadAtyp(buf[0]))
      else if buf[0] == 3 && |buf| >= 2 && |buf| >= 4 + buf[1] as nat && !Utf8.Valid(buf[2..2 + buf[1] as nat])
      then r == Err(BadDomain)
      else r.Ok? || r == Err(Truncated)
  {
  }

  /** `Address::encode`. */
  method Encode(a: Address, out: ByteVec)
    modifies out
    ensures out.data == old(out.data) + Encoded(a)
  {
    ghost var before := out.data;
    match a
    case V4(octets, port) =>
      AppendsInTurn(before, [ATYP_V4], octets, PortBytes(port));
      out.Push(ATYP_V4);
      out.ExtendFromSlice(octets);
      out.ExtendFromSlice(PortBytes(port));
    case V6(octets, port) =>
      AppendsInTurn(before, [ATYP_V6], octets, PortBytes(port));
      out.Push(ATYP_V6);
      out.ExtendFromSlice(octets);
      out.ExtendFromSlice(PortBytes(port));
    case Domain(name, port) =>
      AppendsInTurn(before, [ATYP_DOMAIN, |name| % 256], name, PortBytes(port));
      out.Push(ATYP_DOMAIN);
      out.Push(|name| % 256);
      assert out.data == before + [ATYP_DOMAIN, |name| % 256];
      out.ExtendFromSlice(name);
      out.ExtendFromSlice(PortBytes(port));
  }

  /** The addresses the wire format can carry. */
  predicate Encodable(a: Address) {
    a.Domain? ==> |a.name| <= 255 && Utf8.Valid(a.name)
  }

  /** Decoding undoes encoding whatever follows, exactly for the addresses that fit the format. */
  lemma DecodeUndoesEncode(a: Address, tail: Bytes)
    ensures Decode(Encoded(a) + tail) == Ok((a, |Encoded(a)|)) <==> Encodable(a)
  {
    var buf := Encoded(a) + tail;
    match a
    case V4(octets, port) =>
      assert buf[1..5] == octets;
    case V6(octets, port) =>
      assert buf[1..17] == octets;
    case Domain(name, port) =>
      DecodeUndoesEncodeDomain(name, port, tail);
  }

  lemma DecodeUndoesEncodeDomain(name: Bytes, port: Port, tail: Bytes)
    ensures Decode(Encoded(Domain(name, port)) + tail) == Ok((Domain(name, port), 4 + |name|))
      <==> Encodable(Domain(name, port))
  {
    var buf := Encoded(Domain(name, port)) + tail;
    assert buf[0] == ATYP_DOMAIN && buf[1] == |name| % 256;
    if |name| <= 255 {
      assert buf[2..2 + |name|] == name;
      assert buf[2 + |name|] == PortBytes(port)[0] && buf[3 + |name|] == PortBytes(port)[1];
    } else if Decode(buf).Ok? {
      assert Decode(buf).value.1 == 4 + |name| % 256;
    }
  }

  lemma PrefixDecodes(buf: Bytes, a: Address)
    requires Encodable(a) && Encoded(a) <= buf
    ensures Decode(buf) == Ok((a, |Encoded(a)|))
  {
    var n := |Encoded(a)|;
    assert buf == buf[..n] + buf[n..] && buf[..n] == Encoded(a);
    DecodeUndoesEncode(a, buf[n..]);
  }

  /** Decoding succeeds with `a` exactly when the buffer starts with its encoding. */
  lemma DecodesIff(buf: Bytes, a: Address)
    ensures Decode(buf) == Ok((a, |Encoded(a)|)) <==> Encodable(a) && Encoded(a) <= buf
  {
    if Decode(buf) == Ok((a, |Encoded(a)|)) {
      EncodeUndoesDecode(buf);
    } else if Encodable(a) && Encoded(a) <= buf {
      PrefixDecodes(buf, a);
    }
  }

  /** Encoding undoes decoding: the consumed prefix is the encoding of the result, so
      re-encoding a decoded address recovers its length on the wire. */
  lemma {:induction false} EncodeUndoesDecode(buf: Bytes)
    requires Decode(buf).Ok?
    ensures Encodable(Decode(buf).value.0)
    ensures Encoded(Decode(buf).value.0) == buf[..Decode(buf).value.1]
  {
    if buf[0] == ATYP_V4 {
      SplitAddress(buf, 1, 7);
      assert buf[..1] == [ATYP_V4];
    } else if buf[0] == ATYP_V6 {
      SplitAddress(buf, 1, 19);
      assert buf[..1] == [ATYP_V6];
    } else {
      var n: nat := buf[1];
      EncodeUndoesDecodeDomain(buf);
      assert Decode(buf).value == (Domain(buf[2..2 + n], PortOf(buf[2 + n], buf[3 + n])), 4 + n);
    }
  }

  lemma EncodeUndoesDecodeDomain(buf: Bytes)
    requires |buf| >= 2 && buf[0] == ATYP_DOMAIN && |buf| >= 4 + buf[1] as nat
    ensures var n: nat := buf[1];
      Encoded(Domain(buf[2..2 + n], PortOf(buf[2 + n], buf[3 + n]))) == buf[..4 + n]
  {
    var n: nat := buf[1];
    var name := buf[2..2 + n];
    assert |name| == n && n % 256 == n;
    SplitAddress(buf, 2, 4 + n);
    assert buf[..2] == [ATYP_DOMAIN, buf[1]];
  }

  /** Every encoded address is a header, a body and two port bytes. */
  lemma SplitAddress(buf: Bytes, header: nat, n: nat)
    requires header + 2 <= n <= |buf|
    ensures buf[..n] == buf[..header] + buf[header..n - 2] + PortBytes(PortOf(buf[n - 2], buf[n - 1]))
  {
    assert buf[n - 2..n] == [buf[n - 2], buf[n - 1]];
  }

  /** More input never changes an answer other than "truncated". */
  lemma DecodeStable(buf: Bytes, more: Bytes)
    requires Decode(buf) != Err(Truncated)
    ensures Decode(buf + more) == Decode(buf)
  {
    var all := buf + more;
    if buf[0] == ATYP_V4 {
      assert all[1..5] == buf[1..5];
    } else if buf[0] == ATYP_V6 {
      assert all[1..17] == buf[1..17];
    } else if buf[0] == ATYP_DOMAIN {
      var n: nat := buf[1];
      assert all[2..2 + n] == buf[2..2 + n];
    }
  }
}
