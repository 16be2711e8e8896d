/** The UDP request header (section 7 of RFC 1928). */
module Datagrams {
  import opened Wire
  import A = Addressing

  datatype Datagram = Datagram(frag: Byte, address: A.Address, data: Bytes)

  datatype UdpError = Truncated | Addr(error: A.AddrError)

  const MIN_HEADER := 4

  /** `decap_ref` and `decap`; they differ only in who owns the payload. */
  function Decap(buf: Bytes): Result<Datagram, UdpError> {
    if |buf| < MIN_HEADER then Err(Truncated)
    else match A.Decode(buf[3..])
      case Err(e) => Err(Addr(e))
      case Ok((address, consumed)) => Ok(Datagram(buf[2], address, buf[3 + consumed..]))
  }

  /** What `encap` appends. */
  function Encapsulated(address: A.Address, data: Bytes): Bytes {
    [0, 0, 0] + A.Encoded(address) + data
  }

  /** `encap`. */
  method Encap(address: A.Address, data: Bytes, out: ByteVec)
    modifies out
    ensures out.data == old(out.data) + Encapsulated(address, data)
  {
    AppendsInTurn(out.data, [0, 0, 0], A.Encoded(address), data);
    ghost var before := out.data;
    out.Push(0);
    out.Push(0);
    out.Push(0);
    assert out.data == before + [0, 0, 0];
    A.Encode(address, out);
    out.ExtendFromSlice(data);
  }

  /** Decapsulating a whole datagram gives back its address and payload, exactly when the
      address fits the wire format. */
  lemma DecapUndoesEncap(address: A.Address, data: Bytes)
    ensures Decap(Encapsulated(address, data)) == Ok(Datagram(0, address, data)) <==> A.Encodable(address)
  {
    var buf := Encapsulated(address, data);
    var encoded := A.Encoded(address);
    assert |encoded| >= 4;
    assert buf[3..] == encoded + data;
    assert buf[2] == 0;
    A.DecodeUndoesEncode(address, data);
    if A.Encodable(address) {
      assert buf[3 + |encoded|..] == data;
    } else {
      if Decap(buf) == Ok(Datagram(0, address, data)) {
        A.EncodeUndoesDecode(buf[3..]);
        assert false;
      }
    }
  }

  /** A datagram that decapsulates is a header, the encoding of its address and its payload. */
  lemma EncapUndoesDecap(buf: Bytes)
    requires Decap(buf).Ok?
    ensures var d := Decap(buf).value;
      A.Encodable(d.address) && buf == buf[..2] + [d.frag] + A.Encoded(d.address) + d.data
  {
    A.EncodeUndoesDecode(buf[3..]);
    var n := A.Decode(buf[3..]).value.1;
    assert buf == buf[..2] + [buf[2]] + buf[3..][..n] + buf[3 + n..];
  }
}
