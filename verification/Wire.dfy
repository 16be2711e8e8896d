/** Bytes as they travel on the wire, and the growable byte vector the codecs append to. */
module Wire {
  type Byte = b: int | 0 <= b < 256
  type Bytes = seq<Byte>
  type Port = p: int | 0 <= p < 0x1_0000
  type UInt32 = n: int | 0 <= n < 0x1_0000_0000
  type Octets4 = o: Bytes | |o| == 4 witness [0, 0, 0, 0]
  type Octets16 = o: Bytes | |o| == 16 witness [0, 0, 0, 0, 0, 0, 0, 0, 0, 0, 0, 0, 0, 0, 0, 0]

  datatype Option<+T> = None | Some(value: T)
  datatype Result<+T, +E> = Ok(value: T) | Err(error: E)

  /** Network byte order (`u16::to_be_bytes`). */
  function PortBytes(port: Port): (r: Bytes)
    ensures |r| == 2
  {
    [port / 256, port % 256]
  }

  function PortOf(high: Byte, low: Byte): Port {
    256 * high + low
  }

  function Min(a: nat, b: nat): nat {
    if a <= b then a else b
  }

  function Max(a: nat, b: nat): nat {
    if a <= b then b else a
  }

  /** `usize::saturating_sub`. */
  function SaturatingSub(a: nat, b: nat): nat {
    if b <= a then a - b else 0
  }

  lemma AppendsInTurn(a: Bytes, b: Bytes, c: Bytes, d: Bytes)
    ensures a + b + c + d == a + (b + c + d)
  {
  }

  lemma SliceOfTail(s: Bytes, i: nat, a: nat, b: nat)
    requires a <= b && i + b <= |s|
    ensures s[i..][a..b] == s[i + a..i + b]
  {
  }

  /** A `Vec<u8>`. */
  class ByteVec {
    var data: Bytes

    constructor ()
      ensures data == []
    {
      data := [];
    }

    method Push(b: Byte)
      modifies this
      ensures data == old(data) + [b]
    {
      data := data + [b];
    }

    method ExtendFromSlice(slice: Bytes)
      modifies this
      ensures data == old(data) + slice
    {
      data := data + slice;
    }

    /** `drain(..n)`: removes the first `n` bytes; Rust panics when there are fewer. */
    method Drain(n: nat)
      requires n <= |data|
      modifies this
      ensures data == old(data)[n..]
    {
      data := data[n..];
    }
  }
}
