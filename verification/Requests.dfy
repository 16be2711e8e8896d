/** SOCKS5 requests and replies (sections 4 and 6 of RFC 1928). */
module Requests {
  import opened Wire
  import A = Addressing

  datatype Command = Connect | Bind | UdpAssociate

  datatype Request = Request(command: Command, address: A.Address)

  datatype RequestError = Truncated | BadVersion(version: Byte) | BadCommand(code: Byte) | Addr(error: A.AddrError)

  const VERSION: Byte := 5

  function CommandOf(code: Byte): Option<Command> {
    if code == 1 then Some(Connect)
    else if code == 2 then Some(Bind)
    else if code == 3 then Some(UdpAssociate)
    else None
  }

  function CommandCode(command: Command): Byte {
    match command
    case Connect => 1
    case Bind => 2
    case UdpAssociate => 3
  }

  function ParseRequest(buf: Bytes): Result<Request, RequestError> {
    if |buf| < 4 then Err(Truncated)
    else if buf[0] != VERSION then Err(BadVersion(buf[0]))
    else match CommandOf(buf[1])
      case None => Err(BadCommand(buf[1]))
      case Some(command) =>
        match A.Decode(buf[3..])
        case Err(e) => Err(Addr(e))
        case Ok((address, _)) => Ok(Request(command, address))
  }

  /** Both ways in which more bytes are needed. */
  predicate Incomplete(r: Result<Request, RequestError>) {
    r == Err(Truncated) || r == Err(Addr(A.AddrError.Truncated))
  }

  /** A request on the wire; the reserved byte carries no meaning. */
  function RequestBytes(request: Request, reserved: Byte): Bytes {
    [VERSION, CommandCode(request.command), reserved] + A.Encoded(request.address)
  }

  /** What `encode_reply` appends. */
  function ReplyBytes(code: Byte, bind: A.Address): (r: Bytes)
    ensures bind.V4? ==> r == [5, code, 0, 1] + bind.octets4 + PortBytes(bind.port)
    ensures bind.V6? ==> r == [5, code, 0, 4] + bind.octets16 + PortBytes(bind.port)
  {
    [VERSION, code, 0] + A.Encoded(bind)
  }

  /** The parser recognises exactly the encoded requests, under any reserved byte. */
  lemma {:induction false} RequestParses(buf: Bytes, request: Request)
    ensures ParseRequest(buf) == Ok(request)
      <==> A.Encodable(request.address) && |buf| >= 3 && RequestBytes(request, buf[2]) <= buf
  {
    var encoded := A.Encoded(request.address);
    if ParseRequest(buf) == Ok(request) {
      RequestSplits(buf);
    } else if A.Encodable(request.address) && |buf| >= 3 && RequestBytes(request, buf[2]) <= buf {
      var n := 3 + |encoded|;
      assert buf[..n] == RequestBytes(request, buf[2]);
      assert buf[0] == buf[..n][0] && buf[1] == buf[..n][1];
      assert buf[3..n] == buf[..n][3..] == encoded;
      assert buf[3..] == encoded + buf[n..];
      A.DecodeUndoesEncode(request.address, buf[n..]);
      assert false;
    }
  }

  /** Re-encoding the parsed address finds where the request ends. */
  lemma {:induction false} RequestSplits(buf: Bytes)
    requires ParseRequest(buf).Ok?
    ensures var request := ParseRequest(buf).value;
      A.Encodable(request.address) && RequestBytes(request, buf[2]) <= buf
  {
    var request := ParseRequest(buf).value;
    A.EncodeUndoesDecode(buf[3..]);
    var n := A.Decode(buf[3..]).value.1;
    assert buf[..3 + n] == [buf[0], buf[1], buf[2]] + buf[3..][..n];
  }

  lemma RequestStable(buf: Bytes, more: Bytes)
    requires !Incomplete(ParseRequest(buf))
    ensures ParseRequest(buf + more) == ParseRequest(buf)
  {
    assert (buf + more)[3..] == buf[3..] + more;
    if buf[0] == VERSION && CommandOf(buf[1]).Some? {
      A.DecodeStable(buf[3..], more);
    }
  }

  lemma IncompleteBound(buf: Bytes)
    requires Incomplete(ParseRequest(buf))
    ensures |buf| <= 261
  {
  }
}
