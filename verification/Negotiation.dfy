/** The pre-relay state machine `negotiate`: greeting, optional authentication, request. */
module Negotiation {
  import opened Wire
  import A = Addressing
  import H = Handshake
  import R = Requests

  datatype User = User(name: Bytes, password: Bytes)
  datatype Config = Config(requireUserpass: bool, users: seq<User>)

  datatype Event = Auth(ok: bool, user: Bytes) | Error(code: Byte)

  const READ_BUF := 512

  const GENERAL: Byte := 1
  const COMMAND_NOT_SUPPORTED: Byte := 7
  const ADDRESS_NOT_SUPPORTED: Byte := 8

  predicate VerifyCredentials(users: seq<User>, name: Bytes, password: Bytes) {
    User(name, password) in users
  }

  /** The failure reply: a zeroed IPv4 bind address. */
  function FailureReply(code: Byte): (r: Bytes)
    ensures r == [5, code, 0, 1, 0, 0, 0, 0, 0, 0]
  {
    R.ReplyBytes(code, A.V4([0, 0, 0, 0], 0))
  }

  // ---- The client's end of the connection ----

  function Flatten(chunks: seq<Bytes>): Bytes {
    if chunks == [] then [] else chunks[0] + Flatten(chunks[1..])
  }

  /** A client connection. `chunks` are the reads still to come, after which the client has
      closed (or reads fail); `capacity` is how many bytes it will take before writes fail. */
  class Stream {
    var chunks: seq<Bytes>
    var written: Bytes
    const capacity: nat

    ghost predicate Valid()
      reads this
    {
      && (forall c :: c in chunks ==> 0 < |c| <= READ_BUF)
      && |written| <= capacity
    }

    constructor (chunks: seq<Bytes>, capacity: nat)
      requires forall c :: c in chunks ==> 0 < |c| <= READ_BUF
      ensures Valid() && this.chunks == chunks && written == [] && this.capacity == capacity
    {
      this.chunks, written, this.capacity := chunks, [], capacity;
    }

    /** `read_more`. */
    method ReadMore(buf: ByteVec) returns (ok: bool)
      requires Valid()
      modifies this`chunks, buf
      ensures Valid()
      ensures ok == (old(chunks) != [])
      ensures buf.data + Flatten(chunks) == old(buf.data) + old(Flatten(chunks))
      ensures ok ==> |chunks| < |old(chunks)|
      ensures !ok ==> chunks == [] && buf.data == old(buf.data)
    {
      ok := chunks != [];
      if ok {
        buf.ExtendFromSlice(chunks[0]);
        chunks := chunks[1..];
      }
    }

    /** `write_all`: a failing write may still have delivered a prefix. */
    method WriteAll(data: Bytes) returns (ok: bool)
      requires Valid()
      modifies this`written
      ensures Valid()
      ensures ok == (|old(written)| + |data| <= capacity)
      ensures written == Cut(old(written) + data, capacity)
    {
      ok := |written| + |data| <= capacity;
      written := Cut(written + data, capacity);
    }
  }

  function Cut(data: Bytes, capacity: nat): Bytes {
    data[..Min(|data|, capacity)]
  }

  // ---- The whole stream parsed at once ----

  datatype Outcome = Accepted(request: R.Request, rest: Bytes) | Closed

  /** How a session ends, every reply it tried to send, and the events it emitted. */
  datatype Session = Session(outcome: Outcome, replies: Bytes, events: seq<Event>)

  /** The reply code a malformed request earns; a bad version earns none. */
  function RefusalCode(e: R.RequestError): Option<Byte> {
    match e
    case BadCommand(_) => Some(COMMAND_NOT_SUPPORTED)
    case Addr(BadAtyp(_)) => Some(ADDRESS_NOT_SUPPORTED)
    case Addr(BadDomain) => Some(GENERAL)
    case _ => None
  }

  function RequestPhase(input: Bytes, replies: Bytes, events: seq<Event>): Session {
    match R.ParseRequest(input)
    case Ok(request) =>
      var n := 3 + |A.Encoded(request.address)|;
      R.RequestSplits(input);
      Session(Accepted(request, input[n..]), replies, events)
    case Err(e) =>
      match RefusalCode(e)
      case None => Session(Closed, replies, events)
      case Some(code) => Session(Closed, replies + FailureReply(code), events + [Error(code)])
  }

  function VerdictPhase(cfg: Config, input: Bytes, replies: Bytes, capacity: nat, user: Bytes, password: Bytes)
    : Session
  {
    var ok := VerifyCredentials(cfg.users, user, password);
    var replies' := replies + H.UserpassReply(ok);
    if !ok || |replies'| > capacity then Session(Closed, replies', [Auth(ok, user)])
    else RequestPhase(input, replies', [Auth(ok, user)])
  }

  function AuthPhase(cfg: Config, input: Bytes, replies: Bytes, capacity: nat): Session {
    match H.ParseUserpass(input)
    case Err(Truncated) => Session(Closed, replies, [])
    case Err(_) => Session(Closed, replies + H.UserpassReply(false), [])
    case Ok((user, password)) =>
      VerdictPhase(cfg, input[3 + |user| + |password|..], replies, capacity, user, password)
  }

  function Negotiated(cfg: Config, input: Bytes, capacity: nat): Session {
    match H.ParseGreeting(input)
    case Err(_) => Session(Closed, [], [])
    case Ok(methods) =>
      var chosen := H.SelectMethod(methods, cfg.requireUserpass);
      var replies := H.MethodReply(chosen);
      var input' := input[2 + |methods|..];
      if chosen == H.METHOD_NONE_ACCEPTABLE || |replies| > capacity then Session(Closed, replies, [])
      else if chosen == H.METHOD_USERPASS then AuthPhase(cfg, input', replies, capacity)
      else RequestPhase(input', replies, [])
  }

  // ---- The incremental machine ----

  lemma DrainFront(front: Bytes, more: Bytes, n: nat)
    requires n <= |front|
    ensures (front + more)[n..] == front[n..] + more
  {
  }

  /** The greeting loop: `None` closes the connection. */
  method ReadGreeting(stream: Stream, buf: ByteVec) returns (offered: Option<Bytes>)
    requires stream.Valid()
    modifies stream`chunks, buf
    ensures stream.Valid()
    ensures var input := old(buf.data) + old(Flatten(stream.chunks));
      match H.ParseGreeting(input)
      case Ok(methods) => offered == Some(methods)
        && buf.data + Flatten(stream.chunks) == input[2 + |methods|..]
      case Err(_) => offered == None
  {
    ghost var input := buf.data + Flatten(stream.chunks);
    while true
      invariant stream.Valid()
      invariant buf.data + Flatten(stream.chunks) == input
      decreases |stream.chunks|
    {
      var parsed := H.ParseGreeting(buf.data);
      if parsed != Err(H.HandshakeError.Truncated) {
        H.GreetingStable(buf.data, Flatten(stream.chunks));
      }
      match parsed {
        case Ok(methods) =>
          DrainFront(buf.data, Flatten(stream.chunks), 2 + |methods|);
          buf.Drain(2 + |methods|);
          return Some(methods);
        case Err(Truncated) =>
        case Err(_) =>
          return None;
      }
      H.TruncatedIsShort(buf.data);
      if |buf.data| > READ_BUF {
        return None;
      }
      var more := stream.ReadMore(buf);
      if !more {
        assert buf.data == input;
        return None;
      }
    }
  }

  /** What the bytes so far decide, the whole stream decides, and the rest stays in order. */
  lemma UserpassStands(front: Bytes, more: Bytes)
    ensures H.ParseUserpass(front) != Err(H.HandshakeError.Truncated)
      ==> H.ParseUserpass(front + more) == H.ParseUserpass(front)
    ensures H.ParseUserpass(front).Ok? ==>
      var n := 3 + |H.ParseUserpass(front).value.0| + |H.ParseUserpass(front).value.1|;
      (front + more)[n..] == front[n..] + more
  {
    if H.ParseUserpass(front) != Err(H.HandshakeError.Truncated) {
      H.UserpassStable(front, more);
    }
  }

  /** The verdict on credentials: `Err(true)` is a malformed message, `Err(false)` an incomplete one. */
  ghost predicate UserpassRead(input: Bytes, r: Result<(Bytes, Bytes), bool>, rest: Bytes) {
    match H.ParseUserpass(input)
    case Ok((user, password)) => r == Ok((user, password)) && rest == input[3 + |user| + |password|..]
    case Err(e) => r == Err(e != H.HandshakeError.Truncated)
  }

  /** One look at the buffer: a verdict, whatever `more` follows, or nothing yet. */
  method TryUserpass(buf: ByteVec, ghost more: Bytes) returns (r: Option<Result<(Bytes, Bytes), bool>>)
    modifies buf
    ensures r.Some? ==> UserpassRead(old(buf.data) + more, r.value, buf.data + more)
    ensures r.None? ==> buf.data == old(buf.data) && H.ParseUserpass(buf.data) == Err(H.HandshakeError.Truncated)
  {
    var parsed := H.ParseUserpass(buf.data);
    UserpassStands(buf.data, more);
    match parsed {
      case Ok((user, password)) =>
        buf.Drain(2 + |user| + 1 + |password|);
        r := Some(Ok((user, password)));
      case Err(Truncated) => r := None;
      case Err(_) => r := Some(Err(true));
    }
  }

  /** The authentication loop; `Err(false)` closes silently, `Err(true)` after a failure reply. */
  method ReadUserpass(stream: Stream, buf: ByteVec) returns (r: Result<(Bytes, Bytes), bool>)
    requires stream.Valid()
    modifies stream`chunks, buf
    ensures stream.Valid()
    ensures UserpassRead(old(buf.data) + old(Flatten(stream.chunks)), r, buf.data + Flatten(stream.chunks))
  {
    ghost var input := buf.data + Flatten(stream.chunks);
    while true
      invariant stream.Valid()
      invariant buf.data + Flatten(stream.chunks) == input
      decreases |stream.chunks|
    {
      var verdict := TryUserpass(buf, Flatten(stream.chunks));
      if verdict.Some? {
        return verdict.value;
      }
      H.TruncatedIsShort(buf.data);
      if |buf.data| > READ_BUF {
        return Err(false);
      }
      var more := stream.ReadMore(buf);
      if !more {
        assert buf.data == input;
        return Err(false);
      }
    }
  }

  /** The request loop; the parsed request is drained by re-encoding its address. */
  method ReadRequest(stream: Stream, buf: ByteVec) returns (r: Result<R.Request, R.RequestError>)
    requires stream.Valid()
    modifies stream`chunks, buf
    ensures stream.Valid()
    ensures var input := old(buf.data) + old(Flatten(stream.chunks));
      match R.ParseRequest(input)
      case Ok(request) => r == Ok(request) && 3 + |A.Encoded(request.address)| <= |input|
        && buf.data + Flatten(stream.chunks) == input[3 + |A.Encoded(request.address)|..]
      case Err(e) => r == Err(if R.Incomplete(Err(e)) then R.RequestError.Truncated else e)
  {
    ghost var input := buf.data + Flatten(stream.chunks);
    while true
      invariant stream.Valid()
      invariant buf.data + Flatten(stream.chunks) == input
      decreases |stream.chunks|
    {
      var parsed := R.ParseRequest(buf.data);
      if !R.Incomplete(parsed) {
        R.RequestStable(buf.data, Flatten(stream.chunks));
      }
      match parsed {
        case Ok(request) =>
          R.RequestSplits(buf.data);
          var encoded := new ByteVec();
          A.Encode(request.address, encoded);
          DrainFront(buf.data, Flatten(stream.chunks), 3 + |encoded.data|);
          buf.Drain(3 + |encoded.data|);
          return Ok(request);
        case Err(Truncated) =>
        case Err(Addr(Truncated)) =>
        case Err(e) =>
          return Err(e);
      }
      R.IncompleteBound(buf.data);
      if |buf.data| > READ_BUF {
        return Err(R.RequestError.Truncated);
      }
      var more := stream.ReadMore(buf);
      if !more {
        assert buf.data == input;
        return Err(R.RequestError.Truncated);
      }
    }
  }

  /** The request stage of `negotiate`, over what the earlier stages left in `buf`. */
  method RequestStage(stream: Stream, buf: ByteVec, ghost replies: Bytes, earlier: seq<Event>)
    returns (result: Option<(R.Request, Bytes)>, events: seq<Event>)
    requires stream.Valid() && stream.written == replies
    modifies stream, buf
    ensures stream.Valid()
    ensures Reports(RequestPhase(old(buf.data) + old(Flatten(stream.chunks)), replies, earlier), stream, result, events)
  {
    events := earlier;
    var parsed := ReadRequest(stream, buf);
    match parsed {
      case Ok(request) =>
        result := Some((request, buf.data));
      case Err(e) =>
        result := None;
        var code := RefusalCode(e);
        if code.Some? {
          var _ := stream.WriteAll(FailureReply(code.value));
          events := events + [Error(code.value)];
        }
    }
  }

  /** The verdict on credentials, followed by the request stage. */
  method VerdictStage(cfg: Config, stream: Stream, buf: ByteVec, ghost replies: Bytes, user: Bytes, password: Bytes)
    returns (result: Option<(R.Request, Bytes)>, events: seq<Event>)
    requires stream.Valid() && stream.written == replies
    modifies stream, buf
    ensures stream.Valid()
    ensures var input := old(buf.data) + old(Flatten(stream.chunks));
      Reports(VerdictPhase(cfg, input, replies, stream.capacity, user, password), stream, result, events)
  {
    var ok := VerifyCredentials(cfg.users, user, password);
    events := [Auth(ok, user)];
    var sent := stream.WriteAll(H.UserpassReply(ok));
    if !sent || !ok {
      return None, events;
    }
    assert stream.written == replies + H.UserpassReply(ok);
    result, events := RequestStage(stream, buf, replies + H.UserpassReply(ok), events);
  }

  /** The authentication stage. */
  method AuthStage(cfg: Config, stream: Stream, buf: ByteVec, ghost replies: Bytes)
    returns (result: Option<(R.Request, Bytes)>, events: seq<Event>)
    requires stream.Valid() && stream.written == replies
    modifies stream, buf
    ensures stream.Valid()
    ensures Reports(AuthPhase(cfg, old(buf.data) + old(Flatten(stream.chunks)), replies, stream.capacity),
                    stream, result, events)
  {
    assert Cut(replies, stream.capacity) == replies;
    var credentials := ReadUserpass(stream, buf);
    match credentials {
      case Err(complain) =>
        result, events := None, [];
        if complain {
          var _ := stream.WriteAll(H.UserpassReply(false));
        }
      case Ok((user, password)) =>
        result, events := VerdictStage(cfg, stream, buf, replies, user, password);
    }
  }

  /** The connection, the returned request and the events agree with a session. */
  ghost predicate Reports(session: Session, stream: Stream, result: Option<(R.Request, Bytes)>, events: seq<Event>)
    reads stream
  {
    && stream.written == Cut(session.replies, stream.capacity)
    && events == session.events
    && match session.outcome
       case Closed => result == None
       case Accepted(request, rest) =>
         result.Some? && result.value.0 == request && result.value.1 + Flatten(stream.chunks) == rest
  }

  /** `negotiate`. However the client's bytes are cut into reads, the request, the bytes
      written back, the events, and the tail followed by the unread input are those of the
      whole stream parsed at once. */
  method Negotiate(cfg: Config, stream: Stream)
    returns (result: Option<(R.Request, Bytes)>, events: seq<Event>)
    requires stream.Valid() && stream.written == []
    modifies stream
    ensures stream.Valid()
    ensures Reports(Negotiated(cfg, old(Flatten(stream.chunks)), stream.capacity), stream, result, events)
  {
    var buf := new ByteVec();
    assert buf.data + Flatten(stream.chunks) == Flatten(stream.chunks);
    var offered := ReadGreeting(stream, buf);
    if offered == None {
      return None, [];
    }
    var chosen := H.SelectMethod(offered.value, cfg.requireUserpass);
    var sent := stream.WriteAll(H.MethodReply(chosen));
    if !sent || chosen == H.METHOD_NONE_ACCEPTABLE {
      return None, [];
    }
    assert stream.written == H.MethodReply(chosen);
    if chosen == H.METHOD_USERPASS {
      result, events := AuthStage(cfg, stream, buf, H.MethodReply(chosen));
    } else {
      result, events := RequestStage(stream, buf, H.MethodReply(chosen), []);
    }
  }

  // ---- What a session means ----

  /** The messages of one successful client. */
  datatype Dialogue = Dialogue(methods: Bytes, user: Bytes, password: Bytes, reserved: Byte)

  ghost predicate IsRequest(input: Bytes, reserved: Byte, request: R.Request, rest: Bytes) {
    A.Encodable(request.address) && input == R.RequestBytes(request, reserved) + rest
  }

  ghost predicate IsAuth(cfg: Config, input: Bytes, user: Bytes, password: Bytes, rest: Bytes) {
    && |user| <= 255 && |password| <= 255 && H.Utf8.Valid(user) && H.Utf8.Valid(password)
    && VerifyCredentials(cfg.users, user, password)
    && input == H.UserpassBytes(user, password) + rest
  }

  ghost predicate IsGreeting(cfg: Config, input: Bytes, methods: Bytes, rest: Bytes) {
    && |methods| <= 255
    && (if cfg.requireUserpass then H.METHOD_USERPASS else H.METHOD_NO_AUTH) in methods
    && input == H.GreetingBytes(methods) + rest
  }

  /** The client's bytes are a greeting that offers the required method, then (when passwords
      are required) the credentials of a configured user, then the request, then the payload. */
  ghost predicate IsDialogue(cfg: Config, input: Bytes, d: Dialogue, request: R.Request, rest: Bytes) {
    exists afterGreeting :: IsGreeting(cfg, input, d.methods, afterGreeting)
      && if cfg.requireUserpass then
           exists afterAuth :: IsAuth(cfg, afterGreeting, d.user, d.password, afterAuth)
             && IsRequest(afterAuth, d.reserved, request, rest)
         else IsRequest(afterGreeting, d.reserved, request, rest)
  }

  /** A request is accepted, with the payload that follows it, exactly when the client's
      bytes are such a dialogue and the client takes the two or four bytes of replies. */
  lemma AcceptedIffDialogue(cfg: Config, input: Bytes, capacity: nat, request: R.Request, rest: Bytes)
    ensures Negotiated(cfg, input, capacity).outcome == Accepted(request, rest)
      <==> capacity >= (if cfg.requireUserpass then 4 else 2)
           && exists d :: IsDialogue(cfg, input, d, request, rest)
  {
    if Negotiated(cfg, input, capacity).outcome == Accepted(request, rest) {
      var d := DialogueOf(cfg, input, capacity, request, rest);
    }
    if capacity >= (if cfg.requireUserpass then 4 else 2) {
      forall d | IsDialogue(cfg, input, d, request, rest)
        ensures Negotiated(cfg, input, capacity).outcome == Accepted(request, rest)
      {
        DialogueAccepted(cfg, input, capacity, request, rest, d);
      }
    }
  }

  lemma RequestPhaseAccepts(input: Bytes, replies: Bytes, events: seq<Event>, request: R.Request, rest: Bytes)
    ensures RequestPhase(input, replies, events).outcome == Accepted(request, rest)
      <==> |input| >= 3 && IsRequest(input, input[2], request, rest)
  {
    R.RequestParses(input, request);
    if R.ParseRequest(input) == Ok(request) {
      var n := 3 + |A.Encoded(request.address)|;
      assert input == input[..n] + input[n..];
    }
    if |input| >= 3 && IsRequest(input, input[2], request, rest) {
      var n := 3 + |A.Encoded(request.address)|;
      assert input[n..] == rest;
    }
  }

  lemma GreetingSplits(cfg: Config, input: Bytes, methods: Bytes, rest: Bytes)
    ensures H.ParseGreeting(input) == Ok(methods) && rest == input[2 + |methods|..]
      && H.SelectMethod(methods, cfg.requireUserpass) != H.METHOD_NONE_ACCEPTABLE
      <==> IsGreeting(cfg, input, methods, rest)
  {
    H.GreetingParses(input, methods);
    var n := 2 + |methods|;
    if H.ParseGreeting(input) == Ok(methods) {
      assert input == input[..n] + input[n..];
    }
    if IsGreeting(cfg, input, methods, rest) {
      assert input[n..] == rest;
    }
  }

  lemma AuthSplits(cfg: Config, input: Bytes, user: Bytes, password: Bytes, rest: Bytes)
    ensures H.ParseUserpass(input) == Ok((user, password)) && VerifyCredentials(cfg.users, user, password)
      && rest == input[3 + |user| + |password|..]
      <==> IsAuth(cfg, input, user, password, rest)
  {
    H.UserpassParses(input, user, password);
    var n := 3 + |user| + |password|;
    if H.ParseUserpass(input) == Ok((user, password)) {
      assert input == input[..n] + input[n..];
    }
    if IsAuth(cfg, input, user, password, rest) {
      assert input[n..] == rest;
    }
  }

  lemma AuthOf(cfg: Config, input: Bytes, replies: Bytes, capacity: nat, request: R.Request, rest: Bytes)
    returns (user: Bytes, password: Bytes, afterAuth: Bytes)
    requires AuthPhase(cfg, input, replies, capacity).outcome == Accepted(request, rest)
    ensures capacity >= |replies| + 2
    ensures IsAuth(cfg, input, user, password, afterAuth)
    ensures |afterAuth| >= 3 && IsRequest(afterAuth, afterAuth[2], request, rest)
  {
    user, password := H.ParseUserpass(input).value.0, H.ParseUserpass(input).value.1;
    afterAuth := input[3 + |user| + |password|..];
    AuthSplits(cfg, input, user, password, afterAuth);
    RequestPhaseAccepts(afterAuth, replies + H.UserpassReply(true), [Auth(true, user)], request, rest);
  }

  lemma AuthDialogue(cfg: Config, input: Bytes, methods: Bytes, afterGreeting: Bytes, replies: Bytes, capacity: nat,
                     request: R.Request, rest: Bytes) returns (d: Dialogue)
    requires cfg.requireUserpass && IsGreeting(cfg, input, methods, afterGreeting)
    requires AuthPhase(cfg, afterGreeting, replies, capacity).outcome == Accepted(request, rest)
    ensures capacity >= |replies| + 2 && IsDialogue(cfg, input, d, request, rest)
  {
    var user, password, afterAuth := AuthOf(cfg, afterGreeting, replies, capacity, request, rest);
    d := Dialogue(methods, user, password, afterAuth[2]);
  }

  lemma PlainDialogue(cfg: Config, input: Bytes, methods: Bytes, afterGreeting: Bytes, replies: Bytes,
                      request: R.Request, rest: Bytes) returns (d: Dialogue)
    requires !cfg.requireUserpass && IsGreeting(cfg, input, methods, afterGreeting)
    requires RequestPhase(afterGreeting, replies, []).outcome == Accepted(request, rest)
    ensures IsDialogue(cfg, input, d, request, rest)
  {
    RequestPhaseAccepts(afterGreeting, replies, [], request, rest);
    d := Dialogue(methods, [], [], afterGreeting[2]);
  }

  lemma DialogueOf(cfg: Config, input: Bytes, capacity: nat, request: R.Request, rest: Bytes)
    returns (d: Dialogue)
    requires Negotiated(cfg, input, capacity).outcome == Accepted(request, rest)
    ensures capacity >= (if cfg.requireUserpass then 4 else 2)
    ensures IsDialogue(cfg, input, d, request, rest)
  {
    var methods := H.ParseGreeting(input).value;
    var afterGreeting := input[2 + |methods|..];
    assert IsGreeting(cfg, input, methods, afterGreeting) by {
      GreetingSplits(cfg, input, methods, afterGreeting);
    }
    var replies := H.MethodReply(H.SelectMethod(methods, cfg.requireUserpass));
    if cfg.requireUserpass {
      d := AuthDialogue(cfg, input, methods, afterGreeting, replies, capacity, request, rest);
    } else {
      d := PlainDialogue(cfg, input, methods, afterGreeting, replies, request, rest);
    }
  }

  lemma AuthAccepted(cfg: Config, input: Bytes, replies: Bytes, capacity: nat, d: Dialogue, afterAuth: Bytes,
                     request: R.Request, rest: Bytes)
    requires capacity >= |replies| + 2
    requires IsAuth(cfg, input, d.user, d.password, afterAuth) && IsRequest(afterAuth, d.reserved, request, rest)
    ensures AuthPhase(cfg, input, replies, capacity).outcome == Accepted(request, rest)
  {
    AuthSplits(cfg, input, d.user, d.password, afterAuth);
    RequestPhaseAccepts(afterAuth, replies + H.UserpassReply(true), [Auth(true, d.user)], request, rest);
  }

  lemma DialogueAccepted(cfg: Config, input: Bytes, capacity: nat, request: R.Request, rest: Bytes, d: Dialogue)
    requires capacity >= (if cfg.requireUserpass then 4 else 2)
    requires IsDialogue(cfg, input, d, request, rest)
    ensures Negotiated(cfg, input, capacity).outcome == Accepted(request, rest)
  {
    var afterGreeting :| IsGreeting(cfg, input, d.methods, afterGreeting)
      && if cfg.requireUserpass then
           exists afterAuth :: IsAuth(cfg, afterGreeting, d.user, d.password, afterAuth)
             && IsRequest(afterAuth, d.reserved, request, rest)
         else IsRequest(afterGreeting, d.reserved, request, rest);
    GreetingSplits(cfg, input, d.methods, afterGreeting);
    var replies := H.MethodReply(H.SelectMethod(d.methods, cfg.requireUserpass));
    if cfg.requireUserpass {
      var afterAuth :| IsAuth(cfg, afterGreeting, d.user, d.password, afterAuth)
        && IsRequest(afterAuth, d.reserved, request, rest);
      AuthAccepted(cfg, afterGreeting, replies, capacity, d, afterAuth, request, rest);
    } else {
      RequestPhaseAccepts(afterGreeting, replies, [], request, rest);
    }
  }

  /** What the client can tell from the replies: nothing means its greeting never parsed, method
      0xFF that it did not offer the required method, and an accepted session has sent exactly the
      method selection and, when passwords are required, the success verdict. */
  lemma RepliesTellProgress(cfg: Config, input: Bytes, capacity: nat)
    ensures var s := Negotiated(cfg, input, capacity);
      && (s.replies == [] <==> H.ParseGreeting(input).Err?)
      && (s.replies != [] ==> s.replies[0] == H.VERSION && |s.replies| >= 2)
      && (s.replies != [] && s.replies[1] == H.METHOD_NONE_ACCEPTABLE <==>
            exists methods, rest :: |methods| <= 255 && input == H.GreetingBytes(methods) + rest
              && (if cfg.requireUserpass then H.METHOD_USERPASS else H.METHOD_NO_AUTH) !in methods)
      && (s.outcome.Accepted? ==>
            s.replies == if cfg.requireUserpass then [5, 2, 1, 0] else [5, 0])
  {
    var greeting := H.ParseGreeting(input);
    if greeting.Ok? {
      H.GreetingParses(input, greeting.value);
      assert input == H.GreetingBytes(greeting.value) + input[2 + |greeting.value|..];
    }
    forall methods, rest | |methods| <= 255 && input == H.GreetingBytes(methods) + rest
      ensures greeting == Ok(methods)
    {
      H.GreetingParses(input, methods);
    }
  }

  /** A port in network byte order. */
  function PortAt(input: Bytes, i: nat): Port
    requires i + 1 < |input|
  {
    256 * (input[i] as int) + input[i + 1] as int
  }

  /** The session that the bytes from the request on earn, after `replies` and `events`: nothing
      without a complete header or for another version, code 7 for a command other than 1, 2 and 3,
      code 8 for an address type other than 1, 3 and 4, code 1 for a domain that is not UTF-8; nothing
      while the address is incomplete; otherwise that command, address and port, with what follows. */
  function RequestByBytes(input: Bytes, replies: Bytes, events: seq<Event>): Session {
    if |input| < 4 || input[0] != 5 then Session(Closed, replies, events)
    else if input[1] !in {1, 2, 3} then Session(Closed, replies + [5, 7, 0, 1, 0, 0, 0, 0, 0, 0], events + [Error(7)])
    else if input[3] !in {1, 3, 4} then Session(Closed, replies + [5, 8, 0, 1, 0, 0, 0, 0, 0, 0], events + [Error(8)])
    else
      var command := if input[1] == 1 then R.Connect else if input[1] == 2 then R.Bind else R.UdpAssociate;
      if input[3] == 1 && |input| >= 10 then
        var address := A.V4(input[4..8], PortAt(input, 8));
        Session(Accepted(R.Request(command, address), input[10..]), replies, events)
      else if input[3] == 4 && |input| >= 22 then
        var address := A.V6(input[4..20], PortAt(input, 20));
        Session(Accepted(R.Request(command, address), input[22..]), replies, events)
      else if input[3] == 3 && |input| >= 5 && |input| >= 7 + input[4] as nat then
        var end := 5 + input[4] as nat;
        if !H.Utf8.Valid(input[5..end])
        then Session(Closed, replies + [5, 1, 0, 1, 0, 0, 0, 0, 0, 0], events + [Error(1)])
        else
          var address := A.Domain(input[5..end], PortAt(input, end));
          Session(Accepted(R.Request(command, address), input[end + 2..]), replies, events)
      else Session(Closed, replies, events)
  }

  /** What a request earns, byte by byte. */
  lemma {:induction false} RequestReplies(input: Bytes, replies: Bytes, events: seq<Event>)
    ensures RequestPhase(input, replies, events) == RequestByBytes(input, replies, events)
  {
    if |input| >= 4 && input[0] == 5 && input[1] in {1, 2, 3} {
      if input[3] in {1, 3, 4} {
        TailDecodes(input);
        if A.Decode(input[3..]).Ok? {
          DecodedIsAccepted(input, replies, events);
        }
      } else {
        A.DecodeErrors(input[3..]);
      }
    }
  }

  lemma {:induction false} DecodedIsAccepted(input: Bytes, replies: Bytes, events: seq<Event>)
    requires |input| >= 4 && input[0] == 5 && input[1] in {1, 2, 3} && A.Decode(input[3..]).Ok?
    ensures var (address, used) := A.Decode(input[3..]).value;
      var command := if input[1] == 1 then R.Connect else if input[1] == 2 then R.Bind else R.UdpAssociate;
      RequestPhase(input, replies, events)
        == Session(Accepted(R.Request(command, address), input[3 + used..]), replies, events)
  {
    A.EncodeUndoesDecode(input[3..]);
  }

  /** The address of a request, decoded at its offset. */
  lemma TailDecodes(input: Bytes)
    requires |input| >= 4 && input[3] in {1, 3, 4}
    ensures var r := A.Decode(input[3..]);
      if input[3] == 1 then
        r == if |input| < 10 then Err(A.AddrError.Truncated)
             else Ok((A.V4(input[4..8], PortAt(input, 8)), 7))
      else if input[3] == 4 then
        r == if |input| < 22 then Err(A.AddrError.Truncated)
             else Ok((A.V6(input[4..20], PortAt(input, 20)), 19))
      else if |input| < 5 || |input| < 7 + input[4] as nat then r == Err(A.AddrError.Truncated)
      else
        var end := 5 + input[4] as nat;
        r == if !H.Utf8.Valid(input[5..end]) then Err(A.AddrError.BadDomain)
             else Ok((A.Domain(input[5..end], PortAt(input, end)), end - 1))
  {
    var tail := input[3..];
    if input[3] == 1 && |input| >= 10 {
      SliceOfTail(input, 3, 1, 5);
    } else if input[3] == 4 && |input| >= 22 {
      SliceOfTail(input, 3, 1, 17);
    } else if input[3] == 3 && |input| >= 5 && |input| >= 7 + input[4] as nat {
      SliceOfTail(input, 3, 2, 2 + input[4] as nat);
    }
  }

  // ---- Every session, by the bytes of its stream ----

  /** The stream is a greeting that offers `methods`, followed by `rest`. */
  predicate Offers(input: Bytes, methods: Bytes, rest: Bytes) {
    |methods| <= 255 && input == H.GreetingBytes(methods) + rest
  }

  /** Credentials, followed by `more`. */
  predicate Presents(input: Bytes, user: Bytes, password: Bytes, more: Bytes) {
    |user| <= 255 && |password| <= 255 && input == H.UserpassBytes(user, password) + more
  }

  /** The session that a stream earns which starts with a greeting without the required method, with a
      greeting alone when no password is required, or with a greeting and credentials. */
  lemma {:induction false} SessionByBytes(cfg: Config, input: Bytes, capacity: nat, methods: Bytes, rest: Bytes,
                                          user: Bytes, password: Bytes, more: Bytes)
    requires Offers(input, methods, rest)
    ensures var s := Negotiated(cfg, input, capacity);
      && (!cfg.requireUserpass && 0 !in methods ==> s == Session(Closed, [5, 0xFF], []))
      && (cfg.requireUserpass && 2 !in methods ==> s == Session(Closed, [5, 0xFF], []))
      && (!cfg.requireUserpass && 0 in methods ==>
            s == if capacity < 2 then Session(Closed, [5, 0], []) else RequestByBytes(rest, [5, 0], []))
      && (cfg.requireUserpass && 2 in methods && capacity < 2 ==> s == Session(Closed, [5, 2], []))
      && (cfg.requireUserpass && 2 in methods && capacity >= 2 && Presents(rest, user, password, more) ==>
            s == if !H.Utf8.Valid(user) || !H.Utf8.Valid(password) then Session(Closed, [5, 2, 1, 1], [])
                 else if User(user, password) !in cfg.users
                 then Session(Closed, [5, 2, 1, 1], [Auth(false, user)])
                 else if capacity < 4 then Session(Closed, [5, 2, 1, 0], [Auth(true, user)])
                 else RequestByBytes(more, [5, 2, 1, 0], [Auth(true, user)]))
      && (cfg.requireUserpass && 2 in methods && capacity >= 2 && (forall u, p, m :: !Presents(rest, u, p, m)) ==>
            s == Session(Closed, if rest != [] && rest[0] != 1 then [5, 2, 1, 1] else [5, 2], []))
  {
    H.GreetingParses(input, methods);
    assert input[2 + |methods|..] == rest;
    RequestReplies(rest, [5, 0], []);
    if cfg.requireUserpass && 2 in methods && capacity >= 2 {
      assert Negotiated(cfg, input, capacity) == AuthPhase(cfg, rest, [5, 2], capacity);
      if Presents(rest, user, password, more) {
        AuthByBytes(cfg, rest, capacity, user, password, more);
      } else if forall u, p, m :: !Presents(rest, u, p, m) {
        NoCredentials(cfg, rest, [5, 2], capacity);
      }
    }
  }

  /** A stream that does not start with a greeting earns nothing at all. */
  lemma {:induction false} NoGreetingNoReply(cfg: Config, input: Bytes, capacity: nat)
    requires forall methods, rest :: !Offers(input, methods, rest)
    ensures Negotiated(cfg, input, capacity) == Session(Closed, [], [])
  {
    var greeting := H.ParseGreeting(input);
    if greeting.Ok? {
      H.GreetingParses(input, greeting.value);
      assert Offers(input, greeting.value, input[2 + |greeting.value|..]);
    }
  }

  lemma {:induction false} AuthByBytes(cfg: Config, input: Bytes, capacity: nat, user: Bytes, password: Bytes,
                                       more: Bytes)
    requires capacity >= 2 && Presents(input, user, password, more)
    ensures AuthPhase(cfg, input, [5, 2], capacity)
      == if !H.Utf8.Valid(user) || !H.Utf8.Valid(password) then Session(Closed, [5, 2, 1, 1], [])
         else if User(user, password) !in cfg.users then Session(Closed, [5, 2, 1, 1], [Auth(false, user)])
         else if capacity < 4 then Session(Closed, [5, 2, 1, 0], [Auth(true, user)])
         else RequestByBytes(more, [5, 2, 1, 0], [Auth(true, user)])
  {
    H.UserpassFields(input, user, password);
    assert input[3 + |user| + |password|..] == more;
    assert [5, 2] + [1, 0] == [5, 2, 1, 0] && [5, 2] + [1, 1] == [5, 2, 1, 1];
    if H.Utf8.Valid(user) && H.Utf8.Valid(password) {
      H.FieldsParse(input, user, password);
      RequestReplies(more, [5, 2, 1, 0], [Auth(true, user)]);
    } else {
      assert H.ParseUserpass(input) == Err(H.HandshakeError.BadDomain);
    }
  }

  lemma WholeCredentials(input: Bytes) returns (user: Bytes, password: Bytes, more: Bytes)
    requires input != [] && input[0] == 1 && H.ParseUserpass(input) != Err(H.HandshakeError.Truncated)
    ensures Presents(input, user, password, more)
  {
    var at: nat := 2 + input[1] as nat;
    H.UserpassSplits(input, at);
    user, password := input[2..at], input[at + 1..at + 1 + input[at] as nat];
    more := input[3 + |user| + |password|..];
  }

  lemma {:induction false} NoCredentials(cfg: Config, input: Bytes, replies: Bytes, capacity: nat)
    requires forall user, password, more :: !Presents(input, user, password, more)
    ensures AuthPhase(cfg, input, replies, capacity)
      == Session(Closed, if input != [] && input[0] != 1 then replies + [1, 1] else replies, [])
  {
    if input != [] && input[0] == 1 && H.ParseUserpass(input) != Err(H.HandshakeError.Truncated) {
      var user, password, more := WholeCredentials(input);
      assert false;
    }
  }
}
