/** Method negotiation (section 3 of RFC 1928) and username/password
    authentication (section 2 of RFC 1929). */
module Handshake {
  import opened Wire
  import Utf8

  const VERSION: Byte := 5
  const METHOD_NO_AUTH: Byte := 0
  const METHOD_USERPASS: Byte := 2
  const METHOD_NONE_ACCEPTABLE: Byte := 0xFF
  const USERPASS_VERSION: Byte := 1

  datatype HandshakeError = Truncated | BadVersion(version: Byte) | BadDomain

  function ParseGreeting(buf: Bytes): (r: Result<Bytes, HandshakeError>)
    ensures r.Ok? ==> 2 + |r.value| <= |buf|
  {
    if |buf| == 0 then Err(Truncated)
    else if buf[0] != VERSION then Err(BadVersion(buf[0]))
    else if |buf| < 2 || |buf| < 2 + buf[1] as nat then Err(Truncated)
    else Ok(buf[2..2 + buf[1] as nat])
  }

  function SelectMethod(offered: Bytes, requireUserpass: bool): Byte {
    var wanted := if requireUserpass then METHOD_USERPASS else METHOD_NO_AUTH;
    if wanted in offered then wanted else METHOD_NONE_ACCEPTABLE
  }

  function MethodReply(method_: Byte): Bytes {
    [VERSION, method_]
  }

  function ParseUserpass(buf: Bytes): (r: Result<(Bytes, Bytes), HandshakeError>)
    ensures r.Ok? ==> 3 + |r.value.0| + |r.value.1| <= |buf|
  {
    if |buf| == 0 then Err(Truncated)
    else if buf[0] != USERPASS_VERSION then Err(BadVersion(buf[0]))
    else if |buf| < 2 || |buf| < 3 + buf[1] as nat then Err(Truncated)
    else if |buf| < 3 + buf[1] as nat + buf[2 + buf[1] as nat] as nat then Err(Truncated)
    else
      var at: nat := 2 + buf[1] as nat;
      var uname := buf[2..at];
      var passwd := buf[at + 1..at + 1 + buf[at] as nat];
      if !Utf8.Valid(uname) || !Utf8.Valid(passwd) then Err(BadDomain) else Ok((uname, passwd))
  }

  function UserpassReply(ok: bool): Bytes {
    [USERPASS_VERSION, if ok then 0 else 1]
  }

  // The messages a client sends, in wire form.

  function GreetingBytes(methods: Bytes): Bytes
    requires |methods| <= 255
  {
    [VERSION, |methods|] + methods
  }

  function UserpassBytes(user: Bytes, password: Bytes): Bytes
    requires |user| <= 255 && |password| <= 255
  {
    [USERPASS_VERSION, |user|] + user + [|password|] + password
  }

  /** The parser recognises exactly the greetings, and returns the offered methods. */
  lemma GreetingParses(buf: Bytes, methods: Bytes)
    ensures ParseGreeting(buf) == Ok(methods)
      <==> |methods| <= 255 && GreetingBytes(methods) <= buf
  {
    if ParseGreeting(buf) == Ok(methods) {
      assert buf[..2 + |methods|] == GreetingBytes(methods);
    }
    if |methods| <= 255 && GreetingBytes(methods) <= buf {
      var n := 2 + |methods|;
      assert buf[..n] == GreetingBytes(methods);
      assert buf[0] == buf[..n][0] && buf[1] == buf[..n][1];
      assert buf[2..n] == buf[..n][2..] == methods;
    }
  }

  /** The parser recognises exactly the authentication messages with UTF-8 fields. */
  lemma {:induction false} UserpassParses(buf: Bytes, user: Bytes, password: Bytes)
    ensures ParseUserpass(buf) == Ok((user, password))
      <==> |user| <= 255 && |password| <= 255 && Utf8.Valid(user) && Utf8.Valid(password)
           && UserpassBytes(user, password) <= buf
  {
    if ParseUserpass(buf) == Ok((user, password)) {
      UserpassSplits(buf, 2 + |user|);
    } else if |user| <= 255 && |password| <= 255 && Utf8.Valid(user) && Utf8.Valid(password)
      && UserpassBytes(user, password) <= buf {
      UserpassAccepted(buf, user, password);
    }
  }

  lemma UserpassAccepted(buf: Bytes, user: Bytes, password: Bytes)
    requires |user| <= 255 && |password| <= 255 && Utf8.Valid(user) && Utf8.Valid(password)
    requires UserpassBytes(user, password) <= buf
    ensures ParseUserpass(buf) == Ok((user, password))
  {
    UserpassFields(buf, user, password);
    FieldsParse(buf, user, password);
  }

  lemma FieldsParse(buf: Bytes, user: Bytes, password: Bytes)
    requires Utf8.Valid(user) && Utf8.Valid(password) && |buf| >= 3 + |user| + |password|
    requires buf[0] == USERPASS_VERSION && buf[1] == |user| && buf[2 + |user|] == |password|
    requires buf[2..2 + |user|] == user && buf[3 + |user|..3 + |user| + |password|] == password
    ensures ParseUserpass(buf) == Ok((user, password))
  {
    var at := 2 + |user|;
    assert buf[1] as nat == |user| && buf[at] as nat == |password|;
    assert buf[2..at] == user && buf[at + 1..at + 1 + buf[at] as nat] == password;
  }

  lemma UserpassSplits(buf: Bytes, at: nat)
    requires 2 <= at < |buf| && at + 1 + buf[at] as nat <= |buf|
    requires buf[0] == USERPASS_VERSION && at == 2 + buf[1] as nat
    ensures UserpassBytes(buf[2..at], buf[at + 1..at + 1 + buf[at] as nat]) <= buf
  {
    var n := at + 1 + buf[at] as nat;
    assert buf[..n] == [buf[0], buf[1]] + buf[2..at] + [buf[at]] + buf[at + 1..n];
  }

  lemma UserpassFields(buf: Bytes, user: Bytes, password: Bytes)
    requires |user| <= 255 && |password| <= 255 && UserpassBytes(user, password) <= buf
    ensures |buf| >= 3 + |user| + |password|
    ensures buf[0] == USERPASS_VERSION && buf[1] == |user| && buf[2 + |user|] == |password|
    ensures buf[2..2 + |user|] == user
    ensures buf[3 + |user|..3 + |user| + |password|] == password
  {
    var message := UserpassBytes(user, password);
    var n := |message|;
    assert buf[..n] == message;
    assert message[2 + |user|] == |password|;
    forall k | 0 <= k < n ensures buf[k] == message[k] {
      assert buf[..n][k] == buf[k];
    }
    assert message[2..2 + |user|] == user;
    assert message[3 + |user|..n] == password;
  }

  lemma GreetingStable(buf: Bytes, more: Bytes)
    requires ParseGreeting(buf) != Err(Truncated)
    ensures ParseGreeting(buf + more) == ParseGreeting(buf)
  {
    if ParseGreeting(buf).Ok? {
      var n: nat := buf[1];
      assert (buf + more)[2..2 + n] == buf[2..2 + n];
    }
  }

  lemma UserpassStable(buf: Bytes, more: Bytes)
    requires ParseUserpass(buf) != Err(Truncated)
    ensures ParseUserpass(buf + more) == ParseUserpass(buf)
  {
    if buf[0] == USERPASS_VERSION {
      var at: nat := 2 + buf[1] as nat;
      assert (buf + more)[2..at] == buf[2..at];
      assert (buf + more)[at + 1..at + 1 + buf[at] as nat] == buf[at + 1..at + 1 + buf[at] as nat];
    }
  }

  lemma TruncatedIsShort(buf: Bytes)
    ensures ParseGreeting(buf) == Err(Truncated) ==> |buf| <= 256
    ensures ParseUserpass(buf) == Err(Truncated) ==> |buf| <= 512
  {
  }

  /** The largest message that is still incomplete: 256 bytes of a greeting and 512 of a
      username/password message, and both lengths do occur. */
  lemma TruncatedBounds(buf: Bytes)
    ensures ParseGreeting(buf) == Err(Truncated) ==> |buf| <= 256
    ensures ParseUserpass(buf) == Err(Truncated) ==> |buf| <= 512
    ensures exists full: Bytes :: |full| == 256 && ParseGreeting(full) == Err(Truncated)
    ensures exists full: Bytes :: |full| == 512 && ParseUserpass(full) == Err(Truncated)
  {
    var a255: Bytes := seq(255, _ => 0x61);
    var greeting: Bytes := [VERSION, 255] + a255[..254];
    assert |greeting| == 256 && ParseGreeting(greeting) == Err(Truncated);
    var full: Bytes := [USERPASS_VERSION, 255] + a255 + [255] + a255[..254];
    assert full[257] == 255;
    assert |full| == 512 && ParseUserpass(full) == Err(Truncated);
  }
}
