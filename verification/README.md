# next-socks5: a Dafny model of its state machines

`next-socks5` is a SOCKS5 server (RFC 1928, RFC 1929). Its decisions sit in a few state machines: the
negotiation with a client, the dial scheduler behind CONNECT, the bidirectional relay, the UDP association
loop, admission control, and the protocol by which processes claim the admin socket. This project models
them and proves what they keep over every byte stream, every chunking, every schedule and every
interleaving. `dafny verify dfyconfig.toml` checks everything.

## How it is modelled

- **Concurrency and I/O are inputs.** Whatever the environment decides (which branch of a `select!` fires
  and when, how the client's bytes are cut into reads, whether a system call fails, what other processes do
  in between) is a parameter, usually a sequence of events. A step that is not enabled changes nothing, so
  the theorems quantify over all sequences.
- **Code that updates state is imperative.** Loops are methods with invariants, objects are classes; each is
  proved against a function on values (`Step`, `Run`, `Negotiated`, ...), and the laws are lemmas about those
  functions. State carries a history (addresses received, dials, sends, replies) for the laws to speak of.
- **Time is natural-number nanoseconds.** Instants never go back; reads of the clock within one branch are one
  instant. "Punctual" runs have idealised timers: nothing waits past its timeout.
- **Strings are their bytes**, and UTF-8 validity is defined by section 4 of RFC 3629.

| file | content |
|---|---|
| Wire, Arithmetic, Utf8, Net | bytes, division, UTF-8, IP and socket addresses |
| Addressing, Handshake, Requests, Datagrams | the codecs |
| Negotiation | `negotiate` over chunked input, and what an accepted session is |
| DialScheduler, DialLaws, DialTrace | `establish`: its steps, invariants, and what it owes to its schedule |
| DialFairness, DialShareCap | fair time shares |
| Relay, RelayTrace, Tunnel | the relay, what it owes to its events, and CONNECT end to end |
| UdpAssociation, UdpLaws, UdpDelivery | the UDP loop, provenance of what it sends, what it must send |
| UdpRate, PortScan | rate cap, port scan |
| Admission, Egress, AdminClaim | admission caps, destination policy, the admin-socket protocol |

## Findings

- **Fair share has a cap.** A share's divisor saturates at `u32::MAX`. `FairShare` holds up to that many
  outstanding candidates; for every longer list of candidates `FairShareFailsAboveCap` gives a run in which
  it fails. Such lists exist as values (`CrowdsExist`), but no real DNS answer is that large.
- **A port scan that straddles the wrap of the 32-bit cursor repeats a port and misses another**, unless the
  width divides 2^32 (`ScanIsPermutationIff`). It then reports "exhausted" although a port was never tried,
  contrary to the comment at `src/server/udp.rs:298-301`.
- **The second probe of the admin protocol is needed because a process can lose its lock before its
  listener** while another one, which probed earlier, waits to lock. Without the probe a live entry is safe
  exactly as long as that does not happen (`UnexposedIsSafe`, `ExposedIsTaken`). It happens when a process
  dies, and also without any death: `serve` ignores a failing `remove_file` (`src/admin/server.rs:62`) and
  then drops its lock before its listener (`SecondProbeIsNeeded`).
- **The relay's teardown bound is three idle times, not one.** `RelayEndsInTime` shows that the relay ends
  within it, `BoundIsTight` that it is exact to the nanosecond.
- The comment at `src/server/udp.rs:112-115` says that a tracked target takes precedence over the client; the
  code tests for the client first. The model follows the code.
- `Address::encode` truncates the length of a domain longer than 255 bytes; decoding undoes encoding exactly
  for the addresses that fit (`DecodeUndoesEncode`).

## Model

| member | source | states |
|---|---|---|
| Addressing.Encode | src/protocol/address.rs:72-92 | appends exactly the wire form of the address, length byte truncated as the cast does |
| Addressing.DecodeUndoesEncode | src/protocol/address.rs:33-92 | decode(encode(a) ++ tail) is a and its encoded length, for every tail, exactly when a domain fits 255 bytes of UTF-8 |
| Addressing.EncodeUndoesDecode | src/protocol/address.rs:33-92 | re-encoding any decoded address gives back the consumed prefix |
| Addressing.DecodesIff | src/protocol/address.rs:33-69 | decoding yields an address exactly when the buffer starts with its encoding |
| Addressing.DecodeStable | src/protocol/address.rs:33-69 | appending bytes never changes an answer other than "truncated" |
| Handshake.GreetingParses | src/protocol/handshake.rs:29-37 | the greeting parser recognises exactly the well-formed greetings and returns their methods |
| Handshake.UserpassParses | src/protocol/handshake.rs:64-83 | the authentication parser recognises exactly the well-formed messages with UTF-8 fields |
| Handshake.GreetingStable | src/protocol/handshake.rs:29-37 | a greeting's verdict is stable under appending bytes |
| Handshake.UserpassStable | src/protocol/handshake.rs:64-83 | an authentication message's verdict is stable under appending bytes |
| Handshake.TruncatedBounds | src/server/connection.rs:29 | an incomplete greeting has at most 256 bytes and an incomplete authentication message at most 512, lengths that both occur, so the buffer guard never rejects a legal message |
| Requests.RequestParses | src/protocol/request.rs:42-59 | the request parser recognises exactly the encoded requests, whatever the reserved byte |
| Requests.RequestSplits | src/server/connection.rs:169-175 | re-encoding the parsed address finds exactly where the request ends |
| Requests.RequestStable | src/protocol/request.rs:42-59 | a request's verdict, other than incomplete, is stable under appending bytes |
| Requests.IncompleteBound | src/server/connection.rs:193 | an incomplete request has at most 261 bytes |
| Datagrams.Encap | src/protocol/udp.rs:70-76 | appends header, address and payload |
| Datagrams.DecapUndoesEncap | src/protocol/udp.rs:44-76 | decapsulating a whole datagram gives its address and payload, exactly when the address fits the format |
| Datagrams.EncapUndoesDecap | src/protocol/udp.rs:44-57 | a datagram that decapsulates is two ignored bytes, its fragment number, its encoded address and its payload |
| Negotiation.Stream.ReadMore | src/server/connection.rs:204-213 | moves the next chunk to the end of the buffer, losing and reordering nothing |
| Negotiation.ReadGreeting | src/server/connection.rs:110-124 | under any chunking, the verdict on the whole stream; the rest of the stream follows the greeting |
| Negotiation.ReadUserpass | src/server/connection.rs:136-156 | under any chunking, the verdict on the whole stream; the rest of the stream follows the credentials |
| Negotiation.ReadRequest | src/server/connection.rs:167-196 | under any chunking, the verdict on the whole stream; draining the re-encoded length leaves exactly what follows the request |
| Negotiation.Negotiate | src/server/connection.rs:101-200 | chunking independence: outcome, bytes written (also when writes fail), events and (tail ++ unread input) are those of parsing the whole stream at once |
| Negotiation.AcceptedIffDialogue | src/server/connection.rs:101-200 | a request is accepted with payload `rest` if and only if the stream is a greeting offering the required method, then a configured user's credentials if required, then that request, then `rest` |
| Negotiation.RepliesTellProgress | src/server/connection.rs:126-164 | no reply means an unparsable greeting, 0xFF a missing method, and acceptance sends exactly the selection and the success verdict |
| Negotiation.SessionByBytes | src/server/connection.rs:126-192 | exact outcome, replies and events of every session that starts with a greeting: 0xFF without the required method; otherwise the selection, the verdict on the credentials (with its event), and then what the request's bytes earn, also when writes fail |
| Negotiation.NoGreetingNoReply | src/server/connection.rs:110-124 | a stream that does not start with a whole greeting is closed without a reply or an event |
| Negotiation.RequestReplies | src/server/connection.rs:167-192 | byte by byte, what any input earns in the request phase: nothing without a whole header or for another version, 7, 8 or 1 for a bad command, address type or domain, and otherwise exactly that command, address and big-endian port, with what follows |
| Egress.BlockedIffInRefusedPrefix | src/config.rs:370-403 | a destination is blocked if and only if its IPv4-folded address has the leading bits of a prefix of an enabled class |
| Egress.EmbeddedFormsAgree | src/config.rs:370-403 | IPv4-mapped and IPv4-compatible forms get the verdict of the IPv4 address, for every address and policy |
| Egress.BlockingIsMonotone | src/config.rs:370-403 | enabling a class never unblocks a destination |
| DialScheduler.AddCandidates | src/server/connect.rs:257-271 | queues the permitted addresses not seen before, once each in order, and notes whether one was blocked |
| DialScheduler.Dialer.Turn | src/server/connect.rs:180-254 | one turn of the loop is one step of the scheduler, for every branch and every instant |
| DialScheduler.Establish | src/server/connect.rs:146-255 | under every schedule, outcome and dials are those of the run of the scheduler, a literal target faring like a name that resolves to it at once; and it connects to an address exactly when the attempt on it succeeds while the search is undecided |
| DialScheduler.AloneDials | src/server/connect.rs:152-167 | such a search is refused when the address is blocked, and otherwise dials it once, until the total deadline |
| DialLaws.CandidatesMeaning | src/server/connect.rs:257-271 | the candidates are exactly the permitted addresses received, without repetition, by first arrival |
| DialLaws.FailureClassified | src/server/connect.rs:180-255 | at both exits: Dial iff a permitted address was received, Blocked iff some were and all are blocked, Dns iff none was; unless the total deadline struck, every candidate was dialled once, in order |
| DialScheduler.ConnectedIff | src/server/connect.rs:227-238 | a search connects to `a` if and only if some wake-up reports the success of the active attempt on `a` while nothing is decided |
| DialTrace.ReceivedIsHeard | src/server/connect.rs:203-226 | the addresses taken in are exactly those of the first answer of each family that came while the search was undecided |
| DialTrace.ErrorsFollowDials | src/server/connect.rs:227-242 | attempts end one by one in dial order, each with its own error or, when its timer fires, a timeout; an unexpired dial failure carries the error of the last one |
| DialTrace.ExpiredIff | src/server/connect.rs:243-252 | the total deadline ends a search exactly when its timer fires, due, while nothing is decided |
| DialTrace.ReplyFollowsSchedule | src/error.rs:46-54 | the reply code of a failed search, from its schedule alone: 4 when no address came, 2 when all are blocked, 6 when time ran out, otherwise 3, 4, 5, 6 or 1 by the error of the last candidate |
| DialLaws.ReplyTellsWhatWasFound | src/server/connect.rs:42-69 | the client is told "not allowed" iff addresses were found and all are blocked, "host unreachable" when none was found, "TTL expired" when time ran out on a permitted one |
| DialLaws.DialsAreBounded | src/server/connect.rs:180-255 | dialled and queued addresses together are the candidates, never repeated, in arrival order; an idle dialler has an empty queue and a lookup to wait for; `select!` fires at most 2 + (distinct permitted addresses) times |
| DialLaws.FiringMakesProgress | src/server/connect.rs:202-253 | every branch that fires ends the search or lowers (pending lookups, queued and active work) |
| DialLaws.AttemptDeadlineBounds | src/server/connect.rs:183-252 | in every reachable state an attempt's deadline lies between its start and the total deadline, and no timer cuts the attempt or the search short of its deadline |
| DialLaws.RecomputationOnlyLowers | src/server/connect.rs:203-226 | an answer that adds candidates makes the attempt's deadline the earlier of itself and an equal share of what is left, and one that adds none leaves it alone |
| DialLaws.GrantsAreKept | src/server/connect.rs:181-188 | a step dials at most one candidate, which becomes the active attempt at once, with a deadline an equal share of the remaining time later |
| DialLaws.PolicyHolds | src/server/connect.rs:257-271 | under an egress policy no dialled address stands for one in a refused prefix, and "not allowed" is answered iff every address found does |
| DialFairness.FairShare | src/server/connect.rs:181-242 | after any run with n outstanding and R left, if no candidate is added later, every later dial is granted at least floor(R/n) and keeps a deadline that far from its start, for every pattern of failures and timeouts, n up to `u32::MAX` |
| DialShareCap.FairShareFailsAboveCap | src/server/connect.rs:185-187 | whatever the policy, for every list of more than `u32::MAX` distinct permitted addresses some punctual run grants a candidate less than floor(R/n) |
| DialShareCap.CrowdsExist | src/server/connect.rs:257-271 | for every n up to 2^120 there are n distinct IPv6 addresses with one port that every egress policy permits |
| Relay.CopyHalf.Poll | src/server/connect.rs:398-426 | resuming a copy loop is one step, including the shared activity instant |
| Relay.CopyBidirectional | src/server/connect.rs:324-365 | under every interleaving, what each side receives and whether both loops ended are those of the run |
| Relay.BytesAreConserved | src/server/connect.rs:398-426 | however the relay ends, each side has a prefix of what the other sent, counters never exceed delivery, and a direction ended by EOF delivered and counted everything |
| RelayTrace.EndsForAReason | src/server/connect.rs:398-461 | a direction has ended by EOF, failing read, failing or overdue write, idleness or shutdown if and only if just such an event of it happened |
| RelayTrace.NothingIsHeldBack | src/server/connect.rs:398-426 | while no such event happened, bytes delivered and bytes being written are together the payload and everything read, and all delivered bytes are counted |
| RelayTrace.WhatIsReadIsWritten | src/server/connect.rs:417-424 | whatever the other direction does in between, a read of n bytes and the end of its write deliver and count exactly the next n bytes of the source, and the loop reads on |
| RelayTrace.EndIsFinal | src/server/connect.rs:398-426 | whatever comes later, a direction stays ended with what it had delivered and the part of a cut-off write that still arrived, and with its counters |
| Relay.IdleTeardownIsCoupled | src/server/connect.rs:406-461 | a direction is torn down for idleness only if no write succeeded in either direction for the whole idle window and its own read waited as long; a write is given up only after the whole idle time |
| Relay.WakeupsAreBounded | src/server/connect.rs:398-426 | no run goes on for ever: at most 4 wake-ups plus 3 for each successful write, and no more successful writes than bytes to relay |
| Relay.RelayEndsInTime | src/server/connect.rs:336-461 | for a positive idle time and punctual timers, after every run: less than three idle times have passed since the last successful write, an unfinished relay has a timer that fires, and at most six timers alone end both directions, still strictly within three idle times of that write |
| Relay.BoundIsTight | src/server/connect.rs:398-461 | for every positive idle time some punctual run ends exactly one nanosecond below that bound |
| Tunnel.EndToEnd | src/server/connect.rs:97-119 | for every accepted stream the server receives a prefix of exactly what follows the request, across the hand-over of the pipelined tail, and the whole tail unless writing it failed |
| UdpAssociation.FirstUsableIsFirst | src/server/udp.rs:200-206 | the address chosen for a domain is of the relay's family and permitted, and none before it is |
| UdpAssociation.Association.TakeClient | src/server/udp.rs:166-247 | a client datagram is one step: lock, decapsulate, rate window, target, egress, send, track |
| UdpAssociation.Association.Turn | src/server/udp.rs:145-285 | one turn of the loop is one step, and a frame leaves for the client exactly when the step records a reply |
| UdpDelivery.SendsIff | src/server/udp.rs:161-247 | in every reachable state a datagram is sent on if and only if it is the client's, unfragmented, admitted by the rate cap, leads to a permitted literal or the first usable address of its answer, and the socket takes it; then with exactly its payload, and the target is tracked |
| UdpDelivery.RepliesIff | src/server/udp.rs:248-261 | the replies of a run are exactly one, with its source and payload, for each datagram from a source that was tracked at that time and is not the client's, in order |
| UdpDelivery.LocksIff | src/server/udp.rs:161-170 | the client of a run is the source of the first datagram of the control peer's IP, even one that does not decapsulate, and nothing else locks it |
| UdpDelivery.OpenUntilClosed | src/server/udp.rs:145-285 | no datagram ends the loop |
| UdpLaws.RepliesAreGenuine | src/server/udp.rs:248-261 | every reply goes to the locked client and decapsulates to exactly (source, payload) of a datagram that arrived in the run from a target tracked at that time, permitted, and reached earlier by a successful send of the client; targets are tracked only after the lock; the lock has the control peer's canonical IP |
| UdpLaws.ReplyComesFromTracked | src/server/udp.rs:248-261 | a step replies only to a datagram of a currently tracked target other than the client |
| UdpLaws.SendComesFromClient | src/server/udp.rs:161-231 | a step sends only an unfragmented datagram of the locked client, its exact payload, to the address it names or the first usable one of its answer |
| UdpLaws.SendsComeFromClient | src/server/udp.rs:161-231 | every send of a run carries such a datagram that arrived in that run from the locked client |
| UdpLaws.PolicyHolds | src/server/udp.rs:202-223 | under an egress policy nothing is sent to, or passed on from, an address that stands for one in a refused prefix |
| UdpLaws.ClientStaysLocked | src/server/udp.rs:161-170 | once locked, the client address never changes |
| Net.CanonicalIff | src/server/udp.rs:109 | the canonical IP of the control peer is an IPv4 address exactly for that address and its mapped form |
| UdpLaws.TargetsAreLatest | src/server/udp.rs:237-245 | set and queue agree, without repetition, and hold exactly the last max(1, cap) insertions |
| UdpRate.AnySecondHoldsTwiceTheCap | src/server/udp.rs:184-236 | any half-open second of any run holds at most 2L successful sends, whatever the delays between check and count |
| UdpRate.RunHoldsCapPerSecond | src/server/udp.rs:131-236 | the first T nanoseconds hold at most L for each second begun |
| UdpRate.RefusedIff | src/server/udp.rs:184-192 | the cap L refuses a datagram if and only if L is zero or the latest L sends were counted in a window that is not over; all of them then lie within the last second |
| PortScan.BindWithRetry | src/server/udp.rs:302-330 | every attempt before the last was refused, the last decides, and the cursor moves on by one, wrapping |
| PortScan.ScanIsPermutationIff | src/server/udp.rs:311-314 | the scan tries every port, and repeats none, if and only if it stays below the wrap or its width divides 2^32 |
| PortScan.ExhaustedMeansAllRefusedIff | src/server/udp.rs:326-329 | after a scan without success every port was refused if and only if the same condition holds |
| Admission.Controller.TryAdmit | src/server/admission.rs:47-65 | refuses exactly when a cap is already met, otherwise adds one live permit; counters match the live permits and both caps hold |
| Admission.Controller.Release | src/server/admission.rs:69-82 | removes one live permit without saturating or missing its entry, leaving no zero entry |
| Admission.Serve | src/server/mod.rs:50-104 | after any sequence of admissions and drops the counters are those of the live permits and within both caps |
| Admission.CapsHold | src/server/admission.rs:47-65 | both caps bound the live permits after every sequence of operations |
| Admission.SlotIsFreed | src/server/admission.rs:68-83 | admitting and dropping cancel out, and a drop makes room for the same IP again |
| AdminClaim.Machine.Act | src/admin/server.rs:134-215 | one system call, or death, of one process is one step of the protocol |
| AdminClaim.Machine.ClaimSocket | src/admin/server.rs:85-112 | with any interference between its calls, success means the path is the process's own live socket under its lock; it gives up only when a call fails, a probe finds a live peer, the lock is held or a foreign file is in the way; undisturbed it succeeds over anything stale |
| AdminClaim.Machine.Serve | src/admin/server.rs:24-64 | a process gives up for those reasons only; otherwise it serves and removes its entry, which stays exactly when the removal fails; it always ends without listener and without lock |
| AdminClaim.LiveEntryIsNeverTaken | src/admin/server.rs:85-112 | in every interleaving the entry of a live listener changes only by its own process's removal, and a file that is not a socket stays |
| AdminClaim.ServingIsExclusive | src/admin/server.rs:32-99 | a serving process listens, is reached through the path, holds the lock, and is the only one; no step of another process gets the lock or changes the path, and its probe turns it away |
| AdminClaim.LoneStarterClaims | src/admin/server.rs:85-112 | with no live or locking peer a starter reaches serving by at most nine steps of its own, over any stale socket |
| AdminClaim.LockHolderClaims | src/admin/server.rs:92-112 | whatever other processes do in between, a process that holds the lock, with nothing live and no foreign file at the path, is never turned away and serves after at most six successful calls |
| AdminClaim.ShutdownMakesRoom | src/admin/server.rs:55-63 | a clean shutdown from any reachable serving state leaves no entry, no listener and no lock, and any idle process can then claim the path |
| AdminClaim.UnexposedIsSafe | src/admin/server.rs:92-102 | without the second probe a live entry is still safe in every run in which no process loses its lock before its reachable listener while another, which probed earlier, is about to lock |
| AdminClaim.ExposedIsTaken | src/admin/server.rs:92-102 | from every state in which that happens, the other process can go on to unlink the live entry |
| AdminClaim.SecondProbeIsNeeded | src/admin/server.rs:62-99 | it does happen: after a crash, and without any crash after a shutdown whose removal of the entry fails |

## Left out

- The handshake deadline around `negotiate`, which drops the connection at any point.
- The texts of errors, log events of the dialler, and byte counters other than those of the relay.
- DNS: a lookup answers with any list of addresses or an error (`src/dns.rs` is not modelled).
- The advertised UDP address and the success reply that carries it (`src/server/udp.rs:76-97`).
- The idle timer of a UDP association: the loop may end at any turn.
- Constant-time comparison in `src/auth.rs`; credentials match when some configured user has both strings.
- Parsing of `PortRange` and of the configuration: a range is any pair with 1 <= start <= end.
- Admin frames, event replay and metrics; the terminal interface; the website; command-line handling.
- File permissions, parent directories and symbolic links at the admin path; programs that ignore its lock,
  except that any program may create a file where there is none.
- AdminClaim.Machine.Serve: other processes act before every call, but not between the removal of the entry and
  the release of lock and listener; the theorems about runs have no such restriction.
- Timers that fire late: `FairShare`, `RelayEndsInTime` and `BoundIsTight` speak of punctual runs, the other
  theorems of all runs.
