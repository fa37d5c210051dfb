/** The SOCKS5 side of the local proxy (RFC 1928, CONNECT only, no
    authentication) as functions: how the handler reads the client's byte
    stream, what it answers, which destination it asks the transport for, and
    what the relay loop forwards. The handler in module SocksServer runs
    the same steps on socket objects and is proved to agree with these. */
module SocksProtocol {
  import opened PyText

  type Byte = b: int | 0 <= b < 256

  // ---------------------------------------------------------------------------
  // A byte stream as it arrives, and recv(n)
  // ---------------------------------------------------------------------------

  /** The bytes a peer sends, grouped as they become available to the reader.
      No group is empty: an empty read means the peer has closed. */
  predicate Segmented(segs: seq<seq<Byte>>)
  {
    forall k :: 0 <= k < |segs| ==> segs[k] != []
  }

  function Flatten(segs: seq<seq<Byte>>): seq<Byte>
  {
    if segs == [] then [] else segs[0] + Flatten(segs[1..])
  }

  datatype Received = Received(data: seq<Byte>, rest: seq<seq<Byte>>)

  /** `recv(n)` on a blocking socket: up to `n` bytes of what is available,
      never more than one arrival group; empty exactly at end of stream
      (or when `n` is 0). */
  function Receive(segs: seq<seq<Byte>>, n: nat): (r: Received)
    requires Segmented(segs)
    ensures Segmented(r.rest)
    ensures |r.data| <= n
    ensures Flatten(segs) == r.data + Flatten(r.rest)
    ensures r.data == [] <==> segs == [] || n == 0
  {
    if segs == [] || n == 0 then Received([], segs)
    else if n < |segs[0]| then
      var rest := [segs[0][n..]] + segs[1..];
      assert rest[1..] == segs[1..];
      assert segs[0] == segs[0][..n] + segs[0][n..];
      Received(segs[0][..n], rest)
    else Received(segs[0], segs[1..])
  }

  // ---------------------------------------------------------------------------
  // Wire constants (RFC 1928 sections 3, 4, 5 and 6)
  // ---------------------------------------------------------------------------

  const Version: Byte := 5
  const CmdConnect: Byte := 1
  const AtypIPv4: Byte := 1
  const AtypDomain: Byte := 3

  /** Bytes the handler asks for when it reads the greeting. */
  const GreetingRead: nat := 262
  /** Bytes the relay loop asks for per read. */
  const Chunk: nat := 8192

  /** Method selection: version 5, method 0 ("no authentication required"). */
  const MethodReply: seq<Byte> := [5, 0]
  /** Reply "succeeded" with an all-zero IPv4 bound address and port. */
  const ReplySucceeded: seq<Byte> := [5, 0, 0, 1, 0, 0, 0, 0, 0, 0]
  /** Reply 0x05 ("connection refused") with an all-zero bound address and port. */
  const ReplyRefused: seq<Byte> := [5, 5, 0, 1, 0, 0, 0, 0, 0, 0]

  // ---------------------------------------------------------------------------
  // Destination decoding
  // ---------------------------------------------------------------------------

  /** `socket.inet_ntoa` of four bytes: dotted decimal. */
  function DottedQuad(ab: seq<Byte>): string
    requires |ab| == 4
  {
    NatText(ab[0]) + "." + NatText(ab[1]) + "." + NatText(ab[2]) + "." + NatText(ab[3])
  }

  /** The dotted form splits back into the four decimal numerals, each of
      which reads back as its byte. */
  lemma DottedQuadParts(ab: seq<Byte>)
    requires |ab| == 4
    ensures Split(DottedQuad(ab), '.') == [NatText(ab[0]), NatText(ab[1]), NatText(ab[2]), NatText(ab[3])]
    ensures forall k :: 0 <= k < 4 ==> ParseInt(Split(DottedQuad(ab), '.')[k]) == Some(ab[k] as int)
  {
    var parts := [NatText(ab[0]), NatText(ab[1]), NatText(ab[2]), NatText(ab[3])];
    assert Join(parts[3..], ".") == NatText(ab[3]);
    assert Join(parts[2..], ".") == NatText(ab[2]) + "." + NatText(ab[3]);
    assert Join(parts[1..], ".") == NatText(ab[1]) + "." + NatText(ab[2]) + "." + NatText(ab[3]);
    assert Join(parts, ".") == DottedQuad(ab);
    forall k | 0 <= k < 4 ensures '.' !in parts[k] && ParseInt(parts[k]) == Some(ab[k] as int) {
      assert forall i :: 0 <= i < |parts[k]| ==> IsDigit(parts[k][i]);
      IntTextRoundTrip(ab[k]);
    }
    SplitJoin(parts, '.');
  }

  /** `int.from_bytes(bs, 'big')`. */
  function BigEndian(bs: seq<Byte>): nat
  {
    if bs == [] then 0 else 256 * BigEndian(bs[..|bs| - 1]) + bs[|bs| - 1]
  }

  /** The port decoded from at most two bytes is a 16-bit value, and from
      exactly two bytes it is 256 * b0 + b1. */
  lemma PortBytes(bs: seq<Byte>)
    requires |bs| <= 2
    ensures BigEndian(bs) < 65536
    ensures |bs| == 2 ==> BigEndian(bs) == 256 * (bs[0] as int) + bs[1] as int
  {
    if |bs| == 2 {
      assert bs[..1][..0] == [];
    }
  }

  // UTF-8 (the Unicode Standard, table 3-7): Python's strict `bytes.decode('utf-8')`.

  predicate Continuation(b: Byte) { 0x80 <= b <= 0xBF }

  /** Length of the well-formed UTF-8 sequence that starts `bs`, 0 if it is ill-formed. */
  function SequenceLength(bs: seq<Byte>): (w: nat)
    requires bs != []
    ensures w <= 4 && w <= |bs|
    ensures w == 1 <==> bs[0] < 0x80
  {
    var b0 := bs[0];
    if b0 < 0x80 then 1
    else if 0xC2 <= b0 <= 0xDF then
      (if |bs| >= 2 && Continuation(bs[1]) then 2 else 0)
    else if 0xE0 <= b0 <= 0xEF then
      var lo := if b0 == 0xE0 then 0xA0 else 0x80;
      var hi := if b0 == 0xED then 0x9F else 0xBF;
      (if |bs| >= 3 && lo <= bs[1] <= hi && Continuation(bs[2]) then 3 else 0)
    else if 0xF0 <= b0 <= 0xF4 then
      var lo := if b0 == 0xF0 then 0x90 else 0x80;
      var hi := if b0 == 0xF4 then 0x8F else 0xBF;
      (if |bs| >= 4 && lo <= bs[1] <= hi && Continuation(bs[2]) && Continuation(bs[3]) then 4 else 0)
    else 0
  }

  /** The character a well-formed sequence at the start of `bs` encodes. */
  function LeadingChar(bs: seq<Byte>): char
    requires bs != [] && SequenceLength(bs) > 0
  {
    var w := SequenceLength(bs);
    var b0: int := bs[0];
    var v: int :=
      if w == 1 then b0
      else if w == 2 then (b0 - 0xC0) * 0x40 + (bs[1] as int - 0x80)
      else if w == 3 then (b0 - 0xE0) * 0x1000 + (bs[1] as int - 0x80) * 0x40 + (bs[2] as int - 0x80)
      else (b0 - 0xF0) * 0x40000 + (bs[1] as int - 0x80) * 0x1000 + (bs[2] as int - 0x80) * 0x40 + (bs[3] as int - 0x80);
    v as char
  }

  /** `bs.decode('utf-8')`; `None` stands for the UnicodeDecodeError. */
  function DecodeUtf8(bs: seq<Byte>): (r: Option<string>)
    ensures r.Some? ==> |r.value| <= |bs|
  {
    if bs == [] then Some([])
    else if SequenceLength(bs) == 0 then None
    else match DecodeUtf8(bs[SequenceLength(bs)..])
      case None => None
      case Some(t) => Some([LeadingChar(bs)] + t)
  }

  predicate IsAscii(bs: seq<Byte>) { forall i :: 0 <= i < |bs| ==> bs[i] < 0x80 }

  function AsciiText(bs: seq<Byte>): (s: string)
    requires IsAscii(bs)
    ensures |s| == |bs|
    ensures forall i :: 0 <= i < |bs| ==> s[i] as int == bs[i]
  {
    if bs == [] then [] else [bs[0] as char] + AsciiText(bs[1..])
  }

  /** ASCII bytes decode to the characters with the same codes, one each. */
  lemma {:induction false} DecodeAscii(bs: seq<Byte>)
    requires IsAscii(bs)
    ensures DecodeUtf8(bs) == Some(AsciiText(bs))
  {
    if bs != [] {
      DecodeAscii(bs[1..]);
    }
  }

  // ---------------------------------------------------------------------------
  // The handshake
  // ---------------------------------------------------------------------------

  /** Why the handler closed the client connection during the handshake. */
  datatype Drop =
    | BadGreeting     // fewer than 2 bytes, or a version other than 5
    | ShortRequest    // the request header read gave fewer than 4 bytes
    | NotConnect      // the command is not CONNECT
    | BadAddressType  // an address type other than IPv4 or domain name
    | BadAddress      // the address could not be read or decoded (the handler raised)

  datatype Outcome = Dropped(why: Drop) | Target(host: string, port: nat)

  /** What the handshake wrote to the client, what is left of the client's
      stream, and how it ended. */
  datatype Opening = Opening(replied: seq<Byte>, rest: seq<seq<Byte>>, outcome: Outcome)

  /** The handshake of `handle_socks` up to the call that opens the channel:
      one read of up to 262 bytes for the greeting, and if it is accepted
      the method reply and the request. */
  function Negotiate(segs: seq<seq<Byte>>): (o: Opening)
    requires Segmented(segs)
    ensures Segmented(o.rest)
    ensures o.replied == [] <==> o.outcome == Dropped(BadGreeting)
    ensures o.replied != [] ==> o.replied == MethodReply
    ensures o.outcome.Target? ==> o.outcome.port < 65536
  {
    var greeting := Receive(segs, GreetingRead);
    if |greeting.data| < 2 || greeting.data[0] != Version then
      Opening([], greeting.rest, Dropped(BadGreeting))
    else ReadRequest(greeting.rest)
  }

  /** After the method reply: one read of 4 bytes for the request header
      (version, command, reserved, address type). Only the command and the
      address type are looked at. */
  function ReadRequest(segs: seq<seq<Byte>>): (o: Opening)
    requires Segmented(segs)
    ensures Segmented(o.rest) && o.replied == MethodReply
    ensures o.outcome != Dropped(BadGreeting)
    ensures o.outcome.Target? ==> o.outcome.port < 65536
  {
    var header := Receive(segs, 4);
    if |header.data| < 4 then Opening(MethodReply, header.rest, Dropped(ShortRequest))
    else if header.data[1] != CmdConnect then Opening(MethodReply, header.rest, Dropped(NotConnect))
    else ReadAddress(header.data[3], header.rest)
  }

  /** The destination address for address type `atyp`: 4 bytes for IPv4, a
      length byte and that many bytes of UTF-8 for a domain name. A short
      IPv4 read makes `inet_ntoa` raise, a missing length byte makes the
      index raise, undecodable bytes make `decode` raise; the domain read may
      return fewer bytes than the length byte says, and that is not checked. */
  function ReadAddress(atyp: Byte, segs: seq<seq<Byte>>): (o: Opening)
    requires Segmented(segs)
    ensures Segmented(o.rest) && o.replied == MethodReply
    ensures o.outcome == Dropped(BadAddressType) <==> atyp != AtypIPv4 && atyp != AtypDomain
    ensures o.outcome.Dropped? ==> o.outcome.why == BadAddressType || o.outcome.why == BadAddress
    ensures o.outcome.Target? ==> o.outcome.port < 65536
  {
    if atyp == AtypIPv4 then ReadIPv4(segs)
    else if atyp == AtypDomain then ReadDomain(segs)
    else Opening(MethodReply, segs, Dropped(BadAddressType))
  }

  function ReadIPv4(segs: seq<seq<Byte>>): (o: Opening)
    requires Segmented(segs)
    ensures Segmented(o.rest) && o.replied == MethodReply
    ensures o.outcome.Dropped? ==> o.outcome.why == BadAddress
    ensures o.outcome.Target? ==> o.outcome.port < 65536
  {
    var addr := Receive(segs, 4);
    if |addr.data| != 4 then Opening(MethodReply, addr.rest, Dropped(BadAddress))
    else ReadPort(DottedQuad(addr.data), addr.rest)
  }

  function ReadDomain(segs: seq<seq<Byte>>): (o: Opening)
    requires Segmented(segs)
    ensures Segmented(o.rest) && o.replied == MethodReply
    ensures o.outcome.Dropped? ==> o.outcome.why == BadAddress
    ensures o.outcome.Target? ==> o.outcome.port < 65536
  {
    var len := Receive(segs, 1);
    if len.data == [] then Opening(MethodReply, len.rest, Dropped(BadAddress))
    else ReadName(len.data[0], len.rest)
  }

  /** The name of a domain request, `n` bytes asked for, then the port. */
  function ReadName(n: Byte, segs: seq<seq<Byte>>): (o: Opening)
    requires Segmented(segs)
    ensures Segmented(o.rest) && o.replied == MethodReply
    ensures o.outcome.Dropped? ==> o.outcome.why == BadAddress
    ensures o.outcome.Target? ==> o.outcome.port < 65536
  {
    var name := Receive(segs, n);
    match DecodeUtf8(name.data)
    case None => Opening(MethodReply, name.rest, Dropped(BadAddress))
    case Some(host) => ReadPort(host, name.rest)
  }

  /** The last step of the handshake: two port bytes, big-endian. A short read
      is not checked: fewer bytes give a smaller number. */
  function ReadPort(host: string, segs: seq<seq<Byte>>): (o: Opening)
    requires Segmented(segs)
    ensures Segmented(o.rest) && o.replied == MethodReply
    ensures o.outcome.Target? && o.outcome.host == host && o.outcome.port < 65536
  {
    var p := Receive(segs, 2);
    PortBytes(p.data);
    Opening(MethodReply, p.rest, Target(host, BigEndian(p.data)))
  }

  /** A greeting read of fewer than 2 bytes or with a version other than 5
      closes the connection with nothing sent; any other greeting is answered
      with exactly `05 00`, whatever methods it lists. */
  lemma GreetingDecides(segs: seq<seq<Byte>>)
    requires Segmented(segs)
    ensures var g := Receive(segs, GreetingRead).data;
      (|g| < 2 || g[0] != 5) <==> Negotiate(segs) == Opening([], Receive(segs, GreetingRead).rest, Dropped(BadGreeting))
    ensures var g := Receive(segs, GreetingRead).data;
      !(|g| < 2 || g[0] != 5) ==> Negotiate(segs).replied == [5, 0]
  {
  }

  /** After an accepted greeting, the connection is closed for a short
      request header exactly when the header read gave fewer than 4 bytes,
      for the command exactly when it is not CONNECT, and for the address
      type exactly when that is neither 1 nor 3; the only bytes sent are
      `05 00`. A full CONNECT header continues with the address read for its
      address type and nothing else, so the version and reserved bytes of
      the request make no difference. */
  lemma RequestDecides(segs: seq<seq<Byte>>)
    requires Segmented(segs)
    requires var g := Receive(segs, GreetingRead).data; |g| >= 2 && g[0] == 5
    ensures var header := Receive(Receive(segs, GreetingRead).rest, 4); var h := header.data;
      && (Negotiate(segs).outcome == Dropped(ShortRequest) <==> |h| < 4)
      && (Negotiate(segs).outcome == Dropped(NotConnect) <==> |h| == 4 && h[1] != 1)
      && (Negotiate(segs).outcome == Dropped(BadAddressType) <==> |h| == 4 && h[1] == 1 && h[3] != 1 && h[3] != 3)
      && (|h| == 4 && h[1] == 1 ==> Negotiate(segs) == ReadAddress(h[3], header.rest))
    ensures Negotiate(segs).replied == MethodReply
  {
  }

  // Client side of RFC 1928, for stating what a conforming client gets.

  /** A version-5 greeting offering `methods`. */
  function Greeting(methods: seq<Byte>): seq<Byte>
    requires |methods| < 256
  {
    [5, |methods|] + methods
  }

  /** The two port bytes, network order. */
  function PortField(port: nat): seq<Byte>
    requires port < 65536
  {
    [port / 256, port % 256]
  }

  /** A CONNECT request to a domain name. */
  function DomainRequest(name: seq<Byte>, port: nat): seq<Byte>
    requires |name| < 256 && port < 65536
  {
    [5, 1, 0, 3, |name|] + name + PortField(port)
  }

  /** A CONNECT request to an IPv4 address. */
  function IPv4Request(ab: seq<Byte>, port: nat): seq<Byte>
    requires |ab| == 4 && port < 65536
  {
    [5, 1, 0, 1] + ab + PortField(port)
  }

  lemma PortFieldRoundTrip(port: nat)
    requires port < 65536
    ensures BigEndian(PortField(port)) == port
  {
    PortBytes(PortField(port));
  }

  /** `recv(n)` when the head group holds at least `n` bytes. */
  lemma ReceiveFrom(seg: seq<Byte>, later: seq<seq<Byte>>, n: nat)
    requires Segmented(later) && 0 < n <= |seg|
    ensures Receive([seg] + later, n) ==
      if n == |seg| then Received(seg, later) else Received(seg[..n], [seg[n..]] + later)
  {
    assert ([seg] + later)[1..] == later;
  }

  /** A greeting that arrives on its own is read whole and accepted. */
  lemma GreetingAccepted(methods: seq<Byte>, later: seq<seq<Byte>>)
    requires |methods| < 256 && Segmented(later)
    ensures Negotiate([Greeting(methods)] + later) == ReadRequest(later)
  {
    ReceiveFrom(Greeting(methods), later, |Greeting(methods)|);
    assert Receive([Greeting(methods)] + later, GreetingRead) == Received(Greeting(methods), later);
  }

  /** A port field arriving as its own group is read whole. */
  lemma ReadPortFrom(host: string, port: nat, later: seq<seq<Byte>>)
    requires port < 65536 && Segmented(later)
    ensures ReadPort(host, [PortField(port)] + later) == Opening(MethodReply, later, Target(host, port))
  {
    ReceiveFrom(PortField(port), later, 2);
    PortFieldRoundTrip(port);
  }

  /** The name read of a domain request: exactly the name, leaving the port. */
  lemma ReceiveName(name: seq<Byte>, port: nat, later: seq<seq<Byte>>)
    requires |name| < 256 && port < 65536 && Segmented(later)
    ensures Receive([name + PortField(port)] + later, |name|) ==
      if name == [] then Received([], [name + PortField(port)] + later)
      else Received(name, [PortField(port)] + later)
  {
    var tail := name + PortField(port);
    if name != [] {
      ReceiveFrom(tail, later, |name|);
      assert tail[..|name|] == name && tail[|name|..] == PortField(port);
    }
  }

  /** The name part of a domain-name request, port included. */
  lemma NameAddress(name: seq<Byte>, port: nat, later: seq<seq<Byte>>, host: string)
    requires |name| < 256 && port < 65536 && Segmented(later)
    requires DecodeUtf8(name) == Some(host)
    ensures ReadName(|name|, [name + PortField(port)] + later)
         == Opening(MethodReply, later, Target(host, port))
  {
    ReceiveName(name, port, later);
    ReadPortFrom(host, port, later);
    if name == [] {
      assert name + PortField(port) == PortField(port);
    }
  }

  /** The length byte of a domain-name request is read on its own. */
  lemma LengthByte(name: seq<Byte>, port: nat, later: seq<seq<Byte>>)
    requires |name| < 256 && port < 65536 && Segmented(later)
    ensures ReadDomain([[|name|] + name + PortField(port)] + later)
         == ReadName(|name|, [name + PortField(port)] + later)
  {
    var tail := [|name|] + name + PortField(port);
    assert tail[..1] == [|name|] && tail[1..] == name + PortField(port);
    ReceiveFrom(tail, later, 1);
  }

  /** Greeting and request header of a domain-name request: what is left
      is the name read. */
  lemma DomainHeader(methods: seq<Byte>, name: seq<Byte>, port: nat, later: seq<seq<Byte>>)
    requires |methods| < 256 && |name| < 256 && port < 65536 && Segmented(later)
    ensures Negotiate([Greeting(methods), DomainRequest(name, port)] + later)
         == ReadName(|name|, [name + PortField(port)] + later)
  {
    var req := DomainRequest(name, port);
    assert [Greeting(methods), req] + later == [Greeting(methods)] + ([req] + later);
    GreetingAccepted(methods, [req] + later);
    ReceiveFrom(req, later, 4);
    assert req[..4] == [5, 1, 0, 3];
    assert req[4..] == [|name|] + name + PortField(port);
    assert ReadRequest([req] + later) == ReadDomain([req[4..]] + later);
    LengthByte(name, port, later);
  }

  /** A client that sends its greeting, waits for the method reply (as
      RFC 1928 section 4 has it do) and then sends a CONNECT request for a
      domain name gets exactly that name, decoded, and that port. */
  lemma DomainRoundTrip(methods: seq<Byte>, name: seq<Byte>, port: nat, later: seq<seq<Byte>>, host: string)
    requires |methods| < 256 && |name| < 256 && port < 65536 && Segmented(later)
    requires DecodeUtf8(name) == Some(host)
    ensures Negotiate([Greeting(methods), DomainRequest(name, port)] + later)
         == Opening(MethodReply, later, Target(host, port))
  {
    DomainHeader(methods, name, port, later);
    NameAddress(name, port, later, host);
  }

  /** The same for a CONNECT request to an IPv4 address: the transport is
      asked for the dotted-decimal form of the four address bytes. */
  lemma IPv4RoundTrip(methods: seq<Byte>, ab: seq<Byte>, port: nat, later: seq<seq<Byte>>)
    requires |methods| < 256 && |ab| == 4 && port < 65536 && Segmented(later)
    ensures Negotiate([Greeting(methods), IPv4Request(ab, port)] + later)
         == Opening(MethodReply, later, Target(DottedQuad(ab), port))
  {
    var req := IPv4Request(ab, port);
    assert [Greeting(methods), req] + later == [Greeting(methods)] + ([req] + later);
    GreetingAccepted(methods, [req] + later);
    ReceiveFrom(req, later, 4);
    var tail := req[4..];
    assert tail == ab + PortField(port);
    assert ReadRequest([req] + later) == ReadIPv4([tail] + later);
    ReceiveFrom(tail, later, 4);
    assert tail[..4] == ab && tail[4..] == PortField(port);
    assert ReadIPv4([tail] + later) == ReadPort(DottedQuad(ab), [PortField(port)] + later);
    ReceiveFrom(PortField(port), later, 2);
    PortFieldRoundTrip(port);
  }

  // ---------------------------------------------------------------------------
  // The relay loop
  // ---------------------------------------------------------------------------

  /** What one `select` round and the `recv` after it report for one endpoint. */
  datatype Readiness =
    | Quiet     // not in the readable set this round (the 1-second wait ran out)
    | Readable  // readable: `recv(8192)` returns what the peer sent, or b'' at its end
    | Failing   // `select` or `recv` raises

  /** What one send call on the other endpoint does with a chunk. */
  datatype Acceptance = Takes(limit: nat) | Refuses

  /** One iteration of the relay loop, as the environment resolves it. */
  datatype Round = Round(client: Readiness, toChannel: Acceptance,
                         channel: Readiness, toClient: Acceptance, alive: bool)

  /** `sock.send(data)` returns how many bytes it took and the caller must
      send the rest; `sock.sendall(data)` keeps sending until all is taken. */
  datatype SendCall = SendOnce | SendAll

  /** Why the relay loop ended. */
  datatype Stop = ClientClosed | ChannelClosed | IoFailed | TransportDown

  /** The relay's effect: what is left unread on each side, what it read from
      each side and what it wrote to each side, and why it stopped (`None`
      when the rounds given ran out with the loop still going). */
  datatype Pump = Pump(clientRest: seq<seq<Byte>>, channelRest: seq<seq<Byte>>,
                       fromClient: seq<Byte>, fromChannel: seq<Byte>,
                       toChannel: seq<Byte>, toClient: seq<Byte>, stop: Option<Stop>)

  /** The bytes one send call puts on the wire. */
  function Delivered(call: SendCall, data: seq<Byte>, a: Acceptance): (out: seq<Byte>)
    requires a.Takes?
    ensures out <= data
    ensures call == SendAll || a.limit >= |data| ==> out == data
  {
    match call
    case SendAll => data
    case SendOnce => if a.limit < |data| then data[..a.limit] else data
  }

  /** What one endpoint's half of an iteration did: the bytes read from it,
      what is left of its stream, the bytes sent on to the other endpoint,
      and whether the loop must stop. */
  datatype Half = Half(read: seq<Byte>, rest: seq<seq<Byte>>, sent: seq<Byte>, stop: Option<Stop>)

  /** `if sock in r: data = sock.recv(8192); if len(data) == 0: break;
      other.send(data)`, for either endpoint. `closed` is the reason given
      when the read is empty. */
  function Side(call: SendCall, input: seq<seq<Byte>>, ready: Readiness, a: Acceptance, closed: Stop): (h: Half)
    requires Segmented(input)
    ensures Segmented(h.rest) && Flatten(input) == h.read + Flatten(h.rest)
    ensures h.sent <= h.read && |h.read| <= Chunk
    ensures ready == Readable && input == [] ==> h.stop == Some(closed) && h.sent == []
    ensures ready == Quiet ==> h == Half([], input, [], None)
    ensures (call == SendAll && h.stop != Some(IoFailed)) || (a.Takes? && a.limit >= Chunk) ==> h.sent == h.read
  {
    match ready
    case Failing => Half([], input, [], Some(IoFailed))
    case Quiet => Half([], input, [], None)
    case Readable =>
      var c := Receive(input, Chunk);
      if c.data == [] then Half([], c.rest, [], Some(closed))
      else if a.Refuses? then Half(c.data, c.rest, [], Some(IoFailed))
      else Half(c.data, c.rest, Delivered(call, c.data, a), None)
  }

  /** One pass of the `while True` body: the client side first, then the
      channel side, then the transport liveness check. */
  function Iterate(call: SendCall, cin: seq<seq<Byte>>, hin: seq<seq<Byte>>, r: Round): (p: Pump)
    requires Segmented(cin) && Segmented(hin)
    ensures Segmented(p.clientRest) && Segmented(p.channelRest)
    ensures Flatten(cin) == p.fromClient + Flatten(p.clientRest)
    ensures Flatten(hin) == p.fromChannel + Flatten(p.channelRest)
    ensures p.toChannel <= p.fromClient && p.toClient <= p.fromChannel
    ensures !r.alive ==> p.stop.Some?
    ensures call == SendAll && p.stop != Some(IoFailed) ==> p.toChannel == p.fromClient && p.toClient == p.fromChannel
    ensures r.toChannel.Takes? && r.toChannel.limit >= Chunk && r.toClient.Takes? && r.toClient.limit >= Chunk ==>
      p.toChannel == p.fromClient && p.toClient == p.fromChannel
  {
    var c := Side(call, cin, r.client, r.toChannel, ClientClosed);
    if c.stop.Some? then Pump(c.rest, hin, c.read, [], c.sent, [], c.stop)
    else
      var h := Side(call, hin, r.channel, r.toClient, ChannelClosed);
      Pump(c.rest, h.rest, c.read, h.read, c.sent, h.sent,
           if h.stop.Some? then h.stop else if r.alive then None else Some(TransportDown))
  }

  /** `p` followed by `q`, where `q` started from what `p` left unread. */
  function Then(p: Pump, q: Pump): Pump
  {
    Pump(q.clientRest, q.channelRest, p.fromClient + q.fromClient, p.fromChannel + q.fromChannel,
         p.toChannel + q.toChannel, p.toClient + q.toClient, q.stop)
  }

  lemma ThenAssociates(p: Pump, q: Pump, t: Pump)
    ensures Then(Then(p, q), t) == Then(p, Then(q, t))
  {
    assert (p.fromClient + q.fromClient) + t.fromClient == p.fromClient + (q.fromClient + t.fromClient);
    assert (p.fromChannel + q.fromChannel) + t.fromChannel == p.fromChannel + (q.fromChannel + t.fromChannel);
    assert (p.toChannel + q.toChannel) + t.toChannel == p.toChannel + (q.toChannel + t.toChannel);
    assert (p.toClient + q.toClient) + t.toClient == p.toClient + (q.toClient + t.toClient);
  }

  /** Following a pump with nothing leaves it as it was. */
  lemma ThenNothing(p: Pump)
    requires p.stop.None?
    ensures Then(p, Pump(p.clientRest, p.channelRest, [], [], [], [], None)) == p
  {
    assert p.fromClient + [] == p.fromClient && p.fromChannel + [] == p.fromChannel;
    assert p.toChannel + [] == p.toChannel && p.toClient + [] == p.toClient;
  }

  /** Nothing followed by a pump is that pump. */
  lemma NothingThen(cin: seq<seq<Byte>>, hin: seq<seq<Byte>>, q: Pump)
    ensures Then(Pump(cin, hin, [], [], [], [], None), q) == q
  {
    assert [] + q.fromClient == q.fromClient && [] + q.fromChannel == q.fromChannel;
    assert [] + q.toChannel == q.toChannel && [] + q.toClient == q.toClient;
  }

  /** The relay loop over the rounds the environment produces. */
  function Relay(call: SendCall, cin: seq<seq<Byte>>, hin: seq<seq<Byte>>, rounds: seq<Round>): (p: Pump)
    requires Segmented(cin) && Segmented(hin)
    ensures Segmented(p.clientRest) && Segmented(p.channelRest)
    ensures Flatten(cin) == p.fromClient + Flatten(p.clientRest)
    ensures Flatten(hin) == p.fromChannel + Flatten(p.channelRest)
    decreases |rounds|
  {
    if rounds == [] then Pump(cin, hin, [], [], [], [], None)
    else
      var first := Iterate(call, cin, hin, rounds[0]);
      if first.stop.Some? then first
      else
        var more := Relay(call, first.clientRest, first.channelRest, rounds[1..]);
        Associates(first.fromClient, more.fromClient, Flatten(more.clientRest));
        Associates(first.fromChannel, more.fromChannel, Flatten(more.channelRest));
        Pump(more.clientRest, more.channelRest,
             first.fromClient + more.fromClient, first.fromChannel + more.fromChannel,
             first.toChannel + more.toChannel, first.toClient + more.toClient, more.stop)
  }

  /** One more round extends a relay that is still going by one iteration,
      and leaves a relay that has stopped as it was. */
  lemma {:induction false} RelaySnoc(call: SendCall, cin: seq<seq<Byte>>, hin: seq<seq<Byte>>, rounds: seq<Round>, r: Round)
    requires Segmented(cin) && Segmented(hin)
    ensures var p := Relay(call, cin, hin, rounds);
      Relay(call, cin, hin, rounds + [r]) ==
        if p.stop.Some? then p else Then(p, Iterate(call, p.clientRest, p.channelRest, r))
    decreases |rounds|
  {
    if rounds == [] {
      RelayOne(call, cin, hin, r);
    } else {
      assert (rounds + [r])[0] == rounds[0];
      assert (rounds + [r])[1..] == rounds[1..] + [r];
      var first := Iterate(call, cin, hin, rounds[0]);
      if first.stop.None? {
        RelaySnoc(call, first.clientRest, first.channelRest, rounds[1..], r);
        var more := Relay(call, first.clientRest, first.channelRest, rounds[1..]);
        if more.stop.None? {
          ThenAssociates(first, more, Iterate(call, more.clientRest, more.channelRest, r));
        }
      }
    }
  }

  /** A relay of one round is that round's iteration. */
  lemma RelayOne(call: SendCall, cin: seq<seq<Byte>>, hin: seq<seq<Byte>>, r: Round)
    requires Segmented(cin) && Segmented(hin)
    ensures Relay(call, cin, hin, [r]) == Iterate(call, cin, hin, r)
    ensures Relay(call, cin, hin, [] + [r]) == Then(Relay(call, cin, hin, []), Iterate(call, cin, hin, r))
  {
    assert [] + [r] == [r];
    var first := Iterate(call, cin, hin, r);
    if first.stop.None? {
      assert [r][1..] == [];
      ThenNothing(first);
    }
    NothingThen(cin, hin, first);
  }

  /** Once the relay has stopped, later rounds change nothing. */
  lemma {:induction false} RelayStopped(call: SendCall, cin: seq<seq<Byte>>, hin: seq<seq<Byte>>, rounds: seq<Round>, later: seq<Round>)
    requires Segmented(cin) && Segmented(hin)
    requires Relay(call, cin, hin, rounds).stop.Some?
    ensures Relay(call, cin, hin, rounds + later) == Relay(call, cin, hin, rounds)
    decreases |rounds|
  {
    assert rounds != [];
    assert (rounds + later)[0] == rounds[0];
    assert (rounds + later)[1..] == rounds[1..] + later;
    var first := Iterate(call, cin, hin, rounds[0]);
    if first.stop.None? {
      RelayStopped(call, first.clientRest, first.channelRest, rounds[1..], later);
    }
  }

  lemma SplitAt<T>(s: seq<T>, i: nat)
    requires i <= |s|
    ensures s[..i] + s[i..] == s
    ensures i == |s| ==> s[..i] == s
    ensures i < |s| ==> s[..i + 1] == s[..i] + [s[i]]
  {
  }

  /** The relay over the first `i + 1` rounds, from the relay over the first
      `i` when that one is still going. */
  lemma RelayAdvance(call: SendCall, cin: seq<seq<Byte>>, hin: seq<seq<Byte>>, rounds: seq<Round>, i: nat)
    requires Segmented(cin) && Segmented(hin) && i < |rounds|
    requires Relay(call, cin, hin, rounds[..i]).stop.None?
    ensures var p := Relay(call, cin, hin, rounds[..i]);
      Relay(call, cin, hin, rounds[..i + 1]) == Then(p, Iterate(call, p.clientRest, p.channelRest, rounds[i]))
  {
    SplitAt(rounds, i);
    RelaySnoc(call, cin, hin, rounds[..i], rounds[i]);
  }

  /** The relay over a prefix that has stopped, or over all rounds, is the
      relay over all rounds. */
  lemma RelayPrefixDone(call: SendCall, cin: seq<seq<Byte>>, hin: seq<seq<Byte>>, rounds: seq<Round>, i: nat)
    requires Segmented(cin) && Segmented(hin) && i <= |rounds|
    requires i == |rounds| || Relay(call, cin, hin, rounds[..i]).stop.Some?
    ensures Relay(call, cin, hin, rounds) == Relay(call, cin, hin, rounds[..i])
  {
    SplitAt(rounds, i);
    if i < |rounds| {
      RelayStopped(call, cin, hin, rounds[..i], rounds[i..]);
    }
  }

  /** Every send call takes the whole chunk it is given. */
  predicate WholeSends(rounds: seq<Round>)
  {
    forall k :: 0 <= k < |rounds| ==>
      rounds[k].toChannel.Takes? && rounds[k].toChannel.limit >= Chunk &&
      rounds[k].toClient.Takes? && rounds[k].toClient.limit >= Chunk
  }

  /** The relay as written is byte-exact when every `send` takes the whole
      chunk: what reaches each side is exactly what was read from the other,
      in the order read. */
  lemma {:induction false} WholeSendsRelayExactly(call: SendCall, cin: seq<seq<Byte>>, hin: seq<seq<Byte>>, rounds: seq<Round>)
    requires Segmented(cin) && Segmented(hin) && WholeSends(rounds)
    ensures var p := Relay(call, cin, hin, rounds);
      p.toChannel == p.fromClient && p.toClient == p.fromChannel
    decreases |rounds|
  {
    if rounds != [] {
      assert WholeSends(rounds[1..]);
      var first := Iterate(call, cin, hin, rounds[0]);
      if first.stop.None? {
        WholeSendsRelayExactly(call, first.clientRest, first.channelRest, rounds[1..]);
      }
    }
  }

  /** With `sendall` the relay is byte-exact whatever the peers' buffers
      take: only a send that raises can lose the chunk it was given, and it
      ends the loop. */
  lemma {:induction false} SendAllRelaysExactly(cin: seq<seq<Byte>>, hin: seq<seq<Byte>>, rounds: seq<Round>)
    requires Segmented(cin) && Segmented(hin)
    ensures var p := Relay(SendAll, cin, hin, rounds);
      p.stop != Some(IoFailed) ==> p.toChannel == p.fromClient && p.toClient == p.fromChannel
    decreases |rounds|
  {
    if rounds != [] {
      var first := Iterate(SendAll, cin, hin, rounds[0]);
      if first.stop.None? {
        SendAllRelaysExactly(first.clientRest, first.channelRest, rounds[1..]);
      }
    }
  }

  /** The relay as written: a `send` that takes only part of a chunk loses the
      rest. The client sends 3 bytes, the channel takes 1, the client then
      closes; 2 bytes read from the client never reach the channel. */
  lemma ShortSendLosesBytes()
    ensures var p := Relay(SendOnce, [[1, 2, 3]], [],
                           [Round(Readable, Takes(1), Quiet, Takes(0), true),
                            Round(Readable, Takes(Chunk), Quiet, Takes(Chunk), true)]);
      p.stop == Some(ClientClosed) && p.fromClient == [1, 2, 3] && p.toChannel == [1]
  {
    var rounds := [Round(Readable, Takes(1), Quiet, Takes(0), true),
                   Round(Readable, Takes(Chunk), Quiet, Takes(Chunk), true)];
    ShortFirstRound();
    assert rounds[1..] == [Round(Readable, Takes(Chunk), Quiet, Takes(Chunk), true)];
    ClosedSecondRound();
  }

  /** First round of the counterexample: three bytes read, one taken. */
  lemma ShortFirstRound()
    ensures Iterate(SendOnce, [[1, 2, 3]], [], Round(Readable, Takes(1), Quiet, Takes(0), true))
         == Pump([], [], [1, 2, 3], [], [1], [], None)
  {
    assert Receive([[1, 2, 3]], Chunk) == Received([1, 2, 3], []);
  }

  /** Second round of the counterexample: the client has closed. */
  lemma ClosedSecondRound()
    ensures Relay(SendOnce, [], [], [Round(Readable, Takes(Chunk), Quiet, Takes(Chunk), true)])
         == Pump([], [], [], [], [], [], Some(ClientClosed))
  {
    var r := Round(Readable, Takes(Chunk), Quiet, Takes(Chunk), true);
    assert Iterate(SendOnce, [], [], r) == Pump([], [], [], [], [], [], Some(ClientClosed));
  }

  /** A round whose liveness check reports the transport dead ends the relay
      there at the latest: the loop never runs past it. */
  lemma {:induction false} DeadTransportStopsRelay(call: SendCall, cin: seq<seq<Byte>>, hin: seq<seq<Byte>>,
                                                  rounds: seq<Round>, i: nat)
    requires Segmented(cin) && Segmented(hin)
    requires i < |rounds| && !rounds[i].alive
    ensures Relay(call, cin, hin, rounds).stop.Some?
    decreases |rounds|
  {
    var first := Iterate(call, cin, hin, rounds[0]);
    if i > 0 && first.stop.None? {
      DeadTransportStopsRelay(call, first.clientRest, first.channelRest, rounds[1..], i - 1);
    }
  }

  /** A round in which a readable side is at end of stream ends the relay:
      an empty read on the client, or on the channel once the client side
      has passed without stopping (quiet, or read and forwarded), stops the
      loop with nothing sent for it. */
  lemma EmptyReadStopsRelay(call: SendCall, cin: seq<seq<Byte>>, hin: seq<seq<Byte>>, r: Round)
    requires Segmented(cin) && Segmented(hin)
    ensures r.client == Readable && cin == [] ==>
      Iterate(call, cin, hin, r).stop == Some(ClientClosed) && Iterate(call, cin, hin, r).toChannel == []
    ensures Side(call, cin, r.client, r.toChannel, ClientClosed).stop.None? && r.channel == Readable && hin == [] ==>
      Iterate(call, cin, hin, r).stop == Some(ChannelClosed) && Iterate(call, cin, hin, r).toClient == []
  {
  }
}
