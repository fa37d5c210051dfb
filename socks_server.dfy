// The local SOCKS5 front end of the SSH dynamic port forward: the accept
// loop of `ForwardServer` and the per-connection handler `handle_socks`,
// written over sockets whose state changes call by call.

module SocksServer {
  import opened PyText
  import opened SocksProtocol

  /** One end of a stream connection as the handler sees it: the groups of
      bytes the peer has sent that are not read yet, everything written to
      the connection so far, and whether it is closed. Used both for the
      accepted client socket and for the SSH channel. */
  class Stream {
    var incoming: seq<seq<Byte>>
    var sent: seq<Byte>
    var closed: bool

    predicate Valid()
      reads this
    {
      Segmented(incoming)
    }

    constructor (arriving: seq<seq<Byte>>)
      requires Segmented(arriving)
      ensures Valid()
      ensures incoming == arriving && sent == [] && !closed
    {
      incoming := arriving;
      sent := [];
      closed := false;
    }

    /** `recv(n)`. */
    method Recv(n: nat) returns (data: seq<Byte>)
      requires Valid()
      modifies this
      ensures Valid()
      ensures data == Receive(old(incoming), n).data && incoming == Receive(old(incoming), n).rest
      ensures |data| <= n && (data == [] <==> old(incoming) == [] || n == 0)
      ensures sent == old(sent) && closed == old(closed)
    {
      var r := Receive(incoming, n);
      data := r.data;
      incoming := r.rest;
    }

    /** `send(data)` (or `sendall(data)`) with the peer's buffer taking what
        `a` says; `ok` is false when the call raises. */
    method Send(call: SendCall, data: seq<Byte>, a: Acceptance) returns (ok: bool)
      modifies this
      ensures ok == a.Takes?
      ensures ok ==> sent == old(sent) + Delivered(call, data, a)
      ensures !ok ==> sent == old(sent)
      ensures incoming == old(incoming) && closed == old(closed)
    {
      ok := a.Takes?;
      if ok {
        sent := sent + Delivered(call, data, a);
      }
    }

    /** `close()`; closing twice is harmless. */
    method Close()
      modifies this
      ensures closed
      ensures incoming == old(incoming) && sent == old(sent)
    {
      closed := true;
    }
  }

  /** The handshake part of `handle_socks`, up to the point where the channel
      is opened: the reads, the method reply, and the close on every path
      that gives up. */
  method Handshake(client: Stream) returns (outcome: Outcome)
    requires client.Valid()
    modifies client
    ensures client.Valid()
    ensures var o := Negotiate(old(client.incoming));
      && outcome == o.outcome
      && client.incoming == o.rest
      && client.sent == old(client.sent) + o.replied
    ensures client.closed == (outcome.Dropped? || old(client.closed))
  {
    var data := client.Recv(GreetingRead);
    if |data| < 2 || data[0] != Version {
      client.Close();
      return Dropped(BadGreeting);
    }
    var _ := client.Send(SendOnce, MethodReply, Takes(|MethodReply|));
    outcome := Request(client);
  }

  /** The request part of the handshake, after the method reply. */
  method Request(client: Stream) returns (outcome: Outcome)
    requires client.Valid()
    modifies client
    ensures client.Valid()
    ensures var o := ReadRequest(old(client.incoming));
      outcome == o.outcome && client.incoming == o.rest && client.sent == old(client.sent)
    ensures client.closed == (outcome.Dropped? || old(client.closed))
  {
    var data := client.Recv(4);
    if |data| < 4 {
      client.Close();
      return Dropped(ShortRequest);
    }
    if data[1] != CmdConnect {
      client.Close();
      return Dropped(NotConnect);
    }
    var atyp := data[3];
    var host: string;
    if atyp == AtypIPv4 {
      var ab := client.Recv(4);
      if |ab| != 4 {
        // `inet_ntoa` raises; the handler's `finally` closes the client.
        client.Close();
        return Dropped(BadAddress);
      }
      host := DottedQuad(ab);
    } else if atyp == AtypDomain {
      var len := client.Recv(1);
      if len == [] {
        // indexing the empty read raises
        client.Close();
        return Dropped(BadAddress);
      }
      var name := client.Recv(len[0]);
      match DecodeUtf8(name)
      case None =>
        client.Close();
        return Dropped(BadAddress);
      case Some(h) =>
        host := h;
    } else {
      client.Close();
      return Dropped(BadAddressType);
    }
    var portBytes := client.Recv(2);
    PortBytes(portBytes);
    outcome := Target(host, BigEndian(portBytes));
  }

  /** One half of a relay iteration: if `from` is readable, read a chunk and
      pass it to `to`. */
  method Forward(from: Stream, to: Stream, call: SendCall, ready: Readiness, a: Acceptance, closed: Stop)
      returns (stop: Option<Stop>)
    requires from != to && from.Valid()
    modifies from, to
    ensures from.Valid()
    ensures var h := Side(call, old(from.incoming), ready, a, closed);
      && from.incoming == h.rest
      && to.sent == old(to.sent) + h.sent
      && stop == h.stop
    ensures from.sent == old(from.sent) && from.closed == old(from.closed)
    ensures to.incoming == old(to.incoming) && to.closed == old(to.closed)
  {
    if ready == Failing {
      return Some(IoFailed);
    }
    if ready == Quiet {
      return None;
    }
    var data := from.Recv(Chunk);
    if data == [] {
      return Some(closed);
    }
    var ok := to.Send(call, data, a);
    if !ok {
      return Some(IoFailed);
    }
    stop := None;
  }

  class ForwardServer {
    const localPort: nat

    constructor (port: nat)
      ensures localPort == port
    {
      localPort := port;
    }

    /** The accept loop: each successful `accept` hands the connection to a
        handler thread; the first `accept` that raises ends the loop for
        good. `accepts[k]` says whether the k-th call succeeds. */
    method Run(accepts: seq<bool>) returns (served: nat)
      ensures served <= |accepts|
      ensures forall k :: 0 <= k < served ==> accepts[k]
      ensures served < |accepts| ==> !accepts[served]
      ensures served == ServedBeforeError(accepts)
    {
      served := 0;
      while served < |accepts| && accepts[served]
        invariant served <= |accepts|
        invariant forall k :: 0 <= k < served ==> accepts[k]
        invariant ServedBeforeError(accepts) == served + ServedBeforeError(accepts[served..])
      {
        assert accepts[served..][1..] == accepts[served + 1..];
        served := served + 1;
      }
    }

    /** `handle_socks` for one accepted `client`. The transport either opens
        the channel (`opens`), whose remote end then sends `remote`, or
        refuses it; `rounds` says how each relay iteration goes. `call` is
        the send used by the relay: `SendOnce` as written, `SendAll` for the
        corrected relay. Returns the transport's channel, or null when none
        was opened. */
    method HandleSocks(client: Stream, call: SendCall, opens: bool, remote: seq<seq<Byte>>, rounds: seq<Round>)
        returns (outcome: Outcome, channel: Stream?)
      requires client.Valid() && !client.closed && Segmented(remote)
      modifies client
      ensures client.Valid()
      ensures var o := Negotiate(old(client.incoming)); outcome == o.outcome
      // A handshake that gives up closes the client after at most the method reply.
      ensures var o := Negotiate(old(client.incoming));
        outcome.Dropped? ==>
          && channel == null && client.closed && client.incoming == o.rest
          && client.sent == old(client.sent) + o.replied
      // A refused channel gets the refusal reply and the client is closed.
      ensures var o := Negotiate(old(client.incoming));
        outcome.Target? && !opens ==>
          && channel == null && client.closed && client.incoming == o.rest
          && client.sent == old(client.sent) + o.replied + ReplyRefused
      // An opened channel gets the success reply, then the relay runs; both
      // ends are closed once it stops and left open while it still runs.
      ensures var o := Negotiate(old(client.incoming));
        outcome.Target? && opens ==>
          var p := Relay(call, o.rest, remote, rounds);
          && channel != null && fresh(channel) && channel.Valid()
          && client.incoming == p.clientRest && channel.incoming == p.channelRest
          && client.sent == old(client.sent) + o.replied + ReplySucceeded + p.toClient
          && channel.sent == p.toChannel
          && client.closed == p.stop.Some? && channel.closed == p.stop.Some?
    {
      channel := null;
      outcome := Handshake(client);
      if outcome.Dropped? {
        return;
      }
      if !opens {
        var _ := client.Send(SendOnce, ReplyRefused, Takes(|ReplyRefused|));
        client.Close();
        return;
      }
      channel := new Stream(remote);
      var _ := client.Send(SendOnce, ReplySucceeded, Takes(|ReplySucceeded|));
      RelayLoop(client, channel, call, rounds);
    }
  }

  /** One pass of the relay loop's body: the client side, then the channel
      side, then the check that the transport is still active. */
  method Iteration(client: Stream, channel: Stream, call: SendCall, r: Round) returns (stop: Option<Stop>)
    requires client != channel && client.Valid() && channel.Valid()
    modifies client, channel
    ensures client.Valid() && channel.Valid()
    ensures var p := Iterate(call, old(client.incoming), old(channel.incoming), r);
      && client.incoming == p.clientRest && channel.incoming == p.channelRest
      && client.sent == old(client.sent) + p.toClient
      && channel.sent == old(channel.sent) + p.toChannel
      && stop == p.stop
    ensures client.closed == old(client.closed) && channel.closed == old(channel.closed)
  {
    stop := Forward(client, channel, call, r.client, r.toChannel, ClientClosed);
    if stop.None? {
      stop := Forward(channel, client, call, r.channel, r.toClient, ChannelClosed);
      if stop.None? && !r.alive {
        stop := Some(TransportDown);
      }
    } else {
      assert client.sent == old(client.sent) + [];
    }
  }

  lemma ThenSent(clientBase: seq<Byte>, channelBase: seq<Byte>, p: Pump, q: Pump)
    ensures clientBase + p.toClient + q.toClient == clientBase + Then(p, q).toClient
    ensures channelBase + p.toChannel + q.toChannel == channelBase + Then(p, q).toChannel
  {
  }

  /** The `while True` relay loop of `handle_socks` and the `finally` that
      closes both ends once it stops. */
  method RelayLoop(client: Stream, channel: Stream, call: SendCall, rounds: seq<Round>)
    requires client != channel && client.Valid() && channel.Valid()
    requires !client.closed && !channel.closed
    modifies client, channel
    ensures client.Valid() && channel.Valid()
    ensures var p := Relay(call, old(client.incoming), old(channel.incoming), rounds);
      && client.incoming == p.clientRest && channel.incoming == p.channelRest
      && client.sent == old(client.sent) + p.toClient
      && channel.sent == old(channel.sent) + p.toChannel
      && client.closed == p.stop.Some? && channel.closed == p.stop.Some?
  {
    var stop := RelayRounds(client, channel, call, rounds);
    if stop.Some? {
      client.Close();
      channel.Close();
    }
  }

  /** The loop itself, over the rounds the environment produces: it runs
      until an iteration stops it or the rounds run out. */
  method RelayRounds(client: Stream, channel: Stream, call: SendCall, rounds: seq<Round>) returns (stop: Option<Stop>)
    requires client != channel && client.Valid() && channel.Valid()
    requires !client.closed && !channel.closed
    modifies client, channel
    ensures client.Valid() && channel.Valid() && !client.closed && !channel.closed
    ensures var p := Relay(call, old(client.incoming), old(channel.incoming), rounds);
      && client.incoming == p.clientRest && channel.incoming == p.channelRest
      && client.sent == old(client.sent) + p.toClient
      && channel.sent == old(channel.sent) + p.toChannel
      && stop == p.stop
  {
    ghost var cin := client.incoming;
    ghost var hin := channel.incoming;
    ghost var clientBase := client.sent;
    ghost var channelBase := channel.sent;
    assert rounds[..0] == [];
    ghost var p := Pump(cin, hin, [], [], [], [], None);
    var i := 0;
    stop := None;
    while i < |rounds| && stop.None?
      invariant 0 <= i <= |rounds|
      invariant p == Relay(call, cin, hin, rounds[..i])
      invariant client.Valid() && channel.Valid()
      invariant !client.closed && !channel.closed
      invariant client.incoming == p.clientRest && channel.incoming == p.channelRest
      invariant client.sent == clientBase + p.toClient && channel.sent == channelBase + p.toChannel
      invariant stop == p.stop
    {
      stop := Iteration(client, channel, call, rounds[i]);
      ghost var q := Iterate(call, p.clientRest, p.channelRest, rounds[i]);
      RelayAdvance(call, cin, hin, rounds, i);
      ThenSent(clientBase, channelBase, p, q);
      p := Then(p, q);
      i := i + 1;
    }
    RelayPrefixDone(call, cin, hin, rounds, i);
  }

  /** How many connections the accept loop hands out before the first
      `accept` that raises. */
  function ServedBeforeError(accepts: seq<bool>): (n: nat)
    ensures n <= |accepts|
  {
    if accepts == [] || !accepts[0] then 0 else 1 + ServedBeforeError(accepts[1..])
  }
}
