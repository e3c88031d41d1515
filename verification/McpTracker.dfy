/** The MCP fields of a world and the functions of mcp.c on them, against the steps of
    `Mcp`. */
module McpTrackers {
  import opened Lines
  import Text
  import opened Codec
  import McpText
  import opened Mcp

  class McpTracker {
    var mcpKey: Option<string>
    var mcpNegotiated: bool
    var mcpInitmsg: Option<string>
    var serverUp: bool                 // server_fd != -1
    var serverToqueue: seq<LineData>   // the MCP lines in it, with what the main loop took
    var clientToqueue: seq<LineData>
    ghost var past: seq<Note>

    /** All lines that go through here are flagged as MCP lines. */
    ghost predicate Valid()
      reads this
    {
      (forall l <- serverToqueue :: l.flags == LINE_MCP) && (forall l <- clientToqueue :: l.flags == LINE_MCP)
    }

    ghost function Abs(): Session
      reads this
    {
      Session(mcpKey, mcpNegotiated, mcpInitmsg, serverUp, Strings(serverToqueue), Strings(clientToqueue), past)
    }

    constructor ()
      ensures Valid() && Abs() == NEW_SESSION
    {
      mcpKey, mcpNegotiated, mcpInitmsg, serverUp := None, false, None, false;
      serverToqueue, clientToqueue, past := [], [], [];
    }

    method AppendToServer(str: string, clock: Clock, ghost n: Note)
      requires Valid() && (n == Relayed(str) || (n.Told? && str == OwnText(n.m)))
      modifies this`serverToqueue, this`past
      ensures Valid() && Abs() == Noted(old(Abs()), n)
    {
      var msg := LineData(str, clock.day, clock.time, LINE_MCP, Copy);
      StringsSnoc(serverToqueue, msg);
      serverToqueue := serverToqueue + [msg];
      past := past + [n];
    }

    method AppendToClient(str: string, clock: Clock)
      requires Valid()
      modifies this`clientToqueue
      ensures Valid() && Abs() == Give(old(Abs()), str)
    {
      var msg := LineData(str, clock.day, clock.time, LINE_MCP, Copy);
      StringsSnoc(clientToqueue, msg);
      clientToqueue := clientToqueue + [msg];
    }

    method TellServer(m: Own, clock: Clock)
      requires Valid()
      modifies this`serverToqueue, this`past
      ensures Valid() && Abs() == Tell(old(Abs()), m)
    {
      AppendToServer(OwnText(m), clock, Told(m));
    }

    /** All fields are as for a new session. */
    method Erase()
      requires Valid()
      modifies this`mcpKey, this`mcpNegotiated, this`mcpInitmsg
      ensures Valid() && Abs() == Erased(old(Abs()))
    {
      mcpNegotiated := false;
      mcpKey := None;
      mcpInitmsg := None;
    }

    /** An `mcp` message sets the key. */
    method CaptureKey(str: string)
      requires Valid()
      modifies this`mcpKey
      ensures Valid() && Abs() == Capture(old(Abs()), str)
    {
      if IsInit(str) {
        var mcpkey := McpText.ExtractMcpkey(str);
        // A message without a key does not end the old one.
        if mcpkey.Some? {
          mcpKey := mcpkey;
        }
      }
    }

    /** Whether the session is negotiated once the message is seen. */
    method NegotiatePackage(str: string, clock: Clock)
      requires Valid()
      modifies this`mcpNegotiated, this`serverToqueue, this`clientToqueue, this`past
      ensures Valid() && Abs() == Negotiate(old(Abs()), str)
    {
      if IsCan(str) && mcpKey.Some? {
        mcpNegotiated := true;
        TellServer(Can(mcpKey.value), clock);
        AppendToClient(OwnText(Can(mcpKey.value)), clock);
      }
    }

    /** world_do_mcp_client. */
    method WorldDoMcpClient(line: LineData, clock: Clock)
      requires Valid()
      modifies this
      ensures Valid() && Abs() == ClientLine(old(Abs()), line.str)
    {
      AppendToServer(line.str, clock, Relayed(line.str));
      if mcpNegotiated {
        return;
      }
      CaptureKey(line.str);
      NegotiatePackage(line.str, clock);
    }

    /** world_do_mcp_server. */
    method WorldDoMcpServer(line: LineData, clock: Clock)
      requires Valid()
      modifies this`clientToqueue, this`mcpInitmsg
      ensures Valid() && Abs() == ServerLine(old(Abs()), line.str)
    {
      AppendToClient(line.str, clock);
      // Only the first handshake is kept.
      if mcpInitmsg.None? && IsInit(line.str) {
        mcpInitmsg := Some(Text.CString(line.str));
      }
    }

    /** The server connection is there. */
    method SetServerUp(up: bool)
      requires Valid()
      modifies this`serverUp, this`past
      ensures Valid() && Abs() == Noted(old(Abs()).(up := up), if up then Up else Down)
    {
      ghost var s := Abs();
      serverUp := up;
      past := past + [if up then Up else Down];
      assert s.toServer + [] == s.toServer;
    }

    /** world_mcp_server_connect. */
    method WorldMcpServerConnect(clock: Clock)
      requires Valid()
      modifies this
      ensures Valid() && Abs() == ServerConnect(old(Abs()))
    {
      SetServerUp(true);
      if mcpKey.Some? {
        OfferReset(clock);
      }
      Erase();
    }

    /** The client is told what a server would have told it. */
    method OfferReset(clock: Clock)
      requires Valid() && mcpKey.Some?
      modifies this`clientToqueue, this`mcpNegotiated
      ensures Valid()
      ensures var s := old(Abs());
              var k := s.key.value;
              var s1 := if s.negotiated then s else Give(Give(s, OwnText(Can(k))), OwnText(End(k)));
              Abs() == Give(s1, OwnText(Reset(k))).(negotiated := true)
    {
      var key := mcpKey.value;
      // The key has not been announced yet.
      if !mcpNegotiated {
        AppendToClient(OwnText(Can(key)), clock);
        AppendToClient(OwnText(End(key)), clock);
        mcpNegotiated := true;
      }
      AppendToClient(OwnText(Reset(key)), clock);
    }

    /** The server is told to start anew. */
    method SendReset(clock: Clock)
      requires Valid() && mcpKey.Some?
      modifies this`serverToqueue, this`mcpNegotiated, this`past
      ensures Valid()
      ensures var s := old(Abs());
              var k := s.key.value;
              var s1 := if s.negotiated then s else Tell(Tell(s, Can(k)), End(k));
              Abs() == Tell(s1, Reset(k)).(negotiated := true)
    {
      var key := mcpKey.value;
      // The key has not been announced yet.
      if !mcpNegotiated {
        TellServer(Can(key), clock);
        TellServer(End(key), clock);
        mcpNegotiated := true;
      }
      TellServer(Reset(key), clock);
    }

    /** world_mcp_client_connect, as promote_auth_connection calls it. */
    method WorldMcpClientConnect(clock: Clock)
      requires Valid()
      modifies this
      ensures Valid() && Abs() == ClientConnect(old(Abs()))
    {
      if !serverUp {
        return;
      }
      if mcpKey.None? {
        // Without a key, the client gets the handshake that was kept.
        if mcpInitmsg.Some? {
          AppendToClient(mcpInitmsg.value, clock);
        }
      } else {
        SendReset(clock);
        Erase();
      }
    }
  }

  /** A new world, after any events. */
  method Track(events: seq<Event>, clocks: nat -> Clock) returns (t: McpTracker)
    ensures t.Valid() && t.Abs() == Run(NEW_SESSION, events)
  {
    t := new McpTracker();
    var i := 0;
    assert events[0..] == events;
    while i < |events|
      invariant i <= |events| && fresh(t) && t.Valid()
      invariant Run(t.Abs(), events[i..]) == Run(NEW_SESSION, events)
    {
      assert events[i..][1..] == events[i + 1..];
      DoEvent(t, events[i], clocks(i));
      i := i + 1;
    }
  }

  method DoEvent(t: McpTracker, e: Event, clock: Clock)
    requires t.Valid()
    modifies t
    ensures t.Valid() && t.Abs() == Step(old(t.Abs()), e)
  {
    match e {
      case FromClient(str) => t.WorldDoMcpClient(LineData(str, clock.day, clock.time, LINE_REGULAR, Copy), clock);
      case FromServer(str) => t.WorldDoMcpServer(LineData(str, clock.day, clock.time, LINE_REGULAR, Copy), clock);
      case ServerUp => t.WorldMcpServerConnect(clock);
      case ServerDown => t.SetServerUp(false);
      case ClientUp => t.WorldMcpClientConnect(clock);
    }
  }

  lemma StringsSnoc(q: seq<LineData>, l: LineData)
    ensures Strings(q + [l]) == Strings(q) + [l.str]
  {
  }
}
