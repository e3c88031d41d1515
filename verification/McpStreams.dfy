/** What the server and the client are sent for MCP, in terms of what has happened (mcp.c:
    world_do_mcp_client, world_do_mcp_server, world_mcp_server_connect,
    world_mcp_client_connect). */
module McpStreams {
  import Sequences
  import opened Text
  import opened Codec
  import opened McpText
  import opened Mcp

  // ---------------------------------------------------------------------
  // What has happened
  // ---------------------------------------------------------------------

  /** There is a server connection. */
  predicate Standing(events: seq<Event>) {
    if events == [] then false
    else
      var n := |events| - 1;
      match events[n]
      case ServerUp => true
      case ServerDown => false
      case _ => Standing(events[..n])
  }

  /** The MCP lines of the client since the server connection was made or, with a server
      connection, a client was attached. */
  function Epoch(events: seq<Event>): seq<string> {
    if events == [] then []
    else
      var n := |events| - 1;
      match events[n]
      case FromClient(str) => Epoch(events[..n]) + [str]
      case ServerUp => []
      case ClientUp => if Standing(events[..n]) then [] else Epoch(events[..n])
      case _ => Epoch(events[..n])
  }

  /** An "mcp" message with a key in it. */
  predicate Gives(str: string) {
    IsInit(str) && ExtractKey(CString(str)).Some?
  }

  predicate HasKey(lines: seq<string>) {
    exists i :: 0 <= i < |lines| && Gives(lines[i])
  }

  /** After it had given a key, the client negotiated. */
  predicate Announced(lines: seq<string>) {
    exists i, m :: 0 <= i <= m < |lines| && Gives(lines[i]) && IsCan(lines[m])
  }

  /** Line i gives the key before the client negotiates, and no other line does so later. */
  predicate HeldFrom(lines: seq<string>, i: nat, key: string) {
    && i < |lines| && IsInit(lines[i]) && ExtractKey(CString(lines[i])) == Some(key)
    && !Announced(lines[..i])
    && forall n :: i < n < |lines| && Gives(lines[n]) ==> Announced(lines[..n])
  }

  /** The last key that the client gave, not counting those after it negotiated. */
  ghost predicate Holds(lines: seq<string>, key: string) {
    exists i :: HeldFrom(lines, i, key)
  }

  /** The first handshake of the server since the server connection was made or a key was
      used for a client. */
  function Handshake(events: seq<Event>): Option<string> {
    if events == [] then None
    else
      var n := |events| - 1;
      var before := Handshake(events[..n]);
      match events[n]
      case FromServer(str) => if before.None? && IsInit(str) then Some(CString(str)) else before
      case ServerUp => None
      case ClientUp => if Standing(events[..n]) && HasKey(Epoch(events[..n])) then None else before
      case _ => before
  }

  /** There is one such key at most. */
  lemma HoldsUnique(lines: seq<string>, k: string, k': string)
    requires Holds(lines, k) && Holds(lines, k')
    ensures k == k'
  {
    var i: nat :| HeldFrom(lines, i, k);
    var i': nat :| HeldFrom(lines, i', k');
  }

  // ---------------------------------------------------------------------
  // One line more
  // ---------------------------------------------------------------------

  lemma HasKeySnoc(lines: seq<string>, str: string)
    ensures HasKey(lines + [str]) <==> HasKey(lines) || Gives(str)
  {
    var lines' := lines + [str];
    if i :| 0 <= i < |lines| && Gives(lines[i]) {
      assert Gives(lines'[i]);
    }
    assert lines'[|lines|] == str;
  }

  lemma AnnouncedSnoc(lines: seq<string>, str: string)
    ensures Announced(lines + [str]) <==> Announced(lines) || (IsCan(str) && HasKey(lines + [str]))
  {
    var lines' := lines + [str];
    if i, m :| 0 <= i <= m < |lines| && Gives(lines[i]) && IsCan(lines[m]) {
      assert Gives(lines'[i]) && IsCan(lines'[m]);
    }
    if IsCan(str) && HasKey(lines') {
      var i :| 0 <= i < |lines'| && Gives(lines'[i]);
      assert IsCan(lines'[|lines|]);
    }
  }

  lemma PrefixesKept(lines: seq<string>, str: string, n: nat)
    requires n <= |lines|
    ensures (lines + [str])[..n] == lines[..n]
  {
  }

  lemma StillHeld(lines: seq<string>, str: string, key: string)
    requires Holds(lines, key) && (Gives(str) ==> Announced(lines))
    ensures Holds(lines + [str], key)
  {
    var lines' := lines + [str];
    var i: nat :| HeldFrom(lines, i, key);
    PrefixesKept(lines, str, i);
    forall n | i < n < |lines'| && Gives(lines'[n]) ensures Announced(lines'[..n]) {
      PrefixesKept(lines, str, n);
      assert n == |lines| ==> lines[..n] == lines;
      assert n < |lines| ==> lines'[n] == lines[n];
    }
    assert HeldFrom(lines', i, key);
  }

  lemma NowHeld(lines: seq<string>, str: string, key: string)
    requires IsInit(str) && ExtractKey(CString(str)) == Some(key) && !Announced(lines)
    ensures Holds(lines + [str], key)
  {
    PrefixesKept(lines, str, |lines|);
    assert lines[..|lines|] == lines;
    assert HeldFrom(lines + [str], |lines|, key);
  }

  /** The fields are what the lines of the client make them. */
  ghost predicate Agrees(s: Session, lines: seq<string>) {
    && (s.negotiated <==> Announced(lines)) && (s.key.Some? <==> HasKey(lines))
    && (s.key.Some? ==> Holds(lines, s.key.value))
  }

  lemma LineAgrees(s: Session, lines: seq<string>, str: string)
    requires Agrees(s, lines)
    ensures Agrees(ClientLine(s, str), lines + [str])
  {
    HasKeySnoc(lines, str);
    AnnouncedSnoc(lines, str);
    if Gives(str) && !s.negotiated {
      NowHeld(lines, str, ExtractKey(CString(str)).value);
    } else if s.key.Some? {
      StillHeld(lines, str, s.key.value);
    }
    if s.negotiated {
      var i, m :| 0 <= i <= m < |lines| && Gives(lines[i]) && IsCan(lines[m]);
    }
  }

  /** The fields of a session are what has happened. */
  ghost predicate Follows(s: Session, events: seq<Event>) {
    s.up == Standing(events) && Agrees(s, Epoch(events)) && s.initmsg == Handshake(events)
  }

  /** What one more event changes. */
  lemma OneMore(events: seq<Event>, e: Event)
    ensures Standing(events + [e]) == (e.ServerUp? || (Standing(events) && !e.ServerDown?))
    ensures Epoch(events + [e])
         == if e.ServerUp? || (e.ClientUp? && Standing(events)) then []
            else Epoch(events) + if e.FromClient? then [e.str] else []
    ensures Handshake(events + [e])
         == if e.ServerUp? || (e.ClientUp? && Standing(events) && HasKey(Epoch(events))) then None
            else if e.FromServer? && IsInit(e.str) && Handshake(events).None? then Some(CString(e.str))
            else Handshake(events)
  {
    assert (events + [e])[..|events|] == events && (events + [e])[|events|] == e;
    Sequences.EmptyEnds(Epoch(events));
  }

  lemma NothingHeld(s: Session)
    requires s.key.None? && !s.negotiated
    ensures Agrees(s, [])
  {
  }

  lemma StepFollows(s: Session, events: seq<Event>, e: Event)
    requires Follows(s, events)
    ensures Follows(Step(s, e), events + [e])
  {
    OneMore(events, e);
    Sequences.EmptyEnds(Epoch(events));
    match e {
      case FromClient(str) => LineAgrees(s, Epoch(events), str); LineKeeps(s, str);
      case ServerUp => ServerUpFollows(s);
      case ClientUp => ClientUpFollows(s, events);
      case FromServer(str) => SameFields(s, ServerLine(s, str), Epoch(events));
      case ServerDown => SameFields(s, ServerGone(s), Epoch(events));
    }
  }

  lemma LineKeeps(s: Session, str: string)
    ensures ClientLine(s, str).up == s.up && ClientLine(s, str).initmsg == s.initmsg
  {
    var s1 := Capture(Noted(s, Relayed(str)), str);
    assert s1.up == s.up && s1.initmsg == s.initmsg;
    NegotiateKeeps(s1, str);
  }

  lemma NegotiateKeeps(s: Session, str: string)
    ensures Negotiate(s, str).up == s.up && Negotiate(s, str).initmsg == s.initmsg
  {
  }

  lemma SameFields(s: Session, s': Session, lines: seq<string>)
    requires Agrees(s, lines) && s'.key == s.key && s'.negotiated == s.negotiated
    ensures Agrees(s', lines)
  {
  }

  lemma ServerUpFollows(s: Session)
    ensures var s' := ServerConnect(s); s'.up && Agrees(s', []) && s'.initmsg.None?
  {
    NothingHeld(ServerConnect(s));
  }

  lemma ClientUpFollows(s: Session, events: seq<Event>)
    requires Follows(s, events)
    ensures var s' := ClientConnect(s);
            && s'.up == s.up
            && Agrees(s', if s.up then [] else Epoch(events))
            && s'.initmsg == if s.up && HasKey(Epoch(events)) then None else s.initmsg
  {
    var lines := Epoch(events);
    if s.up {
      if s.negotiated {
        var i, m :| 0 <= i <= m < |lines| && Gives(lines[i]) && IsCan(lines[m]);
      }
      NothingHeld(ClientConnect(s));
    }
  }

  lemma {:induction false} RunSnoc(s: Session, events: seq<Event>, e: Event)
    ensures Run(s, events + [e]) == Step(Run(s, events), e)
    decreases events
  {
    if events == [] {
      assert events + [e] == [e] && [e][1..] == [];
    } else {
      Sequences.ConcatStep(events, [e]);
      RunSnoc(Step(s, events[0]), events[1..], e);
    }
  }

  lemma {:induction false} RunFollows(events: seq<Event>)
    ensures Follows(Run(NEW_SESSION, events), events)
    decreases |events|
  {
    if events != [] {
      var n := |events| - 1;
      assert events == events[..n] + [events[n]];
      RunFollows(events[..n]);
      RunSnoc(NEW_SESSION, events[..n], events[n]);
      StepFollows(Run(NEW_SESSION, events[..n]), events[..n], events[n]);
    }
  }

  // ---------------------------------------------------------------------
  // The streams
  // ---------------------------------------------------------------------

  /** The offer of the package, as both sides get it. */
  function Offer(key: string): string {
    "#$#mcp-negotiate-can " + key + " package: dns-nl-icecrew-mcpreset min-version: 1.0 max-version: 1.0"
  }

  /** What makes the other side start anew: if the package has not been offered yet, it is. */
  function StartAnew(key: string, offered: bool): seq<string> {
    (if offered then [] else [Offer(key), "#$#mcp-negotiate-end " + key])
    + ["#$#dns-nl-icecrew-mcpreset-reset " + key]
  }

  /** The streams grow by these lines. */
  predicate Grows(s: Session, s': Session, forServer: seq<string>, forClient: seq<string>) {
    s'.toServer == s.toServer + forServer && s'.toClient == s.toClient + forClient
  }

  /** A client attaches.  With a key, the server is told to start anew with it; without one, the
      client gets the handshake of the server, if there was one. */
  lemma ClientUpStreams(events: seq<Event>)
    ensures var s, s', lines := Run(NEW_SESSION, events), Run(NEW_SESSION, events + [ClientUp]), Epoch(events);
            && (!Standing(events) ==> Grows(s, s', [], []))
            && (Standing(events) && !HasKey(lines) ==>
                  Grows(s, s', [], if Handshake(events).Some? then [Handshake(events).value] else []))
            && (HasKey(lines) ==> exists k :: Holds(lines, k))
            && forall k | Standing(events) && Holds(lines, k) :: Grows(s, s', StartAnew(k, Announced(lines)), [])
  {
    RunFollows(events);
    RunSnoc(NEW_SESSION, events, ClientUp);
    var s := Run(NEW_SESSION, events);
    forall k | Standing(events) && Holds(Epoch(events), k)
      ensures Grows(s, ClientConnect(s), StartAnew(k, Announced(Epoch(events))), [])
    {
      HoldsGives(Epoch(events), k);
      HoldsUnique(Epoch(events), k, s.key.value);
      ConnectTells(s);
    }
  }

  lemma HoldsGives(lines: seq<string>, k: string)
    requires Holds(lines, k)
    ensures HasKey(lines)
  {
    var i: nat :| HeldFrom(lines, i, k);
    assert Gives(lines[i]);
  }

  lemma ConnectTells(s: Session)
    requires s.up && s.key.Some?
    ensures Grows(s, ClientConnect(s), StartAnew(s.key.value, s.negotiated), [])
  {
    var k := s.key.value;
    if !s.negotiated {
      Sequences.Assoc(s.toServer, [OwnText(Can(k))], [OwnText(End(k))]);
      Sequences.Assoc(s.toServer, [OwnText(Can(k)), OwnText(End(k))], [OwnText(Reset(k))]);
    }
  }

  /** The server connection is made: a client with a key is told to start anew with it. */
  lemma ServerUpStreams(events: seq<Event>)
    ensures var s, s', lines := Run(NEW_SESSION, events), Run(NEW_SESSION, events + [ServerUp]), Epoch(events);
            && (!HasKey(lines) ==> Grows(s, s', [], []))
            && (HasKey(lines) ==> exists k :: Holds(lines, k))
            && forall k | Holds(lines, k) :: Grows(s, s', [], StartAnew(k, Announced(lines)))
  {
    RunFollows(events);
    RunSnoc(NEW_SESSION, events, ServerUp);
    var s := Run(NEW_SESSION, events);
    forall k | Holds(Epoch(events), k)
      ensures Grows(s, ServerConnect(s), [], StartAnew(k, Announced(Epoch(events))))
    {
      HoldsGives(Epoch(events), k);
      HoldsUnique(Epoch(events), k, s.key.value);
      ConnectGives(s);
    }
  }

  lemma ConnectGives(s: Session)
    requires s.key.Some?
    ensures Grows(s, ServerConnect(s), [], StartAnew(s.key.value, s.negotiated))
  {
    var k := s.key.value;
    if !s.negotiated {
      Sequences.Assoc(s.toClient, [OwnText(Can(k))], [OwnText(End(k))]);
      Sequences.Assoc(s.toClient, [OwnText(Can(k)), OwnText(End(k))], [OwnText(Reset(k))]);
    }
  }

  lemma LineTells(s: Session, str: string)
    ensures var s' := ClientLine(s, str);
            && (s.negotiated || !s'.negotiated ==> Grows(s, s', [str], []))
            && (!s.negotiated && s'.negotiated ==>
                  s'.key.Some? && Grows(s, s', [str, Offer(s'.key.value)], [Offer(s'.key.value)]))
  {
    var s' := ClientLine(s, str);
    if !s.negotiated && s'.negotiated {
      Sequences.Assoc(s.toServer, [str], [Offer(s'.key.value)]);
    }
  }

  /** A line of the client goes to the server; the first time that it negotiates with a key
      given, both sides are offered the package with that key. */
  lemma ClientLineStreams(events: seq<Event>, str: string)
    ensures var s, s', lines := Run(NEW_SESSION, events), Run(NEW_SESSION, events + [FromClient(str)]), Epoch(events);
            && (Announced(lines) || !Announced(lines + [str]) ==> Grows(s, s', [str], []))
            && (HasKey(lines + [str]) ==> exists k :: Holds(lines + [str], k))
            && forall k | !Announced(lines) && Announced(lines + [str]) && Holds(lines + [str], k) ::
                 Grows(s, s', [str, Offer(k)], [Offer(k)])
  {
    var s, lines := Run(NEW_SESSION, events), Epoch(events);
    RunFollows(events);
    RunSnoc(NEW_SESSION, events, FromClient(str));
    LineAgrees(s, lines, str);
    LineTells(s, str);
    var s' := ClientLine(s, str);
    forall k | Announced(lines + [str]) && Holds(lines + [str], k) ensures s'.key == Some(k) {
      HoldsGives(lines + [str], k);
      HoldsUnique(lines + [str], k, s'.key.value);
    }
  }

  /** A line of the server goes to the client, and that is all. */
  lemma ServerLineStreams(events: seq<Event>, str: string)
    ensures Grows(Run(NEW_SESSION, events), Run(NEW_SESSION, events + [FromServer(str)]), [], [str])
    ensures Grows(Run(NEW_SESSION, events), Run(NEW_SESSION, events + [ServerDown]), [], [])
  {
    RunSnoc(NEW_SESSION, events, FromServer(str));
    RunSnoc(NEW_SESSION, events, ServerDown);
  }
}
