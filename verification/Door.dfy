/** The authentication part of a world: how connections wait, log in and become the client
    (network.c, crypt.c), against the steps of `Auth`. */
module Doors {
  import opened Sequences
  import opened Lines
  import opened Codec
  import opened PrivilegedList
  import opened Auth
  import T = AuthTheorems
  import opened AuthTurns
  import SlotTables

  class Door {
    var authHash: Option<string>
    var authLiteral: Option<string>
    var authTokenbucket: nat
    const table: SlotTables.SlotTable
    const authPrivaddrs: Linequeue

    var clientConnected: bool          // client_status == ST_CONNECTED
    var clientFd: int
    var clientAddress: string
    const clientRxbuffer: array<char>
    var clientRxfull: nat
    var clientRxqueue: seq<LineData>   // with what the main loop has taken from it
    var clientQuit: bool               // WLD_CLIENTQUIT is in flags

    ghost var clientGot: string
    ghost var clientHash: string
    ghost var clientFirst: nat         // where the lines of this client start

    ghost predicate Valid()
      reads this, table, table.repr, clientRxbuffer, authPrivaddrs, authPrivaddrs.nodes
    {
      && table.Valid() && authPrivaddrs.Valid()
      && this !in table.repr && clientRxbuffer !in table.repr && authPrivaddrs !in table.repr
      && (forall i :: 0 <= i < |authPrivaddrs.nodes| ==> authPrivaddrs.nodes[i] !in table.repr)
      && clientRxbuffer.Length == NET_BBUFFER_ALLOC
      && clientRxfull < NET_BBUFFER_LEN && '\n' !in clientRxbuffer[..clientRxfull]
      && clientFirst <= |clientRxqueue|
    }

    ghost function TheClient(): Option<Client>
      requires clientRxfull <= clientRxbuffer.Length && clientFirst <= |clientRxqueue|
      reads this, clientRxbuffer
    {
      if !clientConnected then None
      else Some(Client(clientFd, clientAddress, Strings(clientRxqueue[clientFirst..]),
                       clientRxbuffer[..clientRxfull], clientGot, clientHash))
    }

    ghost function Abs(): Auth
      requires Valid()
      reads this, table, table.repr, clientRxbuffer, authPrivaddrs, authPrivaddrs.nodes
    {
      Auth(authHash, authLiteral, authTokenbucket, table.Slots(), Strings(authPrivaddrs.contents),
           TheClient(), clientQuit)
    }

    constructor ()
      ensures Valid() && Abs() == NEW_AUTH && authPrivaddrs.nodes == []
      ensures fresh(table) && fresh(table.repr) && fresh(clientRxbuffer) && fresh(authPrivaddrs)
    {
      authHash, authLiteral, authTokenbucket := None, None, NET_AUTH_BUCKETSIZE;
      clientRxbuffer := new char[NET_BBUFFER_ALLOC](_ => '\0');
      authPrivaddrs := new Linequeue();
      table := new SlotTables.SlotTable();
      clientConnected, clientFd, clientAddress, clientRxfull, clientRxqueue, clientQuit := false, -1, "", 0, [], false;
      clientGot, clientHash, clientFirst := "", "", 0;
    }

    // ---------------------------------------------------------------------
    // What a change of one part does
    // ---------------------------------------------------------------------

    twostate predicate SamePrivs()
      reads authPrivaddrs, authPrivaddrs.nodes
    {
      unchanged(authPrivaddrs) && unchanged(old(authPrivaddrs.nodes))
    }

    /** Lines of the list of addresses are old ones or new objects. */
    twostate predicate NodesKept()
      reads authPrivaddrs
    {
      forall i :: 0 <= i < |authPrivaddrs.nodes| ==>
        authPrivaddrs.nodes[i] in old(authPrivaddrs.nodes) || fresh(authPrivaddrs.nodes[i])
    }

    /** When only fields of the world have changed. */
    twostate lemma FieldsChanged()
      requires old(Valid()) && unchanged(table) && unchanged(table.repr) && SamePrivs()
      requires clientRxbuffer.Length == NET_BBUFFER_ALLOC && clientRxfull < NET_BBUFFER_LEN
      requires '\n' !in clientRxbuffer[..clientRxfull] && clientFirst <= |clientRxqueue|
      ensures Valid()
      ensures Abs() == Auth(authHash, authLiteral, authTokenbucket, old(Abs()).slots, old(Abs()).privs,
                            TheClient(), clientQuit)
    {
    }

    /** When only the slots have changed. */
    twostate lemma SlotsChanged()
      requires old(Valid()) && table.Valid()
      requires unchanged(this) && unchanged(clientRxbuffer) && SamePrivs()
      ensures Valid() && Abs() == old(Abs()).(slots := table.Slots())
    {
    }

    /** When only the privileged addresses have changed. */
    twostate lemma PrivsChanged()
      requires old(Valid()) && authPrivaddrs.Valid()
      requires unchanged(this) && unchanged(clientRxbuffer) && unchanged(table) && unchanged(table.repr)
      requires forall i :: 0 <= i < |authPrivaddrs.nodes| ==> authPrivaddrs.nodes[i] !in table.repr
      ensures Valid() && Abs() == old(Abs()).(privs := Strings(authPrivaddrs.contents))
    {
    }

    /** world_auth_add_bucket. */
    method AddToBucket()
      requires Valid()
      modifies this`authTokenbucket
      ensures Valid() && Abs() == AddBucket(old(Abs()))
    {
      authTokenbucket := authTokenbucket + NET_AUTH_TOKENSPERSEC;
      if authTokenbucket > NET_AUTH_BUCKETSIZE {
        authTokenbucket := NET_AUTH_BUCKETSIZE;
      }
      FieldsChanged();
    }

    /** The option auth_hash is set. */
    method SetAuthHash(newhash: string)
      requires Valid()
      modifies this`authHash, this`authLiteral
      ensures Valid() && Abs() == old(Abs()).(hash := Some(newhash), literal := None)
    {
      authLiteral := None;
      authHash := Some(newhash);
      FieldsChanged();
    }

    // ---------------------------------------------------------------------
    // Connections come and send something
    // ---------------------------------------------------------------------

    /** is_privileged on the list of the world. */
    method KnowsAddress(addr: string) returns (yes: bool)
      requires Valid()
      ensures yes <==> addr in Abs().privs
    {
      yes := IsPrivileged(authPrivaddrs, addr);
    }

    /** handle_listen_fd once a connection is accepted. */
    method HandleListenFd(newfd: int, hostbuf: string)
      requires Valid()
      modifies table, table.repr
      ensures Valid() && Abs() == Accept(old(Abs()), newfd, hostbuf)
    {
      var priv := KnowsAddress(hostbuf);
      table.Accept(newfd, hostbuf, priv);
      SlotsChanged();
    }

    /** handle_auth_fd. */
    method HandleAuthFd(wa: nat, r: ReadResult)
      requires Valid() && wa < table.authConnections
      modifies table, table.repr
      ensures Valid() && Abs() == ReadSlot(old(Abs()), wa, r)
    {
      table.Read(wa, r);
      SlotsChanged();
    }

    // ---------------------------------------------------------------------
    // A connection logs in
    // ---------------------------------------------------------------------

    /** remove_auth_connection. */
    method RemoveAuthConnection(wa: nat)
      requires Valid() && wa < table.authConnections
      modifies table, table.repr
      ensures Valid() && Abs() == old(Abs()).(slots := RemoveAt(old(Abs()).slots, wa))
    {
      assert table.Shape();
      table.Remove(wa);
      SlotsChanged();
    }

    /** privileged_del on the list of the world. */
    method DeletePrivileged(addr: string)
      requires Valid()
      modifies authPrivaddrs, authPrivaddrs.nodes
      ensures Valid() && Abs() == old(Abs()).(privs := Delete(old(Abs()).privs, addr))
      ensures NodesKept()
    {
      PrivilegedDel(authPrivaddrs, addr);
      PrivsChanged();
    }

    /** A connection that does not know the login. */
    method DenyConnection(wa: nat)
      requires Valid() && wa < table.authConnections
      modifies table, table.repr, authPrivaddrs, authPrivaddrs.nodes
      ensures Valid() && NodesKept() && Abs() == Deny(old(Abs()), wa)
    {
      assert table.SlotAt(wa) == table.Slots()[wa];
      if table.authIspriv[wa] {
        DeletePrivileged(table.authAddress[wa]);
      }
      RemoveAuthConnection(wa);
    }

    /** world_match_authentication. */
    method MatchAuthentication(str: string, crypt: Crypt) returns (ok: bool)
      requires Valid() && authHash.Some?
      modifies this`authLiteral
      ensures Valid() && ok == Matches(old(Abs()), str, crypt)
      ensures Abs() == if ok then old(Abs()).(literal := Some(str)) else old(Abs())
    {
      if authLiteral.Some? {
        return authLiteral.value == str;
      }
      ok := crypt(str, authHash.value);
      if ok {
        authLiteral := Some(str);
        FieldsChanged();
      }
    }

    /** The login that a connection sent. */
    method ExtractLogin(wa: nat) returns (found: bool, alen: nat, text: string)
      requires Valid() && wa < table.authConnections && table.authStatus[wa] == Verify
      modifies table, table.repr
      ensures Valid() && table.authConnections == old(table.authConnections)
      ensures var a, b := old(Abs()), Abs();
              var s, t := a.slots[wa], b.slots[wa];
              && b == a.(slots := a.slots[wa := t]) && t == s.(data := t.data)
              && (found <==> '\n' in s.data) && (!found ==> b == a)
              && (found ==> text == Login(s.data) && alen < |t.data| && t.data[alen + 1..] == AfterLogin(s.data))
    {
      assert table.BufOk(wa);
      found, alen, text := table.ExtractLogin(wa);
      SlotsChanged();
    }

    /** A connection that knows the login keeps what it sent after it. */
    method AcceptLogin(wa: nat, alen: nat)
      requires Valid() && wa < table.authConnections && alen < |Abs().slots[wa].data| && authHash.Some?
      modifies this`clientQuit, table, table.repr
      ensures Valid()
      ensures var a := old(Abs());
              var s := a.slots[wa];
              Abs() == a.(slots := a.slots[wa := s.(status := Correct, data := s.data[alen + 1..], hash := authHash.value)],
                          quit := a.quit || a.client.Some?)
    {
      assert table.BufOk(wa);
      table.KeepRest(wa, alen, authHash.value);
      SlotsChanged();
      FlagTakeover();
    }

    /** A client that is connected is flagged for disconnection. */
    method FlagTakeover()
      requires Valid()
      modifies this`clientQuit
      ensures Valid() && Abs() == old(Abs()).(quit := old(Abs()).quit || old(Abs()).client.Some?)
    {
      if clientConnected {
        clientQuit := true;
      }
      FieldsChanged();
    }

    /** Whether what a connection sent is the login; `alen` is where it ends. */
    method CheckLogin(wa: nat, crypt: Crypt) returns (ok: bool, alen: nat)
      requires Valid() && wa < table.authConnections && table.authStatus[wa] == Verify && authHash.Some?
      modifies this`authLiteral, table, table.repr
      ensures Valid() && table.authConnections == old(table.authConnections) && authHash == old(authHash)
      ensures var a, b := old(Abs()), Abs();
              var s, t := a.slots[wa], b.slots[wa];
              && (ok <==> '\n' in s.data && Matches(a, Login(s.data), crypt))
              && b == a.(slots := a.slots[wa := t], literal := if ok then Some(Login(s.data)) else a.literal)
              && t == s.(data := t.data)
              && (ok ==> alen < |t.data| && t.data[alen + 1..] == AfterLogin(s.data))
    {
      var found, text;
      found, alen, text := ExtractLogin(wa);
      ok := false;
      if found {
        ok := MatchAuthentication(text, crypt);
      }
    }

    /** A token less, if there is one. */
    method TakeToken()
      requires Valid()
      modifies this`authTokenbucket
      ensures Valid() && Abs() == old(Abs()).(tokens := if old(Abs()).tokens > 0 then old(Abs()).tokens - 1 else 0)
    {
      if authTokenbucket > 0 {
        authTokenbucket := authTokenbucket - 1;
        FieldsChanged();
      }
    }

    /** The login is checked. */
    method JudgeLogin(wa: nat, crypt: Crypt)
      requires Valid() && wa < table.authConnections && table.authStatus[wa] == Verify && authHash.Some?
      modifies this`authLiteral, this`clientQuit, table, table.repr, authPrivaddrs, authPrivaddrs.nodes
      ensures Valid() && NodesKept() && Abs() == Judged(old(Abs()), wa, crypt)
    {
      ghost var a := Abs();
      var ok, alen := CheckLogin(wa, crypt);
      if ok {
        AcceptLogin(wa, alen);
      } else {
        DenyUpdated(a, Abs(), wa);
        DenyConnection(wa);
      }
    }

    /** verify_authentication. */
    method VerifyAuthentication(wa: nat, crypt: Crypt)
      requires Valid() && wa < table.authConnections && table.authStatus[wa] == Verify
      modifies this`authTokenbucket, this`authLiteral, this`clientQuit, table, table.repr,
               authPrivaddrs, authPrivaddrs.nodes
      ensures Valid() && NodesKept() && Abs() == VerifySlot(old(Abs()), wa, crypt)
    {
      if authHash.None? {
        RemoveAuthConnection(wa);
      } else {
        TakeToken();
        JudgeLogin(wa, crypt);
      }
    }

    // ---------------------------------------------------------------------
    // A connection becomes the client
    // ---------------------------------------------------------------------

    /** When the client has got new lines. */
    twostate lemma ClientChanged(lines: seq<string>)
      requires old(Valid()) && unchanged(table) && unchanged(table.repr) && SamePrivs()
      requires unchanged(`authHash) && unchanged(`authLiteral) && unchanged(`authTokenbucket) && unchanged(`clientQuit)
      requires clientConnected && clientFirst <= old(|clientRxqueue|)
      requires clientRxfull < NET_BBUFFER_LEN && '\n' !in clientRxbuffer[..clientRxfull]
      requires Strings(clientRxqueue) == Strings(old(clientRxqueue)) + lines
      ensures Valid()
      ensures Abs() == old(Abs()).(client :=
                Some(Client(clientFd, clientAddress, Strings(old(clientRxqueue)[clientFirst..]) + lines,
                            clientRxbuffer[..clientRxfull], clientGot, clientHash)))
    {
      ghost var all := Strings(old(clientRxqueue));
      assert |clientRxqueue| == |Strings(clientRxqueue)| && (all + lines)[clientFirst..] == all[clientFirst..] + lines;
      assert Strings(clientRxqueue[clientFirst..]) == Strings(clientRxqueue)[clientFirst..];
      assert Strings(old(clientRxqueue)[clientFirst..]) == Strings(old(clientRxqueue))[clientFirst..];
      FieldsChanged();
    }

    /** Bytes of the client are made into lines. */
    method TakeBytes(data: string, clock: Clock)
      requires Valid() && clientConnected && |data| <= NET_BBUFFER_LEN - clientRxfull
      modifies this`clientRxfull, this`clientRxqueue, clientRxbuffer
      ensures Valid()
      ensures var c := old(Abs()).client.value;
              var f := Feed(Split([], c.rest), data);
              Abs() == old(Abs()).(client := Some(c.(lines := c.lines + f.lines, rest := f.rest)))
    {
      ghost var f := Feed(Split([], clientRxbuffer[..clientRxfull]), data);
      clientRxfull, clientRxqueue :=
        ReceiveLines(clientRxbuffer, clientRxfull, data, clientRxqueue, clock, |clientRxqueue|);
      StampStrings(old(clientRxqueue), f.lines, clock, old(|clientRxqueue|));
      ClientChanged(f.lines);
    }

    /** A client with nothing read from it yet. */
    method StartClient(fd: int, address: string, ghost all: string, ghost hash: string)
      requires Valid() && !clientConnected
      modifies this`clientConnected, this`clientFd, this`clientAddress, this`clientRxfull,
               this`clientGot, this`clientHash, this`clientFirst
      ensures Valid() && clientRxfull == 0 && clientConnected
      ensures Abs() == old(Abs()).(client := Some(Client(fd, address, [], "", all, hash)))
    {
      SetClient(fd, address, all, hash);
      assert clientRxbuffer[..0] == "";
      NoStrings(clientRxqueue[clientFirst..]);
      FieldsChanged();
    }

    method SetClient(fd: int, address: string, ghost all: string, ghost hash: string)
      modifies this`clientConnected, this`clientFd, this`clientAddress, this`clientRxfull,
               this`clientGot, this`clientHash, this`clientFirst
      ensures clientConnected && clientFd == fd && clientAddress == address && clientRxfull == 0
      ensures clientGot == all && clientHash == hash && clientFirst == |clientRxqueue|
    {
      clientConnected, clientFd, clientAddress := true, fd, address;
      clientGot, clientHash, clientFirst := all, hash, |clientRxqueue|;
      clientRxfull := 0;
    }

    /** The connection in a slot becomes the client, with what is left in the slot's buffer. */
    method AdoptClient(wa: nat, clock: Clock)
      requires Valid() && !clientConnected && wa < table.authConnections
      modifies this`clientConnected, this`clientFd, this`clientAddress, this`clientRxfull, this`clientRxqueue,
               this`clientGot, this`clientHash, this`clientFirst, clientRxbuffer
      ensures Valid()
      ensures var s := old(Abs()).slots[wa];
              var f := Feed(NOTHING, s.data);
              Abs() == old(Abs()).(client := Some(Client(s.fd, s.address, f.lines, f.rest, s.got, s.hash)))
    {
      assert table.BufOk(wa) && table.Slots()[wa] == table.SlotAt(wa);
      var rest := table.authBuf[wa][..table.authRead[wa]];
      StartClient(table.authFd[wa], table.authAddress[wa], table.got[wa], table.hashes[wa]);
      TakeBytes(rest, clock);
      assert [] + Feed(NOTHING, rest).lines == Feed(NOTHING, rest).lines;
    }

    /** handle_client_fd when read() has got something. */
    method ReadFromClient(data: string, clock: Clock)
      requires Valid() && clientConnected && |data| <= NET_BBUFFER_LEN - clientRxfull
      modifies this`clientRxfull, this`clientRxqueue, this`clientGot, clientRxbuffer
      ensures Valid()
      ensures var c := old(Abs()).client.value;
              var f := Feed(Split([], c.rest), data);
              Abs() == old(Abs()).(client := Some(c.(lines := c.lines + f.lines, rest := f.rest, got := c.got + data)))
    {
      clientGot := clientGot + data;
      FieldsChanged();
      TakeBytes(data, clock);
    }

    /** world_disconnect_client. */
    method DisconnectClient()
      requires Valid()
      modifies this`clientConnected, this`clientFd, this`clientAddress, this`clientRxfull
      ensures Valid() && Abs() == old(Abs()).(client := None)
    {
      clientFd, clientAddress, clientRxfull, clientConnected := -1, "", 0, false;
      assert clientRxbuffer[..0] == "";
      FieldsChanged();
    }

    /** handle_client_fd. */
    method HandleClientFd(r: ReadResult, clock: Clock)
      requires Valid()
      modifies this`clientConnected, this`clientFd, this`clientAddress, this`clientRxfull, this`clientRxqueue,
               this`clientGot, clientRxbuffer
      ensures Valid() && Abs() == ReadClient(old(Abs()), r)
    {
      if clientConnected && !r.Retry? {
        ghost var a := Abs();
        var data := if r.Bytes? then FirstN(r.data, NET_BBUFFER_LEN - clientRxfull) else "";
        TakeFromClient(data, clock);
        ReadIs(a, r, data);
      }
    }

    lemma ReadIs(a: Auth, r: ReadResult, data: string)
      requires a.client.Some? && |a.client.value.rest| < NET_BBUFFER_LEN && !r.Retry?
      requires data == if r.Bytes? then FirstN(r.data, NET_BBUFFER_LEN - |a.client.value.rest|) else ""
      ensures ReadClient(a, r) == ClientSends(a, data)
    {
    }

    method TakeFromClient(data: string, clock: Clock)
      requires Valid() && clientConnected && |data| <= NET_BBUFFER_LEN - clientRxfull
      modifies this`clientConnected, this`clientFd, this`clientAddress, this`clientRxfull, this`clientRxqueue,
               this`clientGot, clientRxbuffer
      ensures Valid() && Abs() == ClientSends(old(Abs()), data)
    {
      if data == "" {
        DisconnectClient();
      } else {
        ReadFromClient(data, clock);
      }
    }

    /** A command asks for the client to be disconnected. */
    method Quit()
      requires Valid()
      modifies this`clientQuit
      ensures Valid() && Abs() == old(Abs()).(quit := true)
    {
      clientQuit := true;
      FieldsChanged();
    }

    /** handle_flags, as far as it concerns WLD_CLIENTQUIT. */
    method HandleFlags()
      requires Valid()
      modifies this`clientConnected, this`clientFd, this`clientAddress, this`clientRxfull, this`clientQuit
      ensures Valid() && Abs() == if old(Abs()).quit then old(Abs()).(quit := false, client := None) else old(Abs())
    {
      if clientQuit {
        clientQuit := false;
        FieldsChanged();
        DisconnectClient();
      }
    }

    /** privileged_add on the list of the world. */
    method AddPrivileged(addr: string, clock: Clock)
      requires Valid()
      modifies authPrivaddrs, authPrivaddrs.nodes
      ensures Valid() && NodesKept() && Abs() == old(Abs()).(privs := Add(old(Abs()).privs, addr))
    {
      PrivilegedAdd(authPrivaddrs, addr, clock);
      PrivsChanged();
    }

    /** promote_auth_connection on a correct connection. */
    method PromoteAuthConnection(wa: nat, clock: Clock)
      requires Valid() && wa < table.authConnections
      modifies this, table, table.repr, clientRxbuffer, authPrivaddrs, authPrivaddrs.nodes
      ensures Valid() && NodesKept() && Abs() == Promote(old(Abs()), wa)
    {
      if clientConnected {
        FlagTakeover();
      } else {
        MakeClient(wa, clock);
      }
    }

    method MakeClient(wa: nat, clock: Clock)
      requires Valid() && wa < table.authConnections && !clientConnected
      modifies this, table, table.repr, clientRxbuffer, authPrivaddrs, authPrivaddrs.nodes
      ensures Valid() && NodesKept() && Abs() == Promote(old(Abs()), wa)
    {
      ghost var a := Abs();
      Welcome(wa, clock);
      RemoveAuthConnection(wa);
    }

    /** The client is known, but still has its slot. */
    method Welcome(wa: nat, clock: Clock)
      requires Valid() && wa < table.authConnections && !clientConnected
      modifies this`clientConnected, this`clientFd, this`clientAddress, this`clientRxfull, this`clientRxqueue,
               this`clientGot, this`clientHash, this`clientFirst, clientRxbuffer, authPrivaddrs, authPrivaddrs.nodes
      ensures Valid() && NodesKept()
      ensures var s := old(Abs()).slots[wa];
              var f := Feed(NOTHING, s.data);
              Abs() == old(Abs()).(client := Some(Client(s.fd, s.address, f.lines, f.rest, s.got, s.hash)),
                                   privs := Add(old(Abs()).privs, s.address))
    {
      assert table.Slots()[wa] == table.SlotAt(wa);
      AddPrivileged(table.authAddress[wa], clock);
      AdoptClient(wa, clock);
    }

    /** The start of wait_for_network: whether it returns at once. */
    method LookAtConnections(crypt: Crypt, clock: Clock) returns (done: bool)
      requires Valid()
      modifies this, table, table.repr, clientRxbuffer, authPrivaddrs, authPrivaddrs.nodes
      ensures Valid() && NodesKept() && Abs() == Look(old(Abs()), crypt)
      ensures done <==> FirstDue(old(Abs()).slots, old(Abs()).tokens) < |old(Abs()).slots|
    {
      var i := table.FindDue(authTokenbucket);
      done := i < table.authConnections;
      if done {
        SeeTo(i, crypt, clock);
      }
    }

    /** A connection that is to be promoted or verified. */
    method SeeTo(i: nat, crypt: Crypt, clock: Clock)
      requires Valid() && i < table.authConnections && IsDue(Abs().slots[i], authTokenbucket)
      modifies this, table, table.repr, clientRxbuffer, authPrivaddrs, authPrivaddrs.nodes
      ensures Valid() && NodesKept()
      ensures Abs() == if old(Abs()).slots[i].status == Correct then Promote(old(Abs()), i)
                       else VerifySlot(old(Abs()), i, crypt)
    {
      assert table.Slots()[i] == table.SlotAt(i);
      if table.authStatus[i] == Correct {
        PromoteAuthConnection(i, clock);
      } else {
        VerifyAuthentication(i, crypt);
      }
    }
  }

  /** Whatever happens, it happens as in `Auth`. */
  method DoEvent(d: Door, e: Event, crypt: Crypt, clock: Clock)
    requires d.Valid()
    modifies d, d.table, d.table.repr, d.clientRxbuffer, d.authPrivaddrs, d.authPrivaddrs.nodes
    ensures d.Valid() && d.NodesKept() && d.Abs() == Step(old(d.Abs()), e, crypt)
  {
    if e.EvLook? {
      var done := d.LookAtConnections(crypt, clock);
    } else if e.EvAccept? || e.EvSlot? {
      DoArrival(d, e, crypt);
    } else {
      DoOther(d, e, crypt, clock);
    }
  }

  /** Something arrives at a connection that has not logged in. */
  method DoArrival(d: Door, e: Event, crypt: Crypt)
    requires d.Valid() && (e.EvAccept? || e.EvSlot?)
    modifies d.table, d.table.repr
    ensures d.Valid() && d.Abs() == Step(old(d.Abs()), e, crypt)
  {
    match e {
      case EvAccept(fd, address) => d.HandleListenFd(fd, address);
      case EvSlot(i, r) =>
        if i < d.table.authConnections {
          d.HandleAuthFd(i, r);
        }
    }
  }

  /** What concerns neither slots nor addresses. */
  method DoOther(d: Door, e: Event, crypt: Crypt, clock: Clock)
    requires d.Valid() && !e.EvLook? && !e.EvAccept? && !e.EvSlot?
    modifies d, d.clientRxbuffer
    ensures d.Valid() && d.Abs() == Step(old(d.Abs()), e, crypt)
  {
    match e {
      case EvClient(r) => d.HandleClientFd(r, clock);
      case EvTick => d.AddToBucket();
      case EvQuit => d.Quit();
      case EvFlags => d.HandleFlags();
      case EvHash(hash) => d.SetAuthHash(hash);
    }
  }

  /** Any events, one after the other. */
  method DoEvents(d: Door, events: seq<Event>, crypt: Crypt, clocks: nat -> Clock)
    requires d.Valid()
    modifies d, d.table, d.table.repr, d.clientRxbuffer, d.authPrivaddrs, d.authPrivaddrs.nodes
    ensures d.Valid() && d.NodesKept() && d.Abs() == Run(old(d.Abs()), events, crypt)
  {
    var i := 0;
    assert events[0..] == events;
    while i < |events|
      invariant i <= |events| && d.Valid() && d.NodesKept()
      invariant Run(d.Abs(), events[i..], crypt) == Run(old(d.Abs()), events, crypt)
    {
      assert events[i..][1..] == events[i + 1..];
      DoEvent(d, events[i], crypt, clocks(i));
      i := i + 1;
    }
  }

  /** wait_for_network. */
  method WaitForNetwork(d: Door, t: Turn, crypt: Crypt, clock: Clock)
    requires d.Valid()
    modifies d, d.table, d.table.repr, d.clientRxbuffer, d.authPrivaddrs, d.authPrivaddrs.nodes
    ensures d.Valid() && d.NodesKept() && d.Abs() == Run(old(d.Abs()), NetEvents(old(d.Abs()), t), crypt)
  {
    ghost var a := d.Abs();
    LookIsRun(a, crypt);
    var done := d.LookAtConnections(crypt, clock);
    if !done {
      DoEvents(d, t.net, crypt, _ => clock);
    }
  }

  lemma LookIsRun(a: Auth, crypt: Crypt)
    ensures Run(a, [EvLook], crypt) == Look(a, crypt)
  {
    assert [EvLook][1..] == [];
  }

  /** A pass of the main loop, as far as it concerns connections. */
  method OneTurn(d: Door, t: Turn, crypt: Crypt, clock: Clock)
    requires d.Valid()
    modifies d, d.table, d.table.repr, d.clientRxbuffer, d.authPrivaddrs, d.authPrivaddrs.nodes
    ensures d.Valid() && d.NodesKept() && d.Abs() == DoTurn(old(d.Abs()), t, crypt)
  {
    ghost var a := d.Abs();
    WaitForNetwork(d, t, crypt, clock);
    RestOfTurn(d, t, crypt, clock);
    TurnIsRun(a, t, crypt);
  }

  /** The main loop after wait_for_network. */
  method RestOfTurn(d: Door, t: Turn, crypt: Crypt, clock: Clock)
    requires d.Valid()
    modifies d, d.table, d.table.repr, d.clientRxbuffer, d.authPrivaddrs, d.authPrivaddrs.nodes
    ensures d.Valid() && d.NodesKept() && d.Abs() == Step(Run(old(d.Abs()), t.rest, crypt), EvFlags, crypt)
  {
    DoEvents(d, t.rest, crypt, _ => clock);
    DoEvent(d, EvFlags, crypt, clock);
  }

  lemma TurnIsRun(a: Auth, t: Turn, crypt: Crypt)
    ensures DoTurn(a, t, crypt) == Step(Run(Run(a, NetEvents(a, t), crypt), t.rest, crypt), EvFlags, crypt)
  {
    T.RunSnoc(a, NetEvents(a, t) + t.rest, EvFlags, crypt);
    T.RunConcat(a, NetEvents(a, t), t.rest, crypt);
  }

  /** A new world, after any events. */
  method Serve(events: seq<Event>, crypt: Crypt, clocks: nat -> Clock) returns (d: Door)
    ensures d.Valid() && d.Abs() == Run(NEW_AUTH, events, crypt)
  {
    d := new Door();
    DoEvents(d, events, crypt, clocks);
  }

  /** A new world, after any passes. */
  method ServeTurns(turns: seq<Turn>, crypt: Crypt, clocks: nat -> Clock) returns (d: Door)
    ensures d.Valid() && d.Abs() == DoTurns(NEW_AUTH, turns, crypt)
  {
    d := new Door();
    var i := 0;
    assert turns[0..] == turns;
    while i < |turns|
      invariant i <= |turns| && fresh(d) && fresh(d.table) && fresh(d.table.repr)
      invariant fresh(d.clientRxbuffer) && fresh(d.authPrivaddrs)
      invariant forall k :: 0 <= k < |d.authPrivaddrs.nodes| ==> fresh(d.authPrivaddrs.nodes[k])
      invariant d.Valid() && DoTurns(d.Abs(), turns[i..], crypt) == DoTurns(NEW_AUTH, turns, crypt)
    {
      assert turns[i..][1..] == turns[i + 1..];
      OneTurn(d, turns[i], crypt, clocks(i));
      i := i + 1;
    }
  }

  lemma NoStrings(q: seq<LineData>)
    requires q == []
    ensures Strings(q) == []
  {
  }

  lemma StampStrings(q: seq<LineData>, lines: seq<string>, clock: Clock, n: nat)
    ensures Strings(q + Stamp(lines, clock, n)) == Strings(q) + lines
  {
  }

  /** What the buffer holds makes no difference to a connection that is denied. */
  lemma DenyUpdated(a: Auth, b: Auth, i: nat)
    requires i < |a.slots| == |b.slots|
    requires b == a.(slots := a.slots[i := b.slots[i]]) && b.slots[i] == a.slots[i].(data := b.slots[i].data)
    ensures Deny(b, i) == Deny(a, i)
  {
    assert RemoveAt(b.slots, i) == RemoveAt(a.slots, i);
  }
}
