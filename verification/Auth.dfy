/** Connections that are not logged in yet, and how one of them becomes the client
    (network.c, crypt.c), on values.  `Doors` has the arrays. */
module Auth {
  import opened Sequences
  import Text
  import opened Codec
  import opened PrivilegedList

  const NET_AUTH_BUCKETSIZE: nat := 5
  const NET_AUTH_TOKENSPERSEC: nat := 1
  const NET_MAXAUTHCONN: nat := 8
  const NET_AUTH_PRIVRES: nat := 2
  const NET_MAXAUTHLEN: nat := 128

  datatype Status = WaitNet | Verify | Correct

  /** One authentication connection. */
  datatype Slot = Slot(
    fd: int,
    address: string,
    status: Status,
    priv: bool,
    data: string,                // auth_buf[..auth_read]
    // What has happened so far.
    got: string,                 // all that was read from the connection
    hash: string)                // the hash that its login matched, once it is Correct

  /** The connection that is the client. */
  datatype Client = Client(
    fd: int,
    address: string,
    lines: seq<string>,          // all that it has added to client_rxqueue
    rest: string,                // client_rxbuffer[..client_rxfull]
    // What has happened so far.
    got: string,
    hash: string)

  datatype Auth = Auth(
    hash: Option<string>,        // auth_hash
    literal: Option<string>,     // auth_literal
    tokens: nat,                 // auth_tokenbucket
    slots: seq<Slot>,
    privs: seq<string>,          // auth_privaddrs
    client: Option<Client>,
    quit: bool)                  // WLD_CLIENTQUIT is in flags

  /** crypt( text, hash ) equals hash. */
  type Crypt = (string, string) -> bool

  // ---------------------------------------------------------------------
  // What is read from a connection
  // ---------------------------------------------------------------------

  /** Where the first newline is, or the length. */
  function LineEnd(s: string): (n: nat)
    ensures n <= |s|
  {
    if s == "" || s[0] == '\n' then 0 else 1 + LineEnd(s[1..])
  }

  /** The part before the first newline, without a \r at its end, as a C string. */
  function Login(s: string): string {
    var line := s[..LineEnd(s)];
    Text.CString(if line != "" && line[|line| - 1] == '\r' then line[..|line| - 1] else line)
  }

  function AfterLogin(s: string): string {
    if LineEnd(s) < |s| then s[LineEnd(s) + 1..] else ""
  }

  lemma {:induction false} LineEndIs(s: string, n: nat)
    requires n <= |s| && '\n' !in s[..n] && (n < |s| ==> s[n] == '\n')
    ensures LineEnd(s) == n
  {
    if n > 0 {
      assert s[..n] == [s[0]] + s[1..][..n - 1];
      LineEndIs(s[1..], n - 1);
    }
  }

  lemma {:induction false} LineEndFirst(s: string)
    ensures '\n' !in s[..LineEnd(s)] && (LineEnd(s) < |s| ==> s[LineEnd(s)] == '\n')
    ensures LineEnd(s) < |s| <==> '\n' in s
  {
    if s != "" && s[0] != '\n' {
      LineEndFirst(s[1..]);
      assert s[..LineEnd(s)] == [s[0]] + s[1..][..LineEnd(s[1..])];
      assert s == [s[0]] + s[1..];
    }
  }

  /** More data does not change the login. */
  lemma LoginFixed(s: string, more: string)
    requires '\n' in s
    ensures '\n' in s + more
    ensures Login(s + more) == Login(s) && AfterLogin(s + more) == AfterLogin(s) + more
  {
    LineEndFirst(s);
    var n := LineEnd(s);
    assert (s + more)[..n] == s[..n];
    LineEndIs(s + more, n);
  }

  // ---------------------------------------------------------------------
  // The slots
  // ---------------------------------------------------------------------

  function PrivCount(slots: seq<Slot>): nat {
    if slots == [] then 0 else (if slots[0].priv then 1 else 0) + PrivCount(slots[1..])
  }

  /** The first slot that is not privileged, or the number of slots. */
  function FirstPlain(slots: seq<Slot>): (i: nat)
    ensures i <= |slots|
  {
    if slots == [] || !slots[0].priv then 0 else 1 + FirstPlain(slots[1..])
  }

  /** The slot to kick out when all are taken. */
  function Victim(slots: seq<Slot>): (i: nat)
    requires slots != []
    ensures i < |slots|
  {
    if PrivCount(slots) > NET_AUTH_PRIVRES then 0
    else if FirstPlain(slots) < |slots| then FirstPlain(slots) else 0
  }

  function MakeRoom(slots: seq<Slot>): seq<Slot> {
    if |slots| == NET_MAXAUTHCONN then RemoveAt(slots, Victim(slots)) else slots
  }

  function NewSlot(fd: int, address: string, privs: seq<string>): Slot {
    Slot(fd, address, WaitNet, address in privs, "", "", "")
  }

  /** handle_listen_fd. */
  function Accept(a: Auth, fd: int, address: string): Auth {
    a.(slots := MakeRoom(a.slots) + [NewSlot(fd, address, a.privs)])
  }

  /** What a read() returns: it may be cut short, or there may be nothing yet, or the
      connection is gone (as it is when there is no data). */
  datatype ReadResult = Retry | Broken | Bytes(data: string)

  /** The data that fits. */
  function Fitting(data: string, room: nat): string {
    FirstN(data, room)
  }

  /** A slot that has read something: once there is a newline or the buffer is full, it is to
      be verified. */
  function AfterRead(s: Slot, d: string): Slot {
    var full := '\n' in d || |s.data + d| >= NET_MAXAUTHLEN;
    s.(data := s.data + d, got := s.got + d, status := if full then Verify else WaitNet)
  }

  /** handle_auth_fd. */
  function ReadIn(slots: seq<Slot>, i: nat, r: ReadResult): seq<Slot>
    requires i < |slots|
  {
    var s := slots[i];
    if s.status != WaitNet || r.Retry? then slots
    else
      var d := if r.Bytes? then Fitting(r.data, if |s.data| < NET_MAXAUTHLEN then NET_MAXAUTHLEN - |s.data| else 0) else "";
      if d == "" then RemoveAt(slots, i) else slots[i := AfterRead(s, d)]
  }

  function ReadSlot(a: Auth, i: nat, r: ReadResult): Auth
    requires i < |a.slots|
  {
    a.(slots := ReadIn(a.slots, i, r))
  }

  /** verify_authentication refuses a connection. */
  function Deny(a: Auth, i: nat): Auth
    requires i < |a.slots|
  {
    a.(slots := RemoveAt(a.slots, i),
       privs := if a.slots[i].priv then Delete(a.privs, a.slots[i].address) else a.privs)
  }

  /** world_match_authentication. */
  predicate Matches(a: Auth, text: string, crypt: Crypt)
    requires a.hash.Some?
  {
    if a.literal.Some? then a.literal.value == text else crypt(text, a.hash.value)
  }

  /** verify_authentication once a token is taken. */
  function Judged(a: Auth, i: nat, crypt: Crypt): Auth
    requires i < |a.slots| && a.hash.Some?
  {
    var s := a.slots[i];
    if '\n' !in s.data || !Matches(a, Login(s.data), crypt) then Deny(a, i)
    else a.(slots := a.slots[i := s.(status := Correct, data := AfterLogin(s.data), hash := a.hash.value)],
            literal := Some(Login(s.data)), quit := a.quit || a.client.Some?)
  }

  /** verify_authentication. */
  function VerifySlot(a: Auth, i: nat, crypt: Crypt): Auth
    requires i < |a.slots|
  {
    if a.hash.None? then a.(slots := RemoveAt(a.slots, i))
    else Judged(a.(tokens := if a.tokens > 0 then a.tokens - 1 else 0), i, crypt)
  }

  /** promote_auth_connection. */
  function Promote(a: Auth, i: nat): Auth
    requires i < |a.slots|
  {
    var s := a.slots[i];
    if a.client.Some? then a.(quit := true)
    else
      var f := Feed(NOTHING, s.data);
      a.(client := Some(Client(s.fd, s.address, f.lines, f.rest, s.got, s.hash)),
         privs := Add(a.privs, s.address), slots := RemoveAt(a.slots, i))
  }

  /** A slot that wait_for_network would see to. */
  predicate IsDue(s: Slot, tokens: nat) {
    s.status == Correct || (s.status == Verify && (tokens > 0 || s.priv))
  }

  function FirstDue(slots: seq<Slot>, tokens: nat): (i: nat)
    ensures i <= |slots| && (i < |slots| ==> IsDue(slots[i], tokens))
    ensures forall j :: 0 <= j < i ==> !IsDue(slots[j], tokens)
  {
    if slots == [] || IsDue(slots[0], tokens) then 0 else 1 + FirstDue(slots[1..], tokens)
  }

  /** The start of wait_for_network. */
  function Look(a: Auth, crypt: Crypt): Auth {
    var i := FirstDue(a.slots, a.tokens);
    if i == |a.slots| then a
    else if a.slots[i].status == Correct then Promote(a, i)
    else VerifySlot(a, i, crypt)
  }

  /** The client is gone, or sends something. */
  function ClientSends(a: Auth, d: string): Auth
    requires a.client.Some?
  {
    var c := a.client.value;
    var f := Feed(Split([], c.rest), d);
    if d == "" then a.(client := None)
    else a.(client := Some(c.(lines := c.lines + f.lines, rest := f.rest, got := c.got + d)))
  }

  /** handle_client_fd. */
  function ReadClient(a: Auth, r: ReadResult): Auth {
    if a.client.None? || r.Retry? then a
    else
      var n := |a.client.value.rest|;
      ClientSends(a, if r.Bytes? then Fitting(r.data, if n < NET_BBUFFER_LEN then NET_BBUFFER_LEN - n else 0) else "")
  }

  /** world_auth_add_bucket. */
  function AddBucket(a: Auth): Auth {
    a.(tokens := if a.tokens + NET_AUTH_TOKENSPERSEC > NET_AUTH_BUCKETSIZE then NET_AUTH_BUCKETSIZE
                 else a.tokens + NET_AUTH_TOKENSPERSEC)
  }

  // ---------------------------------------------------------------------
  // Runs
  // ---------------------------------------------------------------------

  /** Whatever can happen, in any order. */
  datatype Event =
    | EvLook
    | EvAccept(fd: int, address: string)
    | EvSlot(i: nat, r: ReadResult)
    | EvClient(r: ReadResult)
    | EvTick
    | EvQuit                       // a command asks for it
    | EvFlags                      // handle_flags
    | EvHash(hash: string)         // the option auth_hash is set

  function Step(a: Auth, e: Event, crypt: Crypt): Auth {
    match e
    case EvLook => Look(a, crypt)
    case EvAccept(fd, address) => Accept(a, fd, address)
    case EvSlot(i, r) => if i < |a.slots| then ReadSlot(a, i, r) else a
    case EvClient(r) => ReadClient(a, r)
    case EvTick => AddBucket(a)
    case EvQuit => a.(quit := true)
    case EvFlags => if a.quit then a.(quit := false, client := None) else a
    case EvHash(hash) => a.(hash := Some(hash), literal := None)
  }

  function Run(a: Auth, events: seq<Event>, crypt: Crypt): Auth
    decreases events
  {
    if events == [] then a else Run(Step(a, events[0], crypt), events[1..], crypt)
  }

  /** world_create. */
  const NEW_AUTH := Auth(None, None, NET_AUTH_BUCKETSIZE, [], [], None, false)

  // ---------------------------------------------------------------------
  // What every event keeps
  // ---------------------------------------------------------------------

  /** What is in the buffer of a slot is what was read, or what came after the login. */
  predicate SlotOk(s: Slot, crypt: Crypt) {
    match s.status
    case WaitNet => s.data == s.got && '\n' !in s.got && |s.got| < NET_MAXAUTHLEN
    case Verify => s.data == s.got && |s.got| <= NET_MAXAUTHLEN && ('\n' in s.got || |s.got| == NET_MAXAUTHLEN)
    case Correct => '\n' in s.got && |s.got| <= NET_MAXAUTHLEN && s.data == AfterLogin(s.got)
                    && crypt(Login(s.got), s.hash)
  }

  predicate ClientOk(c: Client, crypt: Crypt) {
    && '\n' in c.got && crypt(Login(c.got), c.hash)
    && Feed(NOTHING, AfterLogin(c.got)) == Split(c.lines, c.rest)
    && '\n' !in c.rest && |c.rest| < NET_BBUFFER_LEN
  }

  predicate LiteralOk(a: Auth, crypt: Crypt) {
    a.literal.Some? ==> a.hash.Some? && crypt(a.literal.value, a.hash.value)
  }

  predicate Ok(a: Auth, crypt: Crypt) {
    && |a.slots| <= NET_MAXAUTHCONN
    && a.tokens <= NET_AUTH_BUCKETSIZE
    && (forall s <- a.slots :: SlotOk(s, crypt))
    && ListOk(a.privs)
    && LiteralOk(a, crypt)
    && (a.client.Some? ==> ClientOk(a.client.value, crypt))
  }

  lemma RemoveKeeps(a: Auth, i: nat, crypt: Crypt)
    requires Ok(a, crypt) && i < |a.slots|
    ensures Ok(a.(slots := RemoveAt(a.slots, i)), crypt)
  {
  }

  lemma UpdateKeeps(a: Auth, i: nat, s: Slot, crypt: Crypt)
    requires Ok(a, crypt) && i < |a.slots| && SlotOk(s, crypt)
    ensures Ok(a.(slots := a.slots[i := s]), crypt)
  {
  }

  lemma AcceptKeeps(a: Auth, fd: int, address: string, crypt: Crypt)
    requires Ok(a, crypt)
    ensures Ok(Accept(a, fd, address), crypt)
  {
    var rest := MakeRoom(a.slots);
    assert forall s <- rest :: s in a.slots;
    var slots := rest + [NewSlot(fd, address, a.privs)];
    assert forall s <- slots :: s in rest || s == NewSlot(fd, address, a.privs);
  }

  lemma ReadSlotKeeps(a: Auth, i: nat, r: ReadResult, crypt: Crypt)
    requires Ok(a, crypt) && i < |a.slots|
    ensures Ok(ReadSlot(a, i, r), crypt)
  {
    var s := a.slots[i];
    assert SlotOk(s, crypt);
    if s.status == WaitNet && !r.Retry? {
      var d := if r.Bytes? then Fitting(r.data, NET_MAXAUTHLEN - |s.data|) else "";
      if d == "" {
        RemoveKeeps(a, i, crypt);
      } else {
        UpdateKeeps(a, i, AfterRead(s, d), crypt);
      }
    }
  }

  lemma DenyKeeps(a: Auth, i: nat, crypt: Crypt)
    requires Ok(a, crypt) && i < |a.slots|
    ensures Ok(Deny(a, i), crypt)
  {
    RemoveKeeps(a, i, crypt);
    DeleteExact(a.privs, a.slots[i].address);
  }

  lemma VerifyKeeps(a: Auth, i: nat, crypt: Crypt)
    requires Ok(a, crypt) && i < |a.slots| && a.slots[i].status == Verify
    ensures Ok(VerifySlot(a, i, crypt), crypt)
  {
    var s := a.slots[i];
    assert SlotOk(s, crypt);
    if a.hash.None? {
      RemoveKeeps(a, i, crypt);
    } else {
      var a1 := a.(tokens := if a.tokens > 0 then a.tokens - 1 else 0);
      if '\n' !in s.data || !Matches(a, Login(s.data), crypt) {
        DenyKeeps(a1, i, crypt);
      } else {
        var a2 := a1.(literal := Some(Login(s.data)), quit := a.quit || a.client.Some?);
        UpdateKeeps(a2, i, s.(status := Correct, data := AfterLogin(s.data), hash := a.hash.value), crypt);
      }
    }
  }

  lemma PromoteKeeps(a: Auth, i: nat, crypt: Crypt)
    requires Ok(a, crypt) && i < |a.slots| && a.slots[i].status == Correct
    ensures Ok(Promote(a, i), crypt)
  {
    var s := a.slots[i];
    assert SlotOk(s, crypt);
    RemoveKeeps(a, i, crypt);
    AddKeeps(a.privs, s.address);
    RestIsPending(NOTHING, s.data);
  }

  lemma ReadClientKeeps(a: Auth, r: ReadResult, crypt: Crypt)
    requires Ok(a, crypt)
    ensures Ok(ReadClient(a, r), crypt)
  {
    if a.client.Some? && r.Bytes? {
      var c := a.client.value;
      var d := Fitting(r.data, NET_BBUFFER_LEN - |c.rest|);
      LoginFixed(c.got, d);
      FeedConcat(NOTHING, AfterLogin(c.got), d);
      FeedAfter(c.lines, Split([], c.rest), d);
      assert c.lines + [] == c.lines;
      RestIsPending(Split([], c.rest), d);
    }
  }

  lemma StepKeeps(a: Auth, e: Event, crypt: Crypt)
    requires Ok(a, crypt)
    ensures Ok(Step(a, e, crypt), crypt)
  {
    match e {
      case EvLook =>
        var i := FirstDue(a.slots, a.tokens);
        if i < |a.slots| {
          if a.slots[i].status == Correct { PromoteKeeps(a, i, crypt); } else { VerifyKeeps(a, i, crypt); }
        }
      case EvAccept(fd, address) => AcceptKeeps(a, fd, address, crypt);
      case EvSlot(i, r) => if i < |a.slots| { ReadSlotKeeps(a, i, r, crypt); }
      case EvClient(r) => ReadClientKeeps(a, r, crypt);
      case EvTick =>
      case EvQuit =>
      case EvFlags =>
      case EvHash(hash) =>
    }
  }

  lemma {:induction false} RunKeeps(a: Auth, events: seq<Event>, crypt: Crypt)
    requires Ok(a, crypt)
    ensures Ok(Run(a, events, crypt), crypt)
    decreases events
  {
    if events != [] {
      StepKeeps(a, events[0], crypt);
      RunKeeps(Step(a, events[0], crypt), events[1..], crypt);
    }
  }
}
