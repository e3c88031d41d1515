/** Who is let in (network.c: verify_authentication; crypt.c: world_match_authentication): what
    decides on a login, in terms of what has happened. */
module AuthLogin {
  import opened Sequences
  import opened Codec
  import Text
  import opened Auth
  import T = AuthTheorems
  import opened AuthTurns

  // ---------------------------------------------------------------------
  // The login that was verified last
  // ---------------------------------------------------------------------

  /** A look lets in the login of slot i: the slot stays in its place and is correct. */
  predicate LetIn(a: Auth, b: Auth, i: nat) {
    && i < |a.slots| == |b.slots|
    && a.slots[i].status == Verify && b.slots[i].status == Correct && b.slots[i].fd == a.slots[i].fd
    && b.slots[i].address == a.slots[i].address && b.slots[i].got == a.slots[i].got
  }

  /** A look turns away slot i. */
  predicate TurnedAway(a: Auth, b: Auth, i: nat) {
    i < |a.slots| && b.slots == RemoveAt(a.slots, i)
  }

  /** The login that the last event let in, if it is such an event. */
  function LetInNow(events: seq<Event>, crypt: Crypt): Option<string>
    requires events != []
  {
    var n := |events| - 1;
    var a, b := Run(NEW_AUTH, events[..n], crypt), Run(NEW_AUTH, events, crypt);
    var i := FirstDue(a.slots, a.tokens);
    if events[n].EvLook? && LetIn(a, b, i) then Some(Login(a.slots[i].got)) else None
  }

  /** The login that was let in last since the option auth_hash was set. */
  function LastLetIn(events: seq<Event>, crypt: Crypt): Option<string> {
    if events == [] || events[|events| - 1].EvHash? then None
    else if LetInNow(events, crypt).Some? then LetInNow(events, crypt)
    else LastLetIn(events[..|events| - 1], crypt)
  }

  /** A look lets in the first slot that is due, or turns it away, or promotes it. */
  lemma LookDecides(a: Auth, crypt: Crypt)
    requires Ok(a, crypt) && FirstDue(a.slots, a.tokens) < |a.slots|
    ensures var b, i := Look(a, crypt), FirstDue(a.slots, a.tokens);
            var s := a.slots[i];
            if s.status == Verify && a.hash.Some? && '\n' in s.got && Matches(a, Login(s.got), crypt)
            then LetIn(a, b, i) && b.literal == Some(Login(s.got))
            else !LetIn(a, b, i) && b.literal == a.literal && (s.status == Verify ==> TurnedAway(a, b, i))
  {
    var i := FirstDue(a.slots, a.tokens);
    assert SlotOk(a.slots[i], crypt);
  }

  /** What is cached is the login that was let in last. */
  lemma LiteralStep(events: seq<Event>, e: Event, crypt: Crypt)
    requires Run(NEW_AUTH, events, crypt).literal == LastLetIn(events, crypt)
    ensures Run(NEW_AUTH, events + [e], crypt).literal == LastLetIn(events + [e], crypt)
  {
    var a := Run(NEW_AUTH, events, crypt);
    T.RunSnoc(NEW_AUTH, events, e, crypt);
    assert (events + [e])[..|events|] == events;
    RunKeeps(NEW_AUTH, events, crypt);
    if e.EvLook? && FirstDue(a.slots, a.tokens) < |a.slots| {
      LookDecides(a, crypt);
    }
  }

  lemma {:induction false} LiteralIs(events: seq<Event>, crypt: Crypt)
    ensures Run(NEW_AUTH, events, crypt).literal == LastLetIn(events, crypt)
    decreases |events|
  {
    if events != [] {
      var n := |events| - 1;
      assert events == events[..n] + [events[n]];
      LiteralIs(events[..n], crypt);
      LiteralStep(events[..n], events[n], crypt);
    }
  }

  // ---------------------------------------------------------------------
  // What decides
  // ---------------------------------------------------------------------

  /** Whether what a connection has sent is let in after these events: there must be a hash and
      a whole line, and the line must be the one that was let in last since the hash was set,
      or, if none was, it must match the hash. */
  predicate Welcome(events: seq<Event>, got: string, crypt: Crypt) {
    && T.HashInForce(events).Some? && '\n' in got
    && match LastLetIn(events, crypt)
       case Some(text) => Login(got) == text
       case None => crypt(Login(got), T.HashInForce(events).value)
  }

  /** At any point of any run: the first slot that is due and is to be verified is let in if
      and only if it is welcome; otherwise it is turned away. */
  lemma LoginDecided(events: seq<Event>, crypt: Crypt)
    ensures var a, b := Run(NEW_AUTH, events, crypt), Run(NEW_AUTH, events + [EvLook], crypt);
            var i := FirstDue(a.slots, a.tokens);
            i < |a.slots| && a.slots[i].status == Verify ==>
              && (LetIn(a, b, i) <==> Welcome(events, a.slots[i].got, crypt))
              && (TurnedAway(a, b, i) <==> !Welcome(events, a.slots[i].got, crypt))
  {
    var a := Run(NEW_AUTH, events, crypt);
    T.RunSnoc(NEW_AUTH, events, EvLook, crypt);
    RunKeeps(NEW_AUTH, events, crypt);
    T.HashIs(events, crypt);
    LiteralIs(events, crypt);
    if FirstDue(a.slots, a.tokens) < |a.slots| {
      LookDecides(a, crypt);
    }
  }

  /** A client that is attached has to go when another login is let in. */
  lemma Takeover(a: Auth, crypt: Crypt)
    requires Ok(a, crypt) && LetIn(a, Look(a, crypt), FirstDue(a.slots, a.tokens))
    ensures Look(a, crypt).quit == (a.quit || a.client.Some?) && Look(a, crypt).client == a.client
  {
    LookDecides(a, crypt);
  }

  /** What was let in last matches the hash in force. */
  lemma LastMatches(events: seq<Event>, crypt: Crypt)
    ensures LastLetIn(events, crypt).Some? ==>
              T.HashInForce(events).Some? && crypt(LastLetIn(events, crypt).value, T.HashInForce(events).value)
  {
    RunKeeps(NEW_AUTH, events, crypt);
    T.HashIs(events, crypt);
    LiteralIs(events, crypt);
  }

  /** No two texts match the same hash. */
  ghost predicate NoCollisions(crypt: Crypt) {
    forall s: string, t: string, hash: string :: crypt(s, hash) && crypt(t, hash) ==> s == t
  }

  /** Then a login is welcome exactly if it matches the hash, no matter who was let in before. */
  lemma WelcomeIfMatches(events: seq<Event>, got: string, crypt: Crypt)
    requires NoCollisions(crypt)
    ensures Welcome(events, got, crypt)
        <==> T.HashInForce(events).Some? && '\n' in got && crypt(Login(got), T.HashInForce(events).value)
  {
    LastMatches(events, crypt);
  }

  /** Otherwise a text that matches is turned away when another one was let in before. */
  lemma CollisionRefused(events: seq<Event>, got: string, crypt: Crypt)
    requires LastLetIn(events, crypt).Some? && Login(got) != LastLetIn(events, crypt).value
    ensures !Welcome(events, got, crypt)
  {
  }

  /** The login is what stands before the end of the first line, whichever end it has. */
  lemma LoginOf(text: string, more: string)
    requires '\n' !in text && Text.IsCString(text)
    ensures Login(text + "\r\n" + more) == text && AfterLogin(text + "\r\n" + more) == more
    ensures (text == "" || text[|text| - 1] != '\r') ==>
              Login(text + "\n" + more) == text && AfterLogin(text + "\n" + more) == more
  {
    LineStarts(text + "\r", more);
    assert text + "\r" + "\n" + more == text + "\r\n" + more;
    assert (text + "\r")[..|text|] == text;
    LineStarts(text, more);
    WholeCString(text);
  }

  lemma LineStarts(line: string, more: string)
    requires '\n' !in line
    ensures var s := line + "\n" + more; LineEnd(s) == |line| && s[..|line|] == line && AfterLogin(s) == more
  {
    var s := line + "\n" + more;
    assert s[..|line|] == line && s[|line| + 1..] == more;
    LineEndIs(s, |line|);
  }

  lemma {:induction false} WholeCString(s: string)
    requires Text.IsCString(s)
    ensures Text.CString(s) == s
  {
    if s != "" {
      assert s[0] in s && forall c <- s[1..] :: c in s;
      WholeCString(s[1..]);
    }
  }

  // ---------------------------------------------------------------------
  // From the login to the client
  // ---------------------------------------------------------------------

  /** The events of passes. */
  function EventsOf(a: Auth, turns: seq<Turn>, crypt: Crypt): seq<Event>
    decreases turns
  {
    if turns == [] then []
    else TurnEvents(a, turns[0]) + EventsOf(DoTurn(a, turns[0], crypt), turns[1..], crypt)
  }

  lemma {:induction false} TurnsAreEvents(a: Auth, turns: seq<Turn>, crypt: Crypt)
    ensures DoTurns(a, turns, crypt) == Run(a, EventsOf(a, turns, crypt), crypt)
    decreases turns
  {
    if turns != [] {
      var b := DoTurn(a, turns[0], crypt);
      TurnsAreEvents(b, turns[1..], crypt);
      T.RunConcat(a, TurnEvents(a, turns[0]), EventsOf(b, turns[1..], crypt), crypt);
    }
  }

  /** The connection still has a slot. */
  predicate Present(slots: seq<Slot>, s: Slot) {
    exists x <- slots :: x.fd == s.fd && x.address == s.address && x.got == s.got
  }

  /** The pass that lets in a login. */
  lemma TurnLetsIn(a: Auth, i: nat, t: Turn, crypt: Crypt)
    requires Ok(a, crypt) && TurnOk(t) && !a.quit && a.hash.Some?
    requires i == FirstDue(a.slots, a.tokens) && LetIn(a, Look(a, crypt), i)
    ensures var b := DoTurn(a, t, crypt);
            && |b.slots| == |a.slots| && !b.quit
            && b.slots[i] == a.slots[i].(status := Correct, data := AfterLogin(a.slots[i].got), hash := a.hash.value)
  {
    LookTurn(a, t, crypt);
    assert SlotOk(a.slots[i], crypt);
  }

  /** And those that follow. */
  lemma CorrectIsServed(b: Auth, i: nat, turns: seq<Turn>, crypt: Crypt) returns (n: nat)
    requires i < |b.slots| <= NET_MAXAUTHCONN && b.slots[i].status == Correct && !b.quit
    requires (forall t <- turns :: TurnOk(t)) && |turns| >= 22
    ensures n <= 22 && forall m :: 0 <= m <= n ==> b.slots[i] in DoTurns(b, turns[..m], crypt).slots
    ensures var s, rest := b.slots[i], Feed(NOTHING, b.slots[i].data);
            Look(DoTurns(b, turns[..n], crypt), crypt).client
            == Some(Client(s.fd, s.address, rest.lines, rest.rest, s.got, s.hash))
  {
    DelaysBound(b.slots[..i]);
    n := Waits(b, i, turns, crypt);
  }

  /** A connection whose turn it is to be verified, and which is welcome, is the client after at
      most 23 passes, whatever connections and commands come in the meantime, with all that
      it sent after its first line. */
  lemma WelcomeIsServed(before: seq<Turn>, turns: seq<Turn>, crypt: Crypt) returns (n: nat)
    requires (forall t <- turns :: TurnOk(t)) && |turns| >= 23
    requires var a := DoTurns(NEW_AUTH, before, crypt);
             var i := FirstDue(a.slots, a.tokens);
             i < |a.slots| && a.slots[i].status == Verify
             && Welcome(EventsOf(NEW_AUTH, before, crypt), a.slots[i].got, crypt)
    ensures var a := DoTurns(NEW_AUTH, before, crypt);
            var s := a.slots[FirstDue(a.slots, a.tokens)];
            var rest := Feed(NOTHING, AfterLogin(s.got));
            && 0 < n <= 23
            && (forall m :: 0 <= m <= n ==> Present(DoTurns(a, turns[..m], crypt).slots, s))
            && Look(DoTurns(a, turns[..n], crypt), crypt).client
               == Some(Client(s.fd, s.address, rest.lines, rest.rest, s.got,
                              T.HashInForce(EventsOf(NEW_AUTH, before, crypt)).value))
  {
    var a, events := DoTurns(NEW_AUTH, before, crypt), EventsOf(NEW_AUTH, before, crypt);
    var i := FirstDue(a.slots, a.tokens);
    TurnsAreEvents(NEW_AUTH, before, crypt);
    TurnsKeep(NEW_AUTH, before, crypt);
    T.HashIs(events, crypt);
    LoginDecided(events, crypt);
    T.RunSnoc(NEW_AUTH, events, EvLook, crypt);
    TurnLetsIn(a, i, turns[0], crypt);
    n := ThenServed(a, i, turns, crypt);
  }

  lemma ThenServed(a: Auth, i: nat, turns: seq<Turn>, crypt: Crypt) returns (n: nat)
    requires (forall t <- turns :: TurnOk(t)) && |turns| >= 23 && i < |a.slots| <= NET_MAXAUTHCONN
    requires var b := DoTurn(a, turns[0], crypt);
             && |b.slots| == |a.slots| && !b.quit && b.slots[i].status == Correct
             && b.slots[i].fd == a.slots[i].fd && b.slots[i].address == a.slots[i].address
             && b.slots[i].got == a.slots[i].got
    ensures 0 < n <= 23 && forall m :: 0 <= m <= n ==> Present(DoTurns(a, turns[..m], crypt).slots, a.slots[i])
    ensures var s := DoTurn(a, turns[0], crypt).slots[i];
            var rest := Feed(NOTHING, s.data);
            Look(DoTurns(a, turns[..n], crypt), crypt).client
            == Some(Client(s.fd, s.address, rest.lines, rest.rest, s.got, s.hash))
  {
    var b := DoTurn(a, turns[0], crypt);
    var k := CorrectIsServed(b, i, turns[1..], crypt);
    n := k + 1;
    DoTurnsStep(a, turns, n, crypt);
    forall m | 0 <= m <= n ensures Present(DoTurns(a, turns[..m], crypt).slots, a.slots[i]) {
      if m == 0 {
        assert turns[..0] == [];
        assert a.slots[i] in a.slots;
      } else {
        DoTurnsStep(a, turns, m, crypt);
        assert b.slots[i] in DoTurns(b, turns[1..][..m - 1], crypt).slots;
      }
    }
  }
}
