/** What holds of every run of the authentication slots. */
module AuthTheorems {
  import opened Sequences
  import opened Codec
  import opened PrivilegedList
  import opened Auth

  // ---------------------------------------------------------------------
  // Who is kicked out
  // ---------------------------------------------------------------------

  lemma {:induction false} PrivCountConcat(a: seq<Slot>, b: seq<Slot>)
    ensures PrivCount(a + b) == PrivCount(a) + PrivCount(b)
  {
    if a == [] {
      assert a + b == b;
    } else {
      assert (a + b)[1..] == a[1..] + b;
      PrivCountConcat(a[1..], b);
    }
  }

  lemma PrivCountRemove(slots: seq<Slot>, i: nat)
    requires i < |slots|
    ensures PrivCount(slots) == PrivCount(RemoveAt(slots, i)) + if slots[i].priv then 1 else 0
  {
    PrivCountConcat(slots[..i], slots[i + 1..]);
    PrivCountConcat(slots[..i], slots[i..]);
    SplitAt(slots, i);
    assert slots[i..][1..] == slots[i + 1..];
  }

  lemma {:induction false} FirstPlainIs(slots: seq<Slot>)
    ensures var i := FirstPlain(slots);
            (forall j :: 0 <= j < i ==> slots[j].priv) && (i < |slots| ==> !slots[i].priv)
    ensures FirstPlain(slots) == |slots| ==> PrivCount(slots) == |slots|
  {
    if slots != [] && slots[0].priv {
      FirstPlainIs(slots[1..]);
      var i := FirstPlain(slots);
      forall j | 0 <= j < i ensures slots[j].priv {
        assert j > 0 ==> slots[j] == slots[1..][j - 1];
      }
    }
  }

  /** There is always a slot to kick out: the oldest of all if more than two are privileged,
      and otherwise the oldest of the others. */
  lemma EvictionChoice(slots: seq<Slot>)
    requires |slots| == NET_MAXAUTHCONN
    ensures var v := Victim(slots);
            if PrivCount(slots) > NET_AUTH_PRIVRES then v == 0
            else !slots[v].priv && forall j :: 0 <= j < v ==> slots[j].priv
  {
    FirstPlainIs(slots);
  }

  predicate AllAccepts(events: seq<Event>) {
    forall e <- events :: e.EvAccept?
  }

  lemma AcceptCount(a: Auth, fd: int, address: string)
    requires |a.slots| <= NET_MAXAUTHCONN
    ensures var n := PrivCount(a.slots);
            PrivCount(Accept(a, fd, address).slots) >= if n < NET_AUTH_PRIVRES then n else NET_AUTH_PRIVRES
  {
    var x := NewSlot(fd, address, a.privs);
    PrivCountConcat(MakeRoom(a.slots), [x]);
    assert PrivCount([x]) >= 0;
    if |a.slots| == NET_MAXAUTHCONN {
      EvictionChoice(a.slots);
      PrivCountRemove(a.slots, Victim(a.slots));
    }
  }

  /** However many connections arrive, two privileged ones are safe from them. */
  lemma {:induction false} ArrivalsKeepPrivileged(a: Auth, events: seq<Event>, crypt: Crypt)
    requires |a.slots| <= NET_MAXAUTHCONN && AllAccepts(events)
    ensures var n, n' := PrivCount(a.slots), PrivCount(Run(a, events, crypt).slots);
            n' >= if n < NET_AUTH_PRIVRES then n else NET_AUTH_PRIVRES
    decreases events
  {
    if events != [] {
      assert events[0].EvAccept?;
      AcceptCount(a, events[0].fd, events[0].address);
      var a1 := Step(a, events[0], crypt);
      ArrivalsKeepPrivileged(a1, events[1..], crypt);
    }
  }

  // ---------------------------------------------------------------------
  // The order of the slots
  // ---------------------------------------------------------------------

  /** The connections in the slots. */
  function Fds(slots: seq<Slot>): seq<int> {
    seq(|slots|, i requires 0 <= i < |slots| => slots[i].fd)
  }

  /** The connections that were accepted. */
  function Accepted(events: seq<Event>): seq<int> {
    if events == [] then []
    else Accepted(events[..|events| - 1]) + (if events[|events| - 1].EvAccept? then [events[|events| - 1].fd] else [])
  }

  lemma {:induction false} RunSnoc(a: Auth, events: seq<Event>, e: Event, crypt: Crypt)
    ensures Run(a, events + [e], crypt) == Step(Run(a, events, crypt), e, crypt)
    decreases events
  {
    if events == [] {
      assert events + [e] == [e];
      assert Run(Step(a, e, crypt), [], crypt) == Step(a, e, crypt);
    } else {
      assert (events + [e])[1..] == events[1..] + [e];
      RunSnoc(Step(a, events[0], crypt), events[1..], e, crypt);
    }
  }

  lemma {:induction false} RunConcat(a: Auth, x: seq<Event>, y: seq<Event>, crypt: Crypt)
    ensures Run(a, x + y, crypt) == Run(Run(a, x, crypt), y, crypt)
    decreases x
  {
    if x == [] {
      EmptyEnds(y);
    } else {
      ConcatStep(x, y);
      RunConcat(Step(a, x[0], crypt), x[1..], y, crypt);
    }
  }

  /** Slots go or are updated in place, and new ones come at the end. */
  lemma FdsRemove(slots: seq<Slot>, i: nat, all: seq<int>)
    requires i < |slots| && Subseq(Fds(slots), all)
    ensures Subseq(Fds(RemoveAt(slots, i)), all)
  {
    SubseqRemove(Fds(slots), i, all);
    assert RemoveAt(Fds(slots), i) == Fds(RemoveAt(slots, i));
  }

  lemma AcceptOrder(a: Auth, fd: int, address: string, all: seq<int>)
    requires Subseq(Fds(a.slots), all)
    ensures Subseq(Fds(Accept(a, fd, address).slots), all + [fd])
  {
    var rest := MakeRoom(a.slots);
    if |a.slots| == NET_MAXAUTHCONN {
      FdsRemove(a.slots, Victim(a.slots), all);
    }
    SubseqSnoc(Fds(rest), all, fd);
    assert Fds(rest + [NewSlot(fd, address, a.privs)]) == Fds(rest) + [fd];
  }

  lemma SlotOrder(a: Auth, i: nat, a': Auth, all: seq<int>)
    requires i < |a.slots| && Subseq(Fds(a.slots), all)
    requires a'.slots == a.slots || a'.slots == RemoveAt(a.slots, i)
             || (|a'.slots| == |a.slots| && a'.slots[i].fd == a.slots[i].fd && a'.slots == a.slots[i := a'.slots[i]])
    ensures Subseq(Fds(a'.slots), all)
  {
    FdsRemove(a.slots, i, all);
    if a'.slots != RemoveAt(a.slots, i) {
      assert Fds(a'.slots) == Fds(a.slots);
    }
  }

  lemma LookOrder(a: Auth, crypt: Crypt, all: seq<int>)
    requires Subseq(Fds(a.slots), all)
    ensures Subseq(Fds(Look(a, crypt).slots), all)
  {
    var i := FirstDue(a.slots, a.tokens);
    if i < |a.slots| {
      SlotOrder(a, i, Look(a, crypt), all);
    }
  }

  lemma ReadOrder(a: Auth, i: nat, r: ReadResult, all: seq<int>)
    requires i < |a.slots| && Subseq(Fds(a.slots), all)
    ensures Subseq(Fds(ReadSlot(a, i, r).slots), all)
  {
    SlotOrder(a, i, ReadSlot(a, i, r), all);
  }

  lemma StepOrder(a: Auth, e: Event, crypt: Crypt, all: seq<int>)
    requires Subseq(Fds(a.slots), all)
    ensures Subseq(Fds(Step(a, e, crypt).slots), if e.EvAccept? then all + [e.fd] else all)
  {
    match e {
      case EvAccept(fd, address) => AcceptOrder(a, fd, address, all);
      case EvSlot(i, r) => if i < |a.slots| { ReadOrder(a, i, r, all); }
      case EvLook => LookOrder(a, crypt, all);
      case _ =>
    }
  }

  /** The slots are always in the order in which their connections arrived. */
  lemma {:induction false} ArrivalOrder(a: Auth, events: seq<Event>, crypt: Crypt)
    requires a.slots == []
    ensures Subseq(Fds(Run(a, events, crypt).slots), Accepted(events))
    decreases |events|
  {
    if events != [] {
      var n := |events| - 1;
      assert events == events[..n] + [events[n]];
      ArrivalOrder(a, events[..n], crypt);
      RunSnoc(a, events[..n], events[n], crypt);
      StepOrder(Run(a, events[..n], crypt), events[n], crypt, Accepted(events[..n]));
      EmptyEnds(Accepted(events[..n]));
    }
  }

  // ---------------------------------------------------------------------
  // The rate of login attempts
  // ---------------------------------------------------------------------

  /** Whether an event checks the login of a connection that is not privileged. */
  function Attempt(a: Auth, e: Event): nat {
    var i := FirstDue(a.slots, a.tokens);
    if e.EvLook? && i < |a.slots| && a.slots[i].status == Verify && !a.slots[i].priv && a.hash.Some? then 1 else 0
  }

  function Attempts(a: Auth, events: seq<Event>, crypt: Crypt): nat
    decreases events
  {
    if events == [] then 0 else Attempt(a, events[0]) + Attempts(Step(a, events[0], crypt), events[1..], crypt)
  }

  function Ticks(events: seq<Event>): nat {
    if events == [] then 0 else (if events[0].EvTick? then 1 else 0) + Ticks(events[1..])
  }

  lemma StepTokens(a: Auth, e: Event, crypt: Crypt)
    ensures Attempt(a, e) + Step(a, e, crypt).tokens
         <= a.tokens + if e.EvTick? then NET_AUTH_TOKENSPERSEC else 0
  {
    if e.EvLook? {
      var i := FirstDue(a.slots, a.tokens);
      if i < |a.slots| && a.slots[i].status == Verify {
        assert IsDue(a.slots[i], a.tokens);
      }
    }
  }

  /** In any stretch of any run, the login attempts of connections that are not privileged
      are at most the tokens at its start and the seconds that pass. */
  lemma {:induction false} RateBound(a: Auth, events: seq<Event>, crypt: Crypt)
    ensures Attempts(a, events, crypt) + Run(a, events, crypt).tokens
         <= a.tokens + Ticks(events) * NET_AUTH_TOKENSPERSEC
    decreases events
  {
    if events != [] {
      StepTokens(a, events[0], crypt);
      RateBound(Step(a, events[0], crypt), events[1..], crypt);
    }
  }

  // ---------------------------------------------------------------------
  // Who is privileged
  // ---------------------------------------------------------------------

  /** A privileged connection that does not know the login takes the privilege of its
      address with it; nobody else loses or gains one. */
  lemma DenialRevokes(a: Auth, i: nat, crypt: Crypt)
    requires Ok(a, crypt) && i < |a.slots| && a.hash.Some?
    requires '\n' !in a.slots[i].data || !Matches(a, Login(a.slots[i].data), crypt)
    ensures var b, s := VerifySlot(a, i, crypt), a.slots[i];
            && (forall x :: x in b.privs <==> x in a.privs && !(s.priv && x == s.address))
            && Subseq(b.privs, a.privs) && b.slots == RemoveAt(a.slots, i) && b.client == a.client
  {
    DeleteExact(a.privs, a.slots[i].address);
    SubseqSelf(a.privs);
  }

  /** The address of a new client is the most recent of the privileged ones, and at most the
      least recent other one has had to go. */
  lemma PromotionGrants(a: Auth, i: nat, crypt: Crypt)
    requires Ok(a, crypt) && i < |a.slots| && a.client.None?
    ensures var privs, x := Promote(a, i).privs, a.slots[i].address;
            && privs[|privs| - 1] == x
            && forall y <- a.privs :: y in privs || (y == a.privs[0] && |a.privs| == NET_MAX_PRIVADDRS)
  {
    var x := a.slots[i].address;
    var t := Delete(a.privs, x);
    DeleteExact(a.privs, x);
    var privs := Add(a.privs, x);
    forall y <- a.privs ensures y in privs || (y == a.privs[0] && |a.privs| == NET_MAX_PRIVADDRS) {
      if y != x {
        assert y in t;
        if |t| >= NET_MAX_PRIVADDRS {
          DeleteAbsent(a.privs, x);
          HeadTail(t);
          assert y == t[0] || y in t[1..];
          assert forall z <- t[1..] :: z in privs;
        } else {
          assert forall z <- t :: z in privs;
        }
      } else {
        assert privs[|privs| - 1] == x;
      }
    }
  }

  // ---------------------------------------------------------------------
  // The theorems about whole runs
  // ---------------------------------------------------------------------

  /** At any point of any run there are at most eight slots, a bucket of at most five tokens
      and at most eight privileged addresses; what an unverified slot holds is all that its
      connection sent, without a newline unless it is to be verified. */
  lemma SlotsOfRun(events: seq<Event>, crypt: Crypt)
    ensures var a := Run(NEW_AUTH, events, crypt);
            && |a.slots| <= NET_MAXAUTHCONN && a.tokens <= NET_AUTH_BUCKETSIZE && ListOk(a.privs)
            && forall s <- a.slots :: SlotOk(s, crypt)
  {
    RunKeeps(NEW_AUTH, events, crypt);
  }

  /** At most five login attempts and one for every second, at any point of any run. */
  lemma AttemptsOfRun(before: seq<Event>, events: seq<Event>, crypt: Crypt)
    ensures Attempts(Run(NEW_AUTH, before, crypt), events, crypt) <= NET_AUTH_BUCKETSIZE + Ticks(events)
  {
    RunKeeps(NEW_AUTH, before, crypt);
    RateBound(Run(NEW_AUTH, before, crypt), events, crypt);
  }

  /** What the option auth_hash was set to last. */
  function HashInForce(events: seq<Event>): Option<string> {
    if events == [] then None
    else if events[|events| - 1].EvHash? then Some(events[|events| - 1].hash)
    else HashInForce(events[..|events| - 1])
  }

  lemma {:induction false} HashIs(events: seq<Event>, crypt: Crypt)
    ensures Run(NEW_AUTH, events, crypt).hash == HashInForce(events)
    decreases |events|
  {
    if events != [] {
      var n := |events| - 1;
      SplitAt(events, n);
      assert events[n..] == [events[n]];
      HashIs(events[..n], crypt);
      RunSnoc(NEW_AUTH, events[..n], events[n], crypt);
    }
  }

  /** The n-th event verified the login of this connection: what it had sent by then has a
      first line that matches the hash in force. */
  ghost predicate VerifiedAt(events: seq<Event>, crypt: Crypt, n: nat, fd: int, address: string, got: string, hash: string) {
    && n < |events| && events[n].EvLook? && HashInForce(events[..n]) == Some(hash)
    && var b := Run(NEW_AUTH, events[..n], crypt);
       var i := FirstDue(b.slots, b.tokens);
       && i < |b.slots| && b.slots[i].status == Verify
       && b.slots[i].fd == fd && b.slots[i].address == address
       && b.slots[i].got <= got && '\n' in b.slots[i].got && crypt(Login(b.slots[i].got), hash)
  }

  ghost predicate WasVerified(events: seq<Event>, crypt: Crypt, fd: int, address: string, got: string, hash: string) {
    exists n :: VerifiedAt(events, crypt, n, fd, address, got, hash)
  }

  ghost predicate SlotVerified(events: seq<Event>, crypt: Crypt, s: Slot) {
    s.status == Correct ==> WasVerified(events, crypt, s.fd, s.address, s.got, s.hash)
  }

  /** Every correct slot, and the client, has been verified. */
  ghost predicate AllVerified(events: seq<Event>, crypt: Crypt, a: Auth) {
    && (forall s <- a.slots :: SlotVerified(events, crypt, s))
    && (a.client.Some? ==>
          var c := a.client.value; WasVerified(events, crypt, c.fd, c.address, c.got, c.hash))
  }

  lemma StillVerified(events: seq<Event>, e: Event, crypt: Crypt, fd: int, address: string, got: string, more: string, hash: string)
    requires WasVerified(events, crypt, fd, address, got, hash)
    ensures WasVerified(events + [e], crypt, fd, address, got + more, hash)
  {
    var n: nat :| VerifiedAt(events, crypt, n, fd, address, got, hash);
    assert (events + [e])[..n] == events[..n];
    assert VerifiedAt(events + [e], crypt, n, fd, address, got + more, hash);
  }

  lemma MoreEvents(events: seq<Event>, e: Event, crypt: Crypt, a: Auth)
    requires AllVerified(events, crypt, a)
    ensures AllVerified(events + [e], crypt, a)
  {
    forall s <- a.slots ensures SlotVerified(events + [e], crypt, s) {
      assert SlotVerified(events, crypt, s);
      if s.status == Correct {
        StillVerified(events, e, crypt, s.fd, s.address, s.got, "", s.hash);
        EmptyEnds(s.got);
      }
    }
    if a.client.Some? {
      var c := a.client.value;
      StillVerified(events, e, crypt, c.fd, c.address, c.got, "", c.hash);
      EmptyEnds(c.got);
    }
  }

  lemma RemoveVerified(events: seq<Event>, crypt: Crypt, slots: seq<Slot>, i: nat)
    requires i < |slots| && forall s <- slots :: SlotVerified(events, crypt, s)
    ensures forall s <- RemoveAt(slots, i) :: SlotVerified(events, crypt, s)
  {
  }

  lemma UpdateVerified(events: seq<Event>, crypt: Crypt, slots: seq<Slot>, i: nat, x: Slot)
    requires i < |slots| && (forall s <- slots :: SlotVerified(events, crypt, s)) && SlotVerified(events, crypt, x)
    ensures forall s <- slots[i := x] :: SlotVerified(events, crypt, s)
  {
  }

  /** wait_for_network verifies a login. */
  lemma LookVerifies(events: seq<Event>, crypt: Crypt, a: Auth)
    requires Ok(a, crypt) && a == Run(NEW_AUTH, events, crypt) && a.hash == HashInForce(events)
    requires AllVerified(events + [EvLook], crypt, a)
    ensures AllVerified(events + [EvLook], crypt, Look(a, crypt))
  {
    var all := events + [EvLook];
    var i := FirstDue(a.slots, a.tokens);
    if i < |a.slots| {
      assert SlotVerified(all, crypt, a.slots[i]);
      RemoveVerified(all, crypt, a.slots, i);
      if a.slots[i].status == Verify {
        Judges(events, crypt, a, i);
      }
    }
  }

  lemma Judges(events: seq<Event>, crypt: Crypt, a: Auth, i: nat)
    requires Ok(a, crypt) && a == Run(NEW_AUTH, events, crypt) && a.hash == HashInForce(events)
    requires i == FirstDue(a.slots, a.tokens) < |a.slots| && a.slots[i].status == Verify
    requires forall s <- a.slots :: SlotVerified(events + [EvLook], crypt, s)
    ensures forall s <- VerifySlot(a, i, crypt).slots :: SlotVerified(events + [EvLook], crypt, s)
  {
    var all, s := events + [EvLook], a.slots[i];
    assert SlotOk(s, crypt);
    RemoveVerified(all, crypt, a.slots, i);
    if a.hash.Some? && '\n' in s.data && Matches(a, Login(s.data), crypt) {
      JustVerified(events, crypt, a, i);
      UpdateVerified(all, crypt, a.slots, i, s.(status := Correct, data := AfterLogin(s.data), hash := a.hash.value));
    }
  }

  lemma JustVerified(events: seq<Event>, crypt: Crypt, a: Auth, i: nat)
    requires a == Run(NEW_AUTH, events, crypt) && a.hash == HashInForce(events) && a.hash.Some?
    requires i == FirstDue(a.slots, a.tokens) < |a.slots| && a.slots[i].status == Verify
    requires '\n' in a.slots[i].got && crypt(Login(a.slots[i].got), a.hash.value)
    ensures var s := a.slots[i];
            WasVerified(events + [EvLook], crypt, s.fd, s.address, s.got, a.hash.value)
  {
    var s := a.slots[i];
    assert (events + [EvLook])[..|events|] == events;
    assert VerifiedAt(events + [EvLook], crypt, |events|, s.fd, s.address, s.got, a.hash.value);
  }

  lemma StepVerified(events: seq<Event>, e: Event, crypt: Crypt, a: Auth)
    requires Ok(a, crypt) && a == Run(NEW_AUTH, events, crypt) && a.hash == HashInForce(events)
    requires AllVerified(events, crypt, a)
    ensures AllVerified(events + [e], crypt, Step(a, e, crypt))
  {
    var all := events + [e];
    MoreEvents(events, e, crypt, a);
    match e {
      case EvLook => LookVerifies(events, crypt, a);
      case EvAccept(fd, address) =>
        if |a.slots| == NET_MAXAUTHCONN {
          RemoveVerified(all, crypt, a.slots, Victim(a.slots));
        }
      case EvSlot(i, r) =>
        if i < |a.slots| {
          SlotReads(all, crypt, a, i, r);
        }
      case EvClient(r) => ClientReads(events, e, crypt, a, r);
      case _ =>
    }
  }

  lemma SlotReads(all: seq<Event>, crypt: Crypt, a: Auth, i: nat, r: ReadResult)
    requires i < |a.slots| && AllVerified(all, crypt, a)
    ensures AllVerified(all, crypt, ReadSlot(a, i, r))
  {
    RemoveVerified(all, crypt, a.slots, i);
    if a.slots[i].status == WaitNet && r.Bytes? {
      var d := Fitting(r.data, if |a.slots[i].data| < NET_MAXAUTHLEN then NET_MAXAUTHLEN - |a.slots[i].data| else 0);
      UpdateVerified(all, crypt, a.slots, i, AfterRead(a.slots[i], d));
    }
  }

  lemma ClientReads(events: seq<Event>, e: Event, crypt: Crypt, a: Auth, r: ReadResult)
    requires AllVerified(events, crypt, a) && AllVerified(events + [e], crypt, a)
    ensures AllVerified(events + [e], crypt, ReadClient(a, r))
  {
    if a.client.Some? && !r.Retry? {
      var n := |a.client.value.rest|;
      SendsVerified(events, e, crypt, a,
        if r.Bytes? then Fitting(r.data, if n < NET_BBUFFER_LEN then NET_BBUFFER_LEN - n else 0) else "");
    }
  }

  lemma SendsVerified(events: seq<Event>, e: Event, crypt: Crypt, a: Auth, d: string)
    requires a.client.Some? && AllVerified(events, crypt, a) && AllVerified(events + [e], crypt, a)
    ensures AllVerified(events + [e], crypt, ClientSends(a, d))
  {
    var c := a.client.value;
    StillVerified(events, e, crypt, c.fd, c.address, c.got, d, c.hash);
  }

  lemma {:induction false} RunVerified(events: seq<Event>, crypt: Crypt)
    ensures AllVerified(events, crypt, Run(NEW_AUTH, events, crypt))
    decreases |events|
  {
    if events != [] {
      var n := |events| - 1;
      SplitAt(events, n);
      assert events[n..] == [events[n]];
      RunVerified(events[..n], crypt);
      RunKeeps(NEW_AUTH, events[..n], crypt);
      HashIs(events[..n], crypt);
      RunSnoc(NEW_AUTH, events[..n], events[n], crypt);
      StepVerified(events[..n], events[n], crypt, Run(NEW_AUTH, events[..n], crypt));
    }
  }

  /** Whoever is the client has logged in: at some point of the run, its login was verified
      against the hash in force then, by what it had sent until then.  Nothing that it sent
      after its first line is lost: its lines and what is pending are those of everything
      after the first newline, no matter what of it came before the login was verified and
      in which pieces it was read. */
  lemma HandOver(events: seq<Event>, crypt: Crypt)
    ensures var a := Run(NEW_AUTH, events, crypt);
            a.client.Some? ==>
              var c := a.client.value;
              && '\n' in c.got && crypt(Login(c.got), c.hash)
              && WasVerified(events, crypt, c.fd, c.address, c.got, c.hash)
              && Feed(NOTHING, AfterLogin(c.got)) == Split(c.lines, c.rest)
  {
    RunKeeps(NEW_AUTH, events, crypt);
    RunVerified(events, crypt);
  }
}
