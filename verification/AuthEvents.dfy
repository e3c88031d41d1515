/** What the events do to the slots, and where the slots of a run come from (network.c:
    handle_listen_fd, handle_auth_fd, handle_client_fd, world_auth_add_bucket). */
module AuthEvents {
  import opened Sequences
  import opened Codec
  import PrivilegedList
  import opened Auth
  import opened AuthTheorems

  // ---------------------------------------------------------------------
  // What is read
  // ---------------------------------------------------------------------

  /** The part of what is offered that fits. */
  predicate TakenOf(d: string, offered: string, room: int) {
    d <= offered && |d| == if |offered| <= room then |offered| else room
  }

  /** A connection that has not logged in adds what fits to what it has sent; it is to be
      verified once it has sent a newline or filled its buffer.  If it is gone, so is its slot.
      Once it is to be verified nothing is read from it, and the other slots are as before. */
  lemma SlotHeard(a: Auth, i: nat, r: ReadResult, crypt: Crypt)
    requires Ok(a, crypt) && i < |a.slots|
    ensures var b, s := Step(a, EvSlot(i, r), crypt), a.slots[i];
            && (s.status != WaitNet || r.Retry? ==> b == a)
            && (s.status == WaitNet && (r.Broken? || (r.Bytes? && r.data == "")) ==>
                  b == a.(slots := RemoveAt(a.slots, i)))
            && (s.status == WaitNet && r.Bytes? && r.data != "" ==>
                  exists d :: TakenOf(d, r.data, NET_MAXAUTHLEN - |s.got|) && HasSent(a, b, i, d))
  {
    var s := a.slots[i];
    assert SlotOk(s, crypt);
    if s.status == WaitNet && r.Bytes? && r.data != "" {
      var d := Fitting(r.data, NET_MAXAUTHLEN - |s.data|);
      assert TakenOf(d, r.data, NET_MAXAUTHLEN - |s.got|);
      assert HasSent(a, Step(a, EvSlot(i, r), crypt), i, d);
    }
  }

  predicate HasSent(a: Auth, b: Auth, i: nat, d: string)
    requires i < |a.slots|
  {
    var s := a.slots[i];
    var verify := '\n' in d || |s.got| + |d| == NET_MAXAUTHLEN;
    b == a.(slots := a.slots[i := s.(data := s.got + d, got := s.got + d, status := if verify then Verify else WaitNet)])
  }

  /** The client adds what fits to what it has sent. */
  lemma ClientHeard(a: Auth, r: ReadResult, crypt: Crypt)
    requires Ok(a, crypt) && a.client.Some?
    ensures var b, c := Step(a, EvClient(r), crypt), a.client.value;
            && (r.Retry? ==> b == a)
            && (r.Broken? || (r.Bytes? && r.data == "") ==> b == a.(client := None))
            && (r.Bytes? && r.data != "" ==>
                  b.client.Some? && exists d :: TakenOf(d, r.data, NET_BBUFFER_LEN - |c.rest|)
                                                && b.client.value.got == c.got + d)
  {
    var c := a.client.value;
    if r.Bytes? && r.data != "" {
      var d := Fitting(r.data, NET_BBUFFER_LEN - |c.rest|);
      assert TakenOf(d, r.data, NET_BBUFFER_LEN - |c.rest|);
    }
  }

  // ---------------------------------------------------------------------
  // Where the slots come from
  // ---------------------------------------------------------------------

  /** At event n the connection was accepted, and it is privileged exactly if its address was
      privileged then. */
  ghost predicate ArrivedAt(events: seq<Event>, crypt: Crypt, n: nat, s: Slot) {
    && n < |events| && events[n] == EvAccept(s.fd, s.address)
    && (s.priv <==> s.address in Run(NEW_AUTH, events[..n], crypt).privs)
  }

  ghost predicate Arrived(events: seq<Event>, crypt: Crypt, s: Slot) {
    exists n :: ArrivedAt(events, crypt, n, s)
  }

  lemma StillArrived(events: seq<Event>, e: Event, crypt: Crypt, s: Slot, s': Slot)
    requires Arrived(events, crypt, s) && s'.fd == s.fd && s'.address == s.address && s'.priv == s.priv
    ensures Arrived(events + [e], crypt, s')
  {
    var n: nat :| ArrivedAt(events, crypt, n, s);
    TakeTake(events + [e], |events|, n);
    assert (events + [e])[..|events|] == events;
    assert ArrivedAt(events + [e], crypt, n, s');
  }

  /** All slots but the one that a connection has just got are those of other connections. */
  lemma SlotsFrom(a: Auth, e: Event, crypt: Crypt, s': Slot)
    requires s' in Step(a, e, crypt).slots
    ensures (exists s <- a.slots :: s'.fd == s.fd && s'.address == s.address && s'.priv == s.priv)
         || (e.EvAccept? && s' == NewSlot(e.fd, e.address, a.privs))
  {
    match e {
      case EvAccept(fd, address) =>
        assert s' in MakeRoom(a.slots) || s' == NewSlot(fd, address, a.privs);
        assert forall s <- MakeRoom(a.slots) :: s in a.slots;
      case EvSlot(i, r) =>
        if i < |a.slots| { UpdatedFrom(a.slots, i, ReadSlot(a, i, r).slots, s'); }
      case EvLook =>
        var i := FirstDue(a.slots, a.tokens);
        if i < |a.slots| { UpdatedFrom(a.slots, i, Look(a, crypt).slots, s'); }
      case _ =>
    }
  }

  lemma UpdatedFrom(slots: seq<Slot>, i: nat, slots': seq<Slot>, s': Slot)
    requires i < |slots| && s' in slots'
    requires slots' == slots || slots' == RemoveAt(slots, i)
             || (|slots'| == |slots| && slots' == slots[i := slots'[i]] && slots'[i].fd == slots[i].fd
                 && slots'[i].address == slots[i].address && slots'[i].priv == slots[i].priv)
    ensures exists s <- slots :: s'.fd == s.fd && s'.address == s.address && s'.priv == s.priv
  {
    if s' in slots {
    } else {
      assert s' == slots'[i];
      assert slots[i] in slots;
    }
  }

  /** At any point of any run: every slot is that of a connection that was accepted, and it is
      privileged exactly if its address was when it was accepted. */
  lemma {:induction false} SlotsArrived(events: seq<Event>, crypt: Crypt)
    ensures forall s <- Run(NEW_AUTH, events, crypt).slots :: Arrived(events, crypt, s)
    decreases |events|
  {
    if events != [] {
      var n := |events| - 1;
      var init, e := events[..n], events[n];
      assert events == init + [e];
      SlotsArrived(init, crypt);
      RunSnoc(NEW_AUTH, init, e, crypt);
      var a := Run(NEW_AUTH, init, crypt);
      forall s' <- Run(NEW_AUTH, events, crypt).slots ensures Arrived(events, crypt, s') {
        SlotsFrom(a, e, crypt, s');
        if s :| s in a.slots && s'.fd == s.fd && s'.address == s.address && s'.priv == s.priv {
          StillArrived(init, e, crypt, s, s');
        } else {
          assert ArrivedAt(events, crypt, n, s');
        }
      }
    }
  }

  /** The list of privileged addresses changes when a connection becomes the client, which adds its
      address, and when a privileged one fails to log in while there is a hash, which takes its
      address away; never otherwise. */
  lemma PrivilegesChange(a: Auth, e: Event, crypt: Crypt)
    requires Ok(a, crypt)
    ensures var b, i := Step(a, e, crypt), FirstDue(a.slots, a.tokens);
            var looks := e.EvLook? && i < |a.slots|;
            && (looks && a.client.None? && a.slots[i].status == Correct ==>
                  b.client.Some? && b.privs == PrivilegedList.Add(a.privs, a.slots[i].address))
            && (looks && a.slots[i].status == Verify && a.slots[i].priv && a.hash.Some? && |b.slots| < |a.slots| ==>
                  b.privs == PrivilegedList.Delete(a.privs, a.slots[i].address))
            && (b.privs != a.privs ==>
                  looks && |b.slots| < |a.slots|
                  && (a.slots[i].status == Correct || (a.slots[i].priv && a.hash.Some?)))
  {
  }

  /** A client that is to be disconnected is, once. */
  lemma QuitGoes(a: Auth, crypt: Crypt)
    ensures var b := Run(a, [EvQuit, EvFlags], crypt); b == a.(client := None, quit := false)
    ensures !a.quit ==> Run(a, [EvFlags], crypt) == a
  {
    assert [EvQuit, EvFlags][1..] == [EvFlags] && [EvFlags][1..] == [];
  }

  // ---------------------------------------------------------------------
  // Tokens
  // ---------------------------------------------------------------------

  /** Whoever is verified, it takes a token if there is one, and nothing else does. */
  lemma TokenTaken(a: Auth, e: Event, crypt: Crypt)
    ensures var i := FirstDue(a.slots, a.tokens);
            var verifies := e.EvLook? && i < |a.slots| && a.slots[i].status == Verify && a.hash.Some?;
            && (verifies ==> Step(a, e, crypt).tokens == if a.tokens > 0 then a.tokens - 1 else 0)
            && (!verifies && !e.EvTick? ==> Step(a, e, crypt).tokens == a.tokens)
  {
  }

  /** After n seconds there are at least n tokens again, up to five. */
  lemma {:induction false} Refilled(a: Auth, n: nat, crypt: Crypt)
    requires a.tokens <= NET_AUTH_BUCKETSIZE
    ensures var b := Run(a, seq(n, _ => EvTick), crypt);
            b == a.(tokens := if a.tokens + n > 5 then 5 else a.tokens + n)
    decreases n
  {
    var events := seq(n, _ => EvTick);
    if n > 0 {
      assert events[1..] == seq(n - 1, _ => EvTick);
      Refilled(Step(a, EvTick, crypt), n - 1, crypt);
    }
  }
}
