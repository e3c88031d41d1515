/** Connections over whole passes of the main loop (network.c: wait_for_network;
    mooproxy.c: mainloop): a login that was verified is never lost. */
module AuthTurns {
  import opened Sequences
  import opened Codec
  import opened Auth
  import T = AuthTheorems

  /** A pass: what select() reports, unless wait_for_network returns before, and then the
      tick of the clock and what commands do. */
  datatype Turn = Turn(net: seq<Event>, rest: seq<Event>)

  predicate TurnOk(t: Turn) {
    && (forall e <- t.net :: e.EvAccept? || e.EvSlot? || e.EvClient?)
    && (forall e <- t.rest :: e.EvTick? || e.EvQuit? || e.EvHash?)
  }

  /** wait_for_network sees to the first slot that is due, and then to nothing else. */
  function NetEvents(a: Auth, t: Turn): seq<Event> {
    if FirstDue(a.slots, a.tokens) < |a.slots| then [EvLook] else t.net
  }

  function TurnEvents(a: Auth, t: Turn): seq<Event> {
    NetEvents(a, t) + t.rest + [EvFlags]
  }

  function DoTurn(a: Auth, t: Turn, crypt: Crypt): Auth {
    Run(a, TurnEvents(a, t), crypt)
  }

  function DoTurns(a: Auth, turns: seq<Turn>, crypt: Crypt): Auth
    decreases turns
  {
    if turns == [] then a else DoTurns(DoTurn(a, turns[0], crypt), turns[1..], crypt)
  }

  /** Between passes nothing is asked of handle_flags. */
  lemma {:induction false} TurnsKeep(a: Auth, turns: seq<Turn>, crypt: Crypt)
    requires Ok(a, crypt) && !a.quit
    ensures Ok(DoTurns(a, turns, crypt), crypt) && !DoTurns(a, turns, crypt).quit
    decreases turns
  {
    if turns != [] {
      var events := TurnEvents(a, turns[0]);
      var n := |events| - 1;
      RunKeeps(a, events, crypt);
      assert events == events[..n] + [EvFlags];
      T.RunSnoc(a, events[..n], EvFlags, crypt);
      TurnsKeep(DoTurn(a, turns[0], crypt), turns[1..], crypt);
    }
  }

  // ---------------------------------------------------------------------
  // What stands before a verified login
  // ---------------------------------------------------------------------

  /** The passes that a slot can take from one behind it. */
  function Delay(s: Slot): nat {
    match s.status
    case WaitNet => 0
    case Verify => 3
    case Correct => 2
  }

  function Delays(slots: seq<Slot>): nat {
    if slots == [] then 0 else Delay(slots[0]) + Delays(slots[1..])
  }

  /** The passes that the login in slot k has to wait at most. */
  function Patience(a: Auth, k: nat): nat
    requires k < |a.slots|
  {
    Delays(a.slots[..k]) + (if a.client.Some? then 1 else 0)
  }

  lemma {:induction false} DelaysConcat(a: seq<Slot>, b: seq<Slot>)
    ensures Delays(a + b) == Delays(a) + Delays(b)
  {
    if a == [] {
      EmptyEnds(b);
    } else {
      ConcatStep(a, b);
      DelaysConcat(a[1..], b);
    }
  }

  lemma DelaysSplit(slots: seq<Slot>, i: nat)
    requires i < |slots|
    ensures Delays(slots) == Delays(slots[..i]) + Delay(slots[i]) + Delays(slots[i + 1..])
  {
    SplitAt(slots, i);
    DelaysConcat(slots[..i], slots[i..]);
    assert slots[i..][1..] == slots[i + 1..];
  }

  lemma DelaysRemove(slots: seq<Slot>, i: nat, k: nat)
    requires i < k < |slots|
    ensures RemoveAt(slots, i)[k - 1] == slots[k]
    ensures Delays(RemoveAt(slots, i)[..k - 1]) + Delay(slots[i]) == Delays(slots[..k])
  {
    var front := slots[..k];
    DelaysSplit(front, i);
    DelaysConcat(front[..i], front[i + 1..]);
    assert front[..i] == slots[..i] && front[i + 1..] == slots[i + 1..][..k - 1 - i];
    assert RemoveAt(slots, i)[..k - 1] == slots[..i] + slots[i + 1..][..k - 1 - i];
  }

  lemma DelaysUpdate(slots: seq<Slot>, i: nat, x: Slot, k: nat)
    requires i < k < |slots|
    ensures Delays(slots[i := x][..k]) + Delay(slots[i]) == Delays(slots[..k]) + Delay(x)
  {
    var front := slots[..k];
    DelaysSplit(front, i);
    DelaysSplit(front[i := x], i);
    assert slots[i := x][..k] == front[i := x];
    assert front[i := x][..i] == front[..i] && front[i := x][i + 1..] == front[i + 1..];
  }

  lemma {:induction false} DelaysBound(slots: seq<Slot>)
    ensures Delays(slots) <= 3 * |slots|
  {
    if slots != [] {
      DelaysBound(slots[1..]);
    }
  }

  // ---------------------------------------------------------------------
  // One pass
  // ---------------------------------------------------------------------

  /** Ticks and commands leave the connections alone. */
  lemma {:induction false} RestKeeps(a: Auth, rest: seq<Event>, crypt: Crypt)
    requires forall e <- rest :: e.EvTick? || e.EvQuit? || e.EvHash?
    ensures var b := Run(a, rest, crypt); b.slots == a.slots && b.client == a.client && (a.quit ==> b.quit)
    decreases rest
  {
    if rest != [] {
      assert rest[0] in rest && forall e <- rest[1..] :: e in rest;
      RestKeeps(Step(a, rest[0], crypt), rest[1..], crypt);
    }
  }

  /** A pass in which some slot is due. */
  lemma LookTurn(a: Auth, t: Turn, crypt: Crypt)
    requires TurnOk(t) && FirstDue(a.slots, a.tokens) < |a.slots|
    ensures var b, c := Look(a, crypt), DoTurn(a, t, crypt);
            && c.slots == b.slots && !c.quit
            && (c.client == b.client || c.client.None?) && (b.quit ==> c.client.None?)
  {
    var b := Look(a, crypt);
    var events := [EvLook] + t.rest;
    T.RunSnoc(a, events, EvFlags, crypt);
    ConcatStep([EvLook], t.rest);
    assert [EvLook][1..] == [];
    EmptyEnds(t.rest);
    assert Run(a, events, crypt) == Run(b, t.rest, crypt);
    RestKeeps(b, t.rest, crypt);
  }

  /** A pass in which none is: whatever select() reports is seen to. */
  lemma QuietTurn(a: Auth, t: Turn, crypt: Crypt)
    requires FirstDue(a.slots, a.tokens) == |a.slots|
    ensures DoTurn(a, t, crypt) == Run(a, t.net + t.rest + [EvFlags], crypt)
  {
  }

  /** The slot is the next to be promoted. */
  predicate IsNext(a: Auth, k: nat) {
    a.client.None? && FirstDue(a.slots, a.tokens) == k
  }

  /** Where the login is after a pass that does not promote it: nearer to its turn. */
  lemma TurnBrings(a: Auth, k: nat, t: Turn, crypt: Crypt) returns (k': nat)
    requires TurnOk(t) && k < |a.slots| && a.slots[k].status == Correct && !a.quit && !IsNext(a, k)
    ensures var b := DoTurn(a, t, crypt);
            && k' < |b.slots| && b.slots[k'] == a.slots[k] && !b.quit
            && Patience(b, k') < Patience(a, k)
  {
    var i := FirstDue(a.slots, a.tokens);
    assert IsDue(a.slots[k], a.tokens);
    assert i <= k;
    LookTurn(a, t, crypt);
    k' := k;
    if a.slots[i].status == Correct && a.client.Some? {
      assert Look(a, crypt) == a.(quit := true);
    } else {
      assert i < k;
      k' := Overtaken(a, i, k, crypt);
    }
  }

  /** Another slot is seen to. */
  lemma Overtaken(a: Auth, i: nat, k: nat, crypt: Crypt) returns (k': nat)
    requires i == FirstDue(a.slots, a.tokens) < k < |a.slots|
    requires a.slots[i].status == Correct ==> a.client.None?
    ensures var slots := Look(a, crypt).slots;
            && k' < |slots| && slots[k'] == a.slots[k]
            && Delays(slots[..k']) + 1 + (if Look(a, crypt).client.Some? && a.client.None? then 1 else 0)
               <= Delays(a.slots[..k])
  {
    var slots := Look(a, crypt).slots;
    LookOutcome(a, crypt);
    if slots == RemoveAt(a.slots, i) {
      DelaysRemove(a.slots, i, k);
      k' := k - 1;
    } else {
      DelaysUpdate(a.slots, i, slots[i], k);
      k' := k;
    }
  }

  /** The slot that is seen to is gone, or it is correct now. */
  lemma LookOutcome(a: Auth, crypt: Crypt)
    requires FirstDue(a.slots, a.tokens) < |a.slots|
    requires a.slots[FirstDue(a.slots, a.tokens)].status == Correct ==> a.client.None?
    ensures var b, i := Look(a, crypt), FirstDue(a.slots, a.tokens);
            || (b.slots == RemoveAt(a.slots, i) && (b.client == a.client || a.slots[i].status == Correct))
            || (&& i < |b.slots| && b.slots == a.slots[i := b.slots[i]] && b.client == a.client
                && a.slots[i].status == Verify && b.slots[i].status == Correct)
  {
  }

  // ---------------------------------------------------------------------
  // Any passes
  // ---------------------------------------------------------------------

  lemma DoTurnsStep(a: Auth, turns: seq<Turn>, m: nat, crypt: Crypt)
    requires 0 < m <= |turns|
    ensures DoTurns(a, turns[..m], crypt) == DoTurns(DoTurn(a, turns[0], crypt), turns[1..][..m - 1], crypt)
  {
    assert turns[..m][1..] == turns[1..][..m - 1];
  }

  /** The pass number at which wait_for_network makes the login in slot k the client: its slot
      stays until then. */
  lemma {:induction false} Waits(a: Auth, k: nat, turns: seq<Turn>, crypt: Crypt) returns (n: nat)
    requires k < |a.slots| && a.slots[k].status == Correct && !a.quit
    requires (forall t <- turns :: TurnOk(t)) && |turns| >= Patience(a, k)
    ensures n <= Patience(a, k)
    ensures var b := DoTurns(a, turns[..n], crypt);
            exists j :: 0 <= j < |b.slots| && b.slots[j] == a.slots[k] && IsNext(b, j)
    ensures forall m :: 0 <= m <= n ==> a.slots[k] in DoTurns(a, turns[..m], crypt).slots
    decreases Patience(a, k)
  {
    if IsNext(a, k) {
      n := 0;
      assert turns[..0] == [];
    } else {
      assert IsDue(a.slots[k], a.tokens);
      NotNextWaits(a, k);
      var b := DoTurn(a, turns[0], crypt);
      var k' := TurnBrings(a, k, turns[0], crypt);
      n := Waits(b, k', turns[1..], crypt);
      forall m | 0 <= m <= n + 1 ensures a.slots[k] in DoTurns(a, turns[..m], crypt).slots {
        if m == 0 {
          assert turns[..0] == [];
        } else {
          DoTurnsStep(a, turns, m, crypt);
        }
      }
      DoTurnsStep(a, turns, n + 1, crypt);
      n := n + 1;
    }
  }

  /** A login that is not the next has something before it. */
  lemma NotNextWaits(a: Auth, k: nat)
    requires k < |a.slots| && a.slots[k].status == Correct && !IsNext(a, k)
    ensures Patience(a, k) > 0
  {
    var i := FirstDue(a.slots, a.tokens);
    assert IsDue(a.slots[k], a.tokens);
    if a.client.None? {
      assert i < k;
      DelaysSplit(a.slots[..k], i);
    }
  }

  /** A login that was verified becomes the client after at most 22 passes of the main loop,
      whatever connections and commands come in the meantime; until then it keeps its slot.
      What it becomes client with is all that it sent after the login. */
  lemma VerifiedLoginServed(before: seq<Turn>, k: nat, turns: seq<Turn>, crypt: Crypt) returns (n: nat)
    requires forall t <- turns :: TurnOk(t)
    requires var a := DoTurns(NEW_AUTH, before, crypt); k < |a.slots| && a.slots[k].status == Correct
    requires |turns| >= 22
    ensures var a := DoTurns(NEW_AUTH, before, crypt);
            var s := a.slots[k];
            && n <= 22
            && (forall m :: 0 <= m <= n ==> s in DoTurns(a, turns[..m], crypt).slots)
            && var c := Look(DoTurns(a, turns[..n], crypt), crypt).client;
               c == Some(Client(s.fd, s.address, Feed(NOTHING, s.data).lines, Feed(NOTHING, s.data).rest, s.got, s.hash))
  {
    var a := DoTurns(NEW_AUTH, before, crypt);
    TurnsKeep(NEW_AUTH, before, crypt);
    DelaysBound(a.slots[..k]);
    n := Waits(a, k, turns, crypt);
  }
}
