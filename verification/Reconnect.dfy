/** When mooproxy tries the server again (world.c: world_schedule_reconnect,
    world_do_reconnect, world_decrease_reconnect_delay; timer.c). */
module Reconnect {
  const AUTORECONNECT_MAX_DELAY: nat := 1800
  const RAND_MAX: nat := 2147483647
  const CAP: nat := AUTORECONNECT_MAX_DELAY * 1000

  datatype ServerStatus = Disconnected | Resolving | Connecting | Connected | ReconnectWait

  /** AUTORECONNECT_BACKOFF_FACTOR is 1.5; the product is truncated. */
  function Grow(delay: nat, rand: nat): nat {
    var d := delay * 3 / 2 + 3000 + rand / (RAND_MAX / 4000);
    if d > CAP then CAP else d
  }

  function Ease(delay: nat): nat {
    if delay / 2 >= 1 then delay / 2 - 1 else 0
  }

  // ---------------------------------------------------------------------
  // The back-off
  // ---------------------------------------------------------------------

  datatype Change = Fail(rand: nat) | Minute

  function Apply(delay: nat, c: Change): nat {
    match c case Fail(rand) => Grow(delay, rand) case Minute => Ease(delay)
  }

  function Changes(delay: nat, cs: seq<Change>): nat
    decreases cs
  {
    if cs == [] then delay else Changes(Apply(delay, cs[0]), cs[1..])
  }

  function Fails(delay: nat, rands: seq<nat>): nat
    decreases rands
  {
    if rands == [] then delay else Fails(Grow(delay, rands[0]), rands[1..])
  }

  function Minutes(delay: nat, n: nat): nat {
    if n == 0 then delay else Minutes(Ease(delay), n - 1)
  }

  function Pow(b: nat, n: nat): nat {
    if n == 0 then 1 else b * Pow(b, n - 1)
  }

  /** Half an hour is the most, whatever happens. */
  lemma {:induction false} DelayBounded(delay: nat, cs: seq<Change>)
    requires delay <= CAP
    ensures Changes(delay, cs) <= CAP
    decreases cs
  {
    if cs != [] {
      DelayBounded(Apply(delay, cs[0]), cs[1..]);
    }
  }

  /** A failure makes the delay plus 5999 at least half as large again. */
  lemma GrowBy(delay: nat, rand: nat)
    ensures Grow(delay, rand) == CAP || 2 * (Grow(delay, rand) + 5999) >= 3 * (delay + 5999)
  {
  }

  lemma {:induction false} FailsAtCap(rands: seq<nat>)
    ensures Fails(CAP, rands) == CAP
    decreases rands
  {
    if rands != [] {
      FailsAtCap(rands[1..]);
    }
  }

  lemma Times(p: nat, a: nat, b: nat)
    requires a >= b
    ensures p * a >= p * b
  {
  }

  lemma {:induction false} BackoffGrows(delay: nat, rands: seq<nat>)
    ensures var d, n := Fails(delay, rands), |rands|;
            d == CAP || Pow(2, n) * (d + 5999) >= Pow(3, n) * (delay + 5999)
    decreases rands
  {
    if rands != [] {
      var n := |rands| - 1;
      var d1 := Grow(delay, rands[0]);
      var d := Fails(d1, rands[1..]);
      BackoffGrows(d1, rands[1..]);
      GrowBy(delay, rands[0]);
      if d1 == CAP {
        FailsAtCap(rands[1..]);
      } else if d != CAP {
        Times(Pow(3, n), 2 * (d1 + 5999), 3 * (delay + 5999));
        Regroup(Pow(2, n), d + 5999, 2);
        Regroup(Pow(3, n), d1 + 5999, 2);
        Regroup(Pow(3, n), delay + 5999, 3);
      }
    }
  }

  lemma Regroup(p: nat, a: nat, k: nat)
    ensures (k * p) * a == k * (p * a) == p * (k * a)
  {
  }

  /** After n failures in a row from no delay at all, the delay has at least reached
      5999 * (1.5 ** n - 1) or its maximum, in spite of all truncation. */
  lemma BackoffFromZero(rands: seq<nat>)
    ensures var d, n := Fails(0, rands), |rands|;
            d == CAP || Pow(2, n) * (d + 5999) >= Pow(3, n) * 5999
  {
    BackoffGrows(0, rands);
  }

  /** rand() returns no more than RAND_MAX, so that a failure makes the delay plus 14000 at most
      half as large again. */
  lemma GrowByAtMost(delay: nat, rand: nat)
    requires rand <= RAND_MAX
    ensures 2 * (Grow(delay, rand) + 14000) <= 3 * (delay + 14000)
  {
    assert RAND_MAX / 4000 == 536870;
    assert rand / 536870 <= 4000;
  }

  /** So n failures in a row make it at most 1.5 ** n as large. */
  lemma {:induction false} BackoffAtMost(delay: nat, rands: seq<nat>)
    requires forall r <- rands :: r <= RAND_MAX
    ensures var d, n := Fails(delay, rands), |rands|;
            Pow(2, n) * (d + 14000) <= Pow(3, n) * (delay + 14000)
    decreases rands
  {
    if rands != [] {
      var n := |rands| - 1;
      var d1 := Grow(delay, rands[0]);
      assert rands[0] in rands && forall r <- rands[1..] :: r in rands;
      BackoffAtMost(d1, rands[1..]);
      GrowByAtMost(delay, rands[0]);
      Times(Pow(3, n), 3 * (delay + 14000), 2 * (d1 + 14000));
      Regroup(Pow(2, n), Fails(d1, rands[1..]) + 14000, 2);
      Regroup(Pow(3, n), d1 + 14000, 2);
      Regroup(Pow(3, n), delay + 14000, 3);
    }
  }

  /** Fifteen failures in a row are enough to reach the maximum, from any delay. */
  lemma CapWithinFifteen(delay: nat, rands: seq<nat>)
    requires |rands| >= 15
    ensures Fails(delay, rands) == CAP
  {
    var first := rands[..15];
    BackoffGrows(delay, first);
    PowValues();
    BoundedFails(delay, first);
    FailsConcat(delay, first, rands[15..]);
    assert first + rands[15..] == rands;
    FailsAtCap(rands[15..]);
  }

  lemma PowValues()
    ensures Pow(2, 15) == 32768 && Pow(3, 15) == 14348907 && Pow(2, 20) == 1048576
  {
    assert Pow(2, 5) == 32 && Pow(3, 5) == 243;
    assert Pow(2, 10) == 1024 && Pow(3, 10) == 59049;
  }

  lemma {:induction false} BoundedFails(delay: nat, rands: seq<nat>)
    requires rands != []
    ensures Fails(delay, rands) <= CAP
    decreases rands
  {
    if |rands| > 1 {
      BoundedFails(Grow(delay, rands[0]), rands[1..]);
    } else {
      assert rands[1..] == [];
    }
  }

  lemma {:induction false} FailsConcat(delay: nat, a: seq<nat>, b: seq<nat>)
    ensures Fails(delay, a + b) == Fails(Fails(delay, a), b)
    decreases a
  {
    if a == [] {
      assert a + b == b;
    } else {
      assert (a + b)[1..] == a[1..] + b;
      FailsConcat(Grow(delay, a[0]), a[1..], b);
    }
  }

  lemma {:induction false} MinutesHalve(delay: nat, n: nat)
    ensures Minutes(delay, n) == 0 || Pow(2, n) * (Minutes(delay, n) + 2) <= delay + 2
    decreases n
  {
    if n > 0 {
      MinutesHalve(Ease(delay), n - 1);
      if Minutes(delay, n) != 0 {
        Regroup(Pow(2, n - 1), Minutes(delay, n) + 2, 2);
        MinutesAtZero(n - 1);
        assert Ease(delay) > 0;
      }
    }
  }

  /** Nor do n minutes take away more than that. */
  lemma {:induction false} MinutesAtLeast(delay: nat, n: nat)
    ensures Pow(2, n) * (Minutes(delay, n) + 3) >= delay + 3
    decreases n
  {
    if n > 0 {
      MinutesAtLeast(Ease(delay), n - 1);
      Regroup(Pow(2, n - 1), Minutes(delay, n) + 3, 2);
      assert 2 * (Ease(delay) + 3) >= delay + 3;
    }
  }

  lemma {:induction false} MinutesAtZero(n: nat)
    ensures Minutes(0, n) == 0
  {
    if n > 0 {
      MinutesAtZero(n - 1);
    }
  }

  /** Twenty minutes of being connected undo any delay. */
  lemma EasedWithinTwenty(delay: nat)
    requires delay <= CAP
    ensures Minutes(delay, 20) == 0
  {
    MinutesHalve(delay, 20);
    PowValues();
  }

  // ---------------------------------------------------------------------
  // The fields
  // ---------------------------------------------------------------------

  class Reconnector {
    var serverStatus: ServerStatus
    var reconnectEnabled: bool
    var reconnectDelay: int            // in milliseconds
    var reconnectAt: int
    var resolveFlag: bool              // WLD_SERVERRESOLVE is in flags

    ghost predicate Valid()
      reads this
    {
      0 <= reconnectDelay <= CAP
    }

    constructor ()
      ensures Valid() && reconnectDelay == 0
    {
      serverStatus, reconnectEnabled, reconnectDelay, reconnectAt, resolveFlag := Disconnected, false, 0, 0, false;
    }

    /** world_schedule_reconnect: the wait is the delay so far, to the nearest second. */
    method ScheduleReconnect(now: int, rand: nat)
      requires Valid()
      modifies this
      ensures Valid() && reconnectEnabled == old(reconnectEnabled)
      ensures old(serverStatus) == Disconnected && reconnectEnabled ==>
        && serverStatus == ReconnectWait && reconnectDelay == Grow(old(reconnectDelay), rand)
        && -500 <= 1000 * (reconnectAt - now) - old(reconnectDelay) <= 500
        && now <= reconnectAt <= now + AUTORECONNECT_MAX_DELAY
        && (resolveFlag <==> old(resolveFlag) || reconnectAt == now)
      ensures !(old(serverStatus) == Disconnected && reconnectEnabled) ==> unchanged(this)
    {
      var delay := (reconnectDelay + 500) / 1000;
      if serverStatus != Disconnected {
        return;
      }
      if !reconnectEnabled {
        return;
      }
      serverStatus := ReconnectWait;
      reconnectAt := now + delay;
      reconnectDelay := reconnectDelay * 3 / 2;
      reconnectDelay := reconnectDelay + 3000 + rand / (RAND_MAX / 4000);
      if reconnectDelay > CAP {
        reconnectDelay := CAP;
      }
      if delay == 0 {
        DoReconnect();
      }
    }

    /** world_do_reconnect. */
    method DoReconnect()
      modifies this`resolveFlag
      ensures resolveFlag == (old(resolveFlag) || serverStatus == ReconnectWait)
    {
      if serverStatus != ReconnectWait {
        return;
      }
      resolveFlag := true;
    }

    /** world_decrease_reconnect_delay. */
    method DecreaseReconnectDelay()
      requires Valid()
      modifies this`reconnectDelay
      ensures Valid() && reconnectDelay == Ease(old(reconnectDelay))
    {
      reconnectDelay := reconnectDelay / 2 - 1;
      if reconnectDelay < 0 {
        reconnectDelay := 0;
      }
    }

    /** The part of tick_second that concerns the server: a wait that is over ends. */
    method TickSecond(t: int)
      modifies this`resolveFlag
      ensures resolveFlag == (old(resolveFlag) || (serverStatus == ReconnectWait && reconnectAt <= t))
    {
      if serverStatus == ReconnectWait && reconnectAt <= t {
        DoReconnect();
      }
    }
  }
}
