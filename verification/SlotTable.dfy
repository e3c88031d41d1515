/** The parallel arrays auth_status, auth_ispriv, auth_fd, auth_read, auth_buf and
    auth_address of a world (network.c), against the slots of `Auth`. */
module SlotTables {
  import opened Sequences
  import Text
  import Codec
  import opened Auth

  // ---------------------------------------------------------------------
  // Shifting one array
  // ---------------------------------------------------------------------

  /** After the entries from wa to k have been copied one down. */
  function ShiftedTo<T>(s: seq<T>, wa: nat, k: nat): seq<T>
    requires wa <= k < |s|
  {
    s[..wa] + s[wa + 1..k + 1] + s[k..]
  }

  /** Without entry wa of the first n, and with x in the place that is freed. */
  function Closed<T>(s: seq<T>, wa: nat, n: nat, x: T): seq<T>
    requires wa < n <= |s|
  {
    RemoveAt(s[..n], wa) + [x] + s[n..]
  }

  lemma ShiftNone<T>(s: seq<T>, wa: nat)
    requires wa < |s|
    ensures ShiftedTo(s, wa, wa) == s
  {
  }

  lemma ShiftOne<T>(s: seq<T>, wa: nat, k: nat)
    requires wa <= k < |s| - 1
    ensures var t := ShiftedTo(s, wa, k);
            |t| == |s| && t[k := t[k + 1]] == ShiftedTo(s, wa, k + 1)
  {
  }

  lemma ShiftEnd<T>(s: seq<T>, wa: nat, n: nat, x: T)
    requires wa < n <= |s|
    ensures ShiftedTo(s, wa, n - 1)[n - 1 := x] == Closed(s, wa, n, x)
  {
  }

  /** Where the entries of a closed array come from. */
  function Source(i: nat, wa: nat, n: nat): nat
    requires wa < n
  {
    if i < wa || i >= n then i else if i == n - 1 then wa else i + 1
  }

  lemma ClosedAt<T>(s: seq<T>, wa: nat, n: nat, x: T, i: nat)
    requires wa < n <= |s| && i < |s|
    ensures |Closed(s, wa, n, x)| == |s|
    ensures Closed(s, wa, n, x)[i] == if i == n - 1 then x else s[Source(i, wa, n)]
  {
  }

  lemma IsRemoval<T>(s: seq<T>, t: seq<T>, wa: nat)
    requires wa < |s| == |t| + 1
    requires forall i :: 0 <= i < |t| ==> t[i] == s[Source(i, wa, |s|)]
    ensures t == RemoveAt(s, wa)
  {
  }

  class SlotTable {
    var authConnections: nat
    const authStatus: array<Status>
    const authIspriv: array<bool>
    const authFd: array<int>
    const authRead: array<int>
    const authBuf: array<array<char>>
    const authAddress: array<string>

    ghost const pool: set<array<char>> // the eight buffers
    ghost const repr: set<object>
    ghost var got: seq<string>         // what has been read, slot by slot
    ghost var hashes: seq<string>

    ghost predicate Shape()
      reads this
    {
      && authStatus.Length == authIspriv.Length == authFd.Length == authRead.Length == NET_MAXAUTHCONN
      && authBuf.Length == authAddress.Length == NET_MAXAUTHCONN
      && authFd != authRead
      && authStatus in repr && authIspriv in repr && authFd in repr
      && authRead in repr && authBuf in repr && authAddress in repr
      && (forall b <- pool :: b in repr) && |pool| == NET_MAXAUTHCONN
      && authConnections <= NET_MAXAUTHCONN
      && |got| == |hashes| == NET_MAXAUTHCONN
    }

    /** The buffer of a slot; as long as the slot is not verified, the part that was not read
        yet is zero. */
    ghost predicate BufOk(i: int)
      requires Shape() && 0 <= i < NET_MAXAUTHCONN
      reads this, repr
    {
      && authBuf[i] in pool && authBuf[i].Length == NET_MAXAUTHLEN
      && 0 <= authRead[i] <= NET_MAXAUTHLEN
      && (i < authConnections && authStatus[i] != Correct ==>
            forall k :: authRead[i] <= k < NET_MAXAUTHLEN ==> authBuf[i][k] == '\0')
    }

    /** No two slots share a buffer. */
    ghost predicate Apart(i: int, j: int)
      requires Shape() && 0 <= i < NET_MAXAUTHCONN && 0 <= j < NET_MAXAUTHCONN
      reads this, repr
    {
      authBuf[i] != authBuf[j]
    }

    ghost predicate Valid()
      reads this, repr
    {
      && Shape()
      && (forall i :: 0 <= i < NET_MAXAUTHCONN ==> BufOk(i))
      && (forall i, j :: 0 <= i < NET_MAXAUTHCONN && 0 <= j < NET_MAXAUTHCONN && i != j ==> Apart(i, j))
    }

    ghost function SlotAt(i: int): Slot
      requires Shape() && 0 <= i < NET_MAXAUTHCONN && BufOk(i)
      reads this, repr
    {
      Slot(authFd[i], authAddress[i], authStatus[i], authIspriv[i], authBuf[i][..authRead[i]], got[i], hashes[i])
    }

    ghost function SlotsTo(n: nat): (s: seq<Slot>)
      requires Valid() && n <= NET_MAXAUTHCONN
      reads this, repr
      ensures |s| == n && forall i :: 0 <= i < n ==> s[i] == SlotAt(i)
    {
      if n == 0 then [] else SlotsTo(n - 1) + [SlotAt(n - 1)]
    }

    ghost function Slots(): (s: seq<Slot>)
      requires Valid()
      reads this, repr
      ensures |s| == authConnections
    {
      SlotsTo(authConnections)
    }

    /** The buffers of the slots are always the same eight, each in one place. */
    lemma BuffersPermuted()
      requires Valid()
      ensures multiset(authBuf[..]) == multiset(pool)
    {
      forall i | 0 <= i < NET_MAXAUTHCONN ensures authBuf[..][i] in pool {
        assert BufOk(i);
      }
      forall i, j | 0 <= i < j < NET_MAXAUTHCONN ensures authBuf[..][i] != authBuf[..][j] {
        assert Apart(i, j);
      }
      FillsSet(authBuf[..], pool);
    }

    /** The buffers of a new world. */
    static method NewBuffers() returns (buffers: array<array<char>>, ghost all: set<array<char>>)
      ensures buffers.Length == NET_MAXAUTHCONN && fresh(buffers) && fresh(all) && |all| == NET_MAXAUTHCONN
      ensures forall i :: 0 <= i < NET_MAXAUTHCONN ==> buffers[i] in all && buffers[i].Length == NET_MAXAUTHLEN
      ensures forall i, k :: 0 <= i < NET_MAXAUTHCONN && 0 <= k < NET_MAXAUTHLEN ==> buffers[i][k] == '\0'
      ensures forall i, j :: 0 <= i < NET_MAXAUTHCONN && 0 <= j < NET_MAXAUTHCONN && i != j ==> buffers[i] != buffers[j]
    {
      var first := new char[NET_MAXAUTHLEN](_ => '\0');
      buffers := new array<char>[NET_MAXAUTHCONN](_ => first);
      all := {first};
      var n := 1;
      while n < NET_MAXAUTHCONN
        invariant 1 <= n <= NET_MAXAUTHCONN && fresh(all) && fresh(buffers) && |all| == n
        invariant forall i :: 0 <= i < n ==> buffers[i] in all && buffers[i].Length == NET_MAXAUTHLEN
        invariant forall i, k :: 0 <= i < n && 0 <= k < NET_MAXAUTHLEN ==> buffers[i][k] == '\0'
        invariant forall i, j :: 0 <= i < n && 0 <= j < n && i != j ==> buffers[i] != buffers[j]
      {
        var b := new char[NET_MAXAUTHLEN](_ => '\0');
        buffers[n] := b;
        all := all + {b};
        n := n + 1;
      }
    }

    constructor ()
      ensures Valid() && Slots() == [] && fresh(repr)
    {
      var buf, all := NewBuffers();
      var status := new Status[NET_MAXAUTHCONN](_ => WaitNet);
      var ispriv := new bool[NET_MAXAUTHCONN](_ => false);
      var fds := new int[NET_MAXAUTHCONN](_ => -1);
      var read := new int[NET_MAXAUTHCONN](_ => 0);
      var address := new string[NET_MAXAUTHCONN](_ => "");
      authConnections := 0;
      authStatus, authIspriv, authFd, authRead, authBuf, authAddress := status, ispriv, fds, read, buf, address;
      pool := all;
      repr := (set b | b in all :: b as object) + {status as object, ispriv, fds, read, buf, address};
      got, hashes := seq(NET_MAXAUTHCONN, _ => ""), seq(NET_MAXAUTHCONN, _ => "");
    }

    // ---------------------------------------------------------------------
    // remove_auth_connection
    // ---------------------------------------------------------------------

    /** One turn of the loop that shifts the arrays. */
    method ShiftSlot(i: nat)
      requires Shape() && i < NET_MAXAUTHCONN - 1
      modifies authStatus, authIspriv, authFd, authRead, authBuf, authAddress
      ensures authFd[..] == old(authFd[..])[i := old(authFd[i + 1])]
      ensures authRead[..] == old(authRead[..])[i := old(authRead[i + 1])]
      ensures authBuf[..] == old(authBuf[..])[i := old(authBuf[i + 1])]
      ensures authAddress[..] == old(authAddress[..])[i := old(authAddress[i + 1])]
      ensures authStatus[..] == old(authStatus[..])[i := old(authStatus[i + 1])]
      ensures authIspriv[..] == old(authIspriv[..])[i := old(authIspriv[i + 1])]
    {
      authFd[i] := authFd[i + 1];
      authRead[i] := authRead[i + 1];
      authBuf[i] := authBuf[i + 1];
      authAddress[i] := authAddress[i + 1];
      authStatus[i] := authStatus[i + 1];
      authIspriv[i] := authIspriv[i + 1];
    }

    /** Shift the later part of the arrays. */
    method ShiftDown(wa: nat)
      requires Shape() && wa < authConnections
      modifies authStatus, authIspriv, authFd, authRead, authBuf, authAddress
      ensures authFd[..] == ShiftedTo(old(authFd[..]), wa, authConnections - 1)
      ensures authRead[..] == ShiftedTo(old(authRead[..]), wa, authConnections - 1)
      ensures authBuf[..] == ShiftedTo(old(authBuf[..]), wa, authConnections - 1)
      ensures authAddress[..] == ShiftedTo(old(authAddress[..]), wa, authConnections - 1)
      ensures authStatus[..] == ShiftedTo(old(authStatus[..]), wa, authConnections - 1)
      ensures authIspriv[..] == ShiftedTo(old(authIspriv[..]), wa, authConnections - 1)
    {
      ghost var fds, read, buf := authFd[..], authRead[..], authBuf[..];
      ghost var address, status, ispriv := authAddress[..], authStatus[..], authIspriv[..];
      var i := wa;
      ShiftNone(fds, wa);
      ShiftNone(read, wa);
      ShiftNone(buf, wa);
      ShiftNone(address, wa);
      ShiftNone(status, wa);
      ShiftNone(ispriv, wa);
      while i < authConnections - 1
        invariant wa <= i < authConnections
        invariant authFd[..] == ShiftedTo(fds, wa, i) && authRead[..] == ShiftedTo(read, wa, i)
        invariant authBuf[..] == ShiftedTo(buf, wa, i) && authAddress[..] == ShiftedTo(address, wa, i)
        invariant authStatus[..] == ShiftedTo(status, wa, i) && authIspriv[..] == ShiftedTo(ispriv, wa, i)
      {
        ShiftOne(fds, wa, i);
        ShiftOne(read, wa, i);
        ShiftOne(buf, wa, i);
        ShiftOne(address, wa, i);
        ShiftOne(status, wa, i);
        ShiftOne(ispriv, wa, i);
        ShiftSlot(i);
        i := i + 1;
      }
    }

    /** The removal in all arrays. */
    method RemoveEntries(wa: nat)
      requires Shape() && wa < authConnections
      modifies this`authConnections, authStatus, authIspriv, authFd, authRead, authBuf, authAddress
      ensures authConnections == old(authConnections) - 1
      ensures authFd[..] == Closed(old(authFd[..]), wa, old(authConnections), -1)
      ensures authRead[..] == Closed(old(authRead[..]), wa, old(authConnections), 0)
      ensures authBuf[..] == Closed(old(authBuf[..]), wa, old(authConnections), old(authBuf[wa]))
      ensures authAddress[..] == Closed(old(authAddress[..]), wa, old(authConnections), "")
      ensures authStatus[..] == Closed(old(authStatus[..]), wa, old(authConnections), WaitNet)
      ensures authIspriv[..] == Closed(old(authIspriv[..]), wa, old(authConnections), false)
    {
      // The slot that becomes free at the end gets this buffer.
      var buf := authBuf[wa];
      ShiftDown(wa);
      ghost var n := authConnections;
      ShiftEnd(old(authFd[..]), wa, n, -1);
      ShiftEnd(old(authRead[..]), wa, n, 0);
      ShiftEnd(old(authBuf[..]), wa, n, buf);
      ShiftEnd(old(authAddress[..]), wa, n, "");
      ShiftEnd(old(authStatus[..]), wa, n, WaitNet);
      ShiftEnd(old(authIspriv[..]), wa, n, false);
      authConnections := authConnections - 1;
      ResetEntry(authConnections, buf);
    }

    method ResetEntry(i: nat, buf: array<char>)
      requires Shape() && i < NET_MAXAUTHCONN
      modifies authStatus, authIspriv, authFd, authRead, authBuf, authAddress
      ensures authFd[..] == old(authFd[..])[i := -1]
      ensures authRead[..] == old(authRead[..])[i := 0]
      ensures authBuf[..] == old(authBuf[..])[i := buf]
      ensures authAddress[..] == old(authAddress[..])[i := ""]
      ensures authStatus[..] == old(authStatus[..])[i := WaitNet]
      ensures authIspriv[..] == old(authIspriv[..])[i := false]
    {
      authRead[i] := 0;
      authFd[i] := -1;
      authBuf[i] := buf;
      authAddress[i] := "";
      authStatus[i] := WaitNet;
      authIspriv[i] := false;
    }

    /** The entries after the removal, one by one. */
    method RemoveRaw(wa: nat)
      requires Valid() && wa < authConnections
      modifies this, authStatus, authIspriv, authFd, authRead, authBuf, authAddress
      ensures Shape() && authConnections == old(authConnections) - 1
      ensures forall i :: 0 <= i < NET_MAXAUTHCONN ==> Moved(i, Source(i, wa, old(authConnections)))
      ensures forall i :: 0 <= i < authConnections ==> Same(i, Source(i, wa, old(authConnections)))
    {
      ghost var n := authConnections;
      RemoveEntries(wa);
      got, hashes := Closed(got, wa, n, ""), Closed(hashes, wa, n, "");
      forall i | 0 <= i < NET_MAXAUTHCONN ensures Moved(i, Source(i, wa, n)) {
        ClosedAt(old(authRead[..]), wa, n, 0, i);
        ClosedAt(old(authBuf[..]), wa, n, old(authBuf[wa]), i);
        assert authBuf[i] == authBuf[..][i] && authRead[i] == authRead[..][i];
      }
      forall i | 0 <= i < authConnections ensures Same(i, Source(i, wa, n)) {
        ClosedAt(old(authRead[..]), wa, n, 0, i);
        ClosedAt(old(authStatus[..]), wa, n, WaitNet, i);
        ClosedAt(old(authFd[..]), wa, n, -1, i);
        ClosedAt(old(authAddress[..]), wa, n, "", i);
        ClosedAt(old(authIspriv[..]), wa, n, false, i);
        ClosedAt(old(got), wa, n, "", i);
        ClosedAt(old(hashes), wa, n, "", i);
        assert authStatus[i] == authStatus[..][i] && authRead[i] == authRead[..][i] && authFd[i] == authFd[..][i];
        assert authAddress[i] == authAddress[..][i] && authIspriv[i] == authIspriv[..][i];
      }
    }

    /** Entry i has the buffer that entry j had. */
    twostate predicate Moved(i: int, j: int)
      requires 0 <= i < authBuf.Length && 0 <= j < authBuf.Length && i < authRead.Length && j < authRead.Length
      reads authBuf, authRead
    {
      authBuf[i] == old(authBuf[j]) && (authRead[i] == old(authRead[j]) || authRead[i] == 0)
    }

    /** Entry i is what entry j was. */
    twostate predicate Same(i: int, j: int)
      requires old(Shape()) && Shape() && 0 <= i < NET_MAXAUTHCONN && 0 <= j < NET_MAXAUTHCONN
      reads this, authStatus, authIspriv, authFd, authRead, authAddress
    {
      && authFd[i] == old(authFd[j]) && authRead[i] == old(authRead[j]) && authAddress[i] == old(authAddress[j])
      && authStatus[i] == old(authStatus[j]) && authIspriv[i] == old(authIspriv[j])
      && got[i] == old(got[j]) && hashes[i] == old(hashes[j])
    }

    /** After the removal the buffers are still in order. */
    twostate lemma BuffersMoved(wa: nat)
      requires old(Valid()) && Shape() && wa < old(authConnections) == authConnections + 1 && unchanged(pool)
      requires forall i :: 0 <= i < NET_MAXAUTHCONN ==> Moved(i, Source(i, wa, old(authConnections)))
      requires forall i :: 0 <= i < authConnections ==> Same(i, Source(i, wa, old(authConnections)))
      ensures Valid()
    {
      var n := old(authConnections);
      forall i | 0 <= i < NET_MAXAUTHCONN ensures BufOk(i) {
        assert Moved(i, Source(i, wa, n)) && old(BufOk(Source(i, wa, n)));
        assert i < n - 1 ==> Same(i, Source(i, wa, n));
      }
      forall i, j | 0 <= i < NET_MAXAUTHCONN && 0 <= j < NET_MAXAUTHCONN && i != j ensures Apart(i, j) {
        assert Moved(i, Source(i, wa, n)) && Moved(j, Source(j, wa, n));
        assert old(Apart(Source(i, wa, n), Source(j, wa, n)));
      }
    }

    /** And the slots are the others, each with all its fields. */
    twostate lemma SlotsMoved(wa: nat)
      requires old(Valid()) && Valid() && wa < old(authConnections) == authConnections + 1 && unchanged(pool)
      requires forall i :: 0 <= i < NET_MAXAUTHCONN ==> Moved(i, Source(i, wa, old(authConnections)))
      requires forall i :: 0 <= i < authConnections ==> Same(i, Source(i, wa, old(authConnections)))
      ensures Slots() == RemoveAt(old(Slots()), wa)
    {
      var n := old(authConnections);
      var was, now := old(Slots()), Slots();
      forall i | 0 <= i < n - 1 ensures now[i] == was[Source(i, wa, n)] {
        assert Moved(i, Source(i, wa, n)) && Same(i, Source(i, wa, n));
        assert BufOk(i) && old(BufOk(Source(i, wa, n)));
      }
      IsRemoval(was, now, wa);
    }

    /** remove_auth_connection. */
    method Remove(wa: nat)
      requires Valid() && wa < authConnections
      modifies this, authStatus, authIspriv, authFd, authRead, authBuf, authAddress
      ensures Valid() && Slots() == RemoveAt(old(Slots()), wa)
    {
      RemoveRaw(wa);
      BuffersMoved(wa);
      SlotsMoved(wa);
    }

    // ---------------------------------------------------------------------
    // handle_listen_fd
    // ---------------------------------------------------------------------

    /** The number of privileged connections. */
    method CountPrivileged() returns (privcount: nat)
      requires Valid()
      ensures privcount == PrivCount(Slots())
    {
      privcount := 0;
      var i := 0;
      assert Slots()[0..] == Slots();
      while i < authConnections
        invariant i <= authConnections && privcount + PrivCount(Slots()[i..]) == PrivCount(Slots())
      {
        assert Slots()[i..] == [SlotAt(i)] + Slots()[i + 1..];
        if authIspriv[i] {
          privcount := privcount + 1;
        }
        i := i + 1;
      }
    }

    /** The oldest connection that is not privileged. */
    method FindPlain() returns (remove: nat)
      requires Valid()
      ensures remove == if FirstPlain(Slots()) < |Slots()| then FirstPlain(Slots()) else 0
    {
      remove := 0;
      var i := 0;
      assert Slots()[0..] == Slots();
      while i < authConnections
        invariant i <= authConnections && remove == 0 && FirstPlain(Slots()) == i + FirstPlain(Slots()[i..])
      {
        assert Slots()[i..] == [SlotAt(i)] + Slots()[i + 1..];
        if !authIspriv[i] {
          remove := i;
          break;
        }
        i := i + 1;
      }
    }

    /** If all slots are full, one is kicked out. */
    method Evict()
      requires Valid()
      modifies this, authStatus, authIspriv, authFd, authRead, authBuf, authAddress
      ensures Valid() && Slots() == MakeRoom(old(Slots()))
    {
      if authConnections == NET_MAXAUTHCONN {
        var remove := ChooseVictim();
        Remove(remove);
      }
    }

    /** If there are many privileged connections the oldest of all, otherwise the oldest of
        the others. */
    method ChooseVictim() returns (remove: nat)
      requires Valid() && authConnections == NET_MAXAUTHCONN
      ensures remove == Victim(Slots())
    {
      remove := 0;
      var privcount := CountPrivileged();
      if privcount <= NET_AUTH_PRIVRES {
        remove := FindPlain();
      }
    }

    /** memset to zero. */
    static method ZeroBuffer(buf: array<char>)
      modifies buf
      ensures forall k :: 0 <= k < buf.Length ==> buf[k] == '\0'
    {
      forall k | 0 <= k < buf.Length {
        buf[k] := '\0';
      }
    }

    /** The fields of the next available slot. */
    method InitEntry(i: nat, newfd: int, address: string, priv: bool)
      requires Shape() && i < NET_MAXAUTHCONN
      modifies authStatus, authIspriv, authFd, authRead, authAddress
      ensures authFd[..] == old(authFd[..])[i := newfd]
      ensures authRead[..] == old(authRead[..])[i := 0]
      ensures authAddress[..] == old(authAddress[..])[i := address]
      ensures authStatus[..] == old(authStatus[..])[i := WaitNet]
      ensures authIspriv[..] == old(authIspriv[..])[i := priv]
    {
      authFd[i] := newfd;
      authStatus[i] := WaitNet;
      authRead[i] := 0;
      authAddress[i] := address;
      authIspriv[i] := priv;
    }

    /** Entry j has not changed. */
    twostate predicate Unchanged(j: int)
      requires old(Shape()) && Shape() && 0 <= j < NET_MAXAUTHCONN
      reads this, repr, authBuf[j]
    {
      Same(j, j) && authBuf[j] == old(authBuf[j]) && authBuf[j][..] == old(authBuf[j][..])
    }

    /** If one entry changes, the others are as they were. */
    twostate lemma OthersKept(i: nat)
      requires old(Valid()) && Shape() && i < NET_MAXAUTHCONN && old(authConnections) <= authConnections
      requires authConnections <= old(authConnections) + 1 && (authConnections > old(authConnections) ==> i == old(authConnections))
      requires forall j :: 0 <= j < NET_MAXAUTHCONN && j != i ==> Unchanged(j)
      requires authBuf[i] == old(authBuf[i]) && BufOk(i)
      ensures Valid()
      ensures i < authConnections ==>
                Slots() == (if authConnections == old(authConnections) then old(Slots())[i := SlotAt(i)]
                            else old(Slots()) + [SlotAt(i)])
    {
      forall j | 0 <= j < NET_MAXAUTHCONN ensures BufOk(j) {
        assert j != i ==> Unchanged(j) && old(BufOk(j));
      }
      forall j, k | 0 <= j < NET_MAXAUTHCONN && 0 <= k < NET_MAXAUTHCONN && j != k ensures Apart(j, k) {
        assert (j != i ==> Unchanged(j)) && (k != i ==> Unchanged(k)) && old(Apart(j, k));
      }
      forall j | 0 <= j < authConnections && j != i ensures SlotAt(j) == old(SlotAt(j)) {
        assert Unchanged(j);
      }
    }

    /** The next available slot is initialised. */
    method Append(newfd: int, address: string, priv: bool)
      requires Valid() && authConnections < NET_MAXAUTHCONN
      modifies this, repr
      ensures Valid()
      ensures Slots() == old(Slots()) + [Slot(newfd, address, WaitNet, priv, "", "", "")]
    {
      var i := authConnections;
      assert BufOk(i);
      authConnections := authConnections + 1;
      InitEntry(i, newfd, address, priv);
      got, hashes := got[i := ""], hashes[i := ""];
      ZeroBuffer(authBuf[i]);
      forall j | 0 <= j < NET_MAXAUTHCONN && j != i ensures Unchanged(j) {
        assert old(Apart(i, j)) && old(BufOk(j));
      }
      OthersKept(i);
    }

    /** A connection gets a slot. */
    method Accept(newfd: int, address: string, priv: bool)
      requires Valid()
      modifies this, repr
      ensures Valid()
      ensures Slots() == MakeRoom(old(Slots())) + [Slot(newfd, address, WaitNet, priv, "", "", "")]
    {
      Evict();
      Append(newfd, address, priv);
    }

    // ---------------------------------------------------------------------
    // handle_auth_fd
    // ---------------------------------------------------------------------

    /** The first newline among the last n bytes, or where they end. */
    static method FindNewlineIn(buf: array<char>, from: nat, n: nat) returns (i: nat)
      requires from + n <= buf.Length
      ensures from <= i <= from + n && '\n' !in buf[from..i]
      ensures i < from + n ==> buf[i] == '\n'
    {
      i := from;
      while i < from + n
        invariant from <= i <= from + n && '\n' !in buf[from..i]
      {
        if buf[i] == '\n' {
          break;
        }
        assert buf[from..i + 1] == buf[from..i] + [buf[i]];
        i := i + 1;
      }
    }

    /** read() into a buffer that is zero from there on. */
    static method FillBuffer(buf: array<char>, from: nat, data: string)
      requires from + |data| <= buf.Length && forall k :: from <= k < buf.Length ==> buf[k] == '\0'
      modifies buf
      ensures buf[..from + |data|] == old(buf[..from]) + data
      ensures forall k :: from + |data| <= k < buf.Length ==> buf[k] == '\0'
    {
      Codec.CopyIn(buf, from, data);
      forall k | from + |data| <= k < buf.Length ensures buf[k] == '\0' {
        assert buf[k] == buf[from + |data|..][k - from - |data|];
      }
    }

    /** What a read() that got data does to a slot. */
    method Receive(wa: nat, data: string)
      requires Valid() && wa < authConnections && authStatus[wa] == WaitNet
      requires 0 < |data| <= NET_MAXAUTHLEN - authRead[wa]
      modifies this`got, authRead, authBuf[wa]
      ensures Valid()
      ensures var s := old(Slots())[wa]; Slots() == old(Slots())[wa := s.(data := s.data + data, got := s.got + data)]
    {
      assert BufOk(wa);
      FillBuffer(authBuf[wa], authRead[wa], data);
      got := got[wa := got[wa] + data];
      authRead[wa] := authRead[wa] + |data|;
      forall j | 0 <= j < NET_MAXAUTHCONN && j != wa ensures Unchanged(j) {
        assert old(Apart(wa, j)) && old(BufOk(j));
      }
      OthersKept(wa);
    }

    /** The status after a read: once there is a newline or the buffer is full, the slot is
        to be verified. */
    method Judge(wa: nat, n: nat)
      requires Valid() && wa < authConnections && authStatus[wa] == WaitNet && n <= |Slots()[wa].data|
      modifies authStatus
      ensures Valid()
      ensures var s := old(Slots())[wa];
              var full := '\n' in s.data[|s.data| - n..] || |s.data| >= NET_MAXAUTHLEN;
              Slots() == old(Slots())[wa := s.(status := if full then Verify else WaitNet)]
    {
      assert BufOk(wa);
      var from := authRead[wa] - n;
      var i := FindNewlineIn(authBuf[wa], from, n);
      ghost var s := Slots()[wa];
      assert s.data[from..] == authBuf[wa][from..from + n];
      assert i < from + n ==> s.data[from..][i - from] == '\n';
      if i < authRead[wa] || i >= NET_MAXAUTHLEN {
        authStatus[wa] := Verify;
      }
      forall j | 0 <= j < NET_MAXAUTHCONN && j != wa ensures Unchanged(j) {
      }
      OthersKept(wa);
    }

    /** handle_auth_fd when read() has got something. */
    method ReadAuth(wa: nat, data: string)
      requires Valid() && wa < authConnections && authStatus[wa] == WaitNet
      requires 0 < |data| <= NET_MAXAUTHLEN - authRead[wa]
      modifies this, repr
      ensures Valid() && Slots() == old(Slots())[wa := AfterRead(old(Slots())[wa], data)]
    {
      assert BufOk(wa);
      ghost var s := Slots()[wa];
      Receive(wa, data);
      assert (s.data + data)[|s.data + data| - |data|..] == data;
      Judge(wa, |data|);
    }

    /** handle_auth_fd. */
    method Read(wa: nat, r: ReadResult)
      requires Valid() && wa < authConnections
      modifies this, repr
      ensures Valid() && Slots() == ReadIn(old(Slots()), wa, r)
    {
      assert BufOk(wa);
      if authStatus[wa] != WaitNet || r.Retry? {
        return;
      }
      var data := if r.Bytes? then FirstN(r.data, NET_MAXAUTHLEN - authRead[wa]) else "";
      if data == "" {
        Remove(wa);
      } else {
        ReadAuth(wa, data);
      }
    }

    // ---------------------------------------------------------------------
    // verify_authentication
    // ---------------------------------------------------------------------

    /** The first newline in a buffer that is zero from buflen on. */
    static method FindLogin(buffer: array<char>, buflen: nat) returns (alen: nat)
      requires buflen <= buffer.Length == NET_MAXAUTHLEN
      requires forall k :: buflen <= k < NET_MAXAUTHLEN ==> buffer[k] == '\0'
      ensures alen < NET_MAXAUTHLEN
      ensures buffer[alen] == '\n' <==> '\n' in buffer[..buflen]
      ensures buffer[alen] == '\n' ==> alen == LineEnd(buffer[..buflen]) && alen < buflen
    {
      var maxlen := buflen + 2;
      if maxlen > NET_MAXAUTHLEN {
        maxlen := NET_MAXAUTHLEN;
      }
      alen := 0;
      while alen < maxlen - 1
        invariant alen <= maxlen - 1 && '\n' !in buffer[..alen]
      {
        if buffer[alen] == '\n' {
          break;
        }
        assert buffer[..alen + 1] == buffer[..alen] + [buffer[alen]];
        alen := alen + 1;
      }
      if buffer[alen] == '\n' {
        assert buffer[..buflen][alen] == '\n' && buffer[..buflen][..alen] == buffer[..alen];
        LineEndIs(buffer[..buflen], alen);
      } else {
        forall k | 0 <= k < buflen ensures buffer[k] != '\n' {
          assert k < alen ==> buffer[k] == buffer[..alen][k];
        }
      }
    }

    /** The C string that is left when the newline and a \r before it become NULs. */
    static method CutLogin(buffer: array<char>, alen: nat, ghost data: string) returns (text: string)
      requires alen < |data| <= buffer.Length && data == buffer[..|data|] && alen == LineEnd(data)
      modifies buffer
      ensures text == Login(data)
      ensures buffer[alen + 1..] == old(buffer[alen + 1..])
    {
      buffer[alen] := '\0';
      if alen > 0 && buffer[alen - 1] == '\r' {
        buffer[alen - 1] := '\0';
      }
      text := Text.CString(buffer[..]);
      assert data[..alen] == old(buffer[..alen]);
      if alen > 0 && data[alen - 1] == '\r' {
        assert buffer[..alen - 1] == data[..alen][..alen - 1];
        CStringEnds(buffer[..], alen - 1);
      } else {
        assert buffer[..alen] == data[..alen];
        CStringEnds(buffer[..], alen);
      }
    }

    /** The login of a slot, taken from its buffer. */
    method TakeLogin(wa: nat, alen: nat) returns (text: string)
      requires Valid() && wa < authConnections && authStatus[wa] == Verify
      requires alen == LineEnd(Slots()[wa].data) < |Slots()[wa].data|
      modifies authBuf[wa]
      ensures Valid() && text == Login(old(Slots())[wa].data)
      ensures |Slots()| == old(|Slots()|) && |Slots()[wa].data| == |old(Slots())[wa].data|
      ensures Slots()[wa].data[alen + 1..] == old(Slots())[wa].data[alen + 1..]
      ensures Slots() == old(Slots())[wa := Slots()[wa]]
      ensures Slots()[wa] == old(Slots())[wa].(data := Slots()[wa].data)
    {
      ghost var data := Slots()[wa].data;
      assert BufOk(wa) && data == authBuf[wa][..authRead[wa]];
      text := CutLogin(authBuf[wa], alen, data);
      TailKept(old(authBuf[wa][..]), authBuf[wa][..], alen + 1, authRead[wa]);
      forall j | 0 <= j < NET_MAXAUTHCONN && j != wa ensures Unchanged(j) {
        assert old(Apart(wa, j)) && old(BufOk(j));
      }
      OthersKept(wa);
    }

    /** The login of a slot, if there is a newline in its buffer. */
    method ExtractLogin(wa: nat) returns (found: bool, alen: nat, text: string)
      requires Valid() && wa < authConnections && authStatus[wa] == Verify
      modifies authBuf[wa]
      ensures Valid() && |Slots()| == old(|Slots()|) && (found <==> '\n' in old(Slots())[wa].data)
      ensures !found ==> Slots() == old(Slots())
      ensures Slots() == old(Slots())[wa := Slots()[wa]]
      ensures Slots()[wa] == old(Slots())[wa].(data := Slots()[wa].data)
      ensures var s := old(Slots())[wa];
              found ==> text == Login(s.data) && alen < |Slots()[wa].data|
                        && Slots()[wa].data[alen + 1..] == AfterLogin(s.data)
    {
      assert BufOk(wa);
      text := "";
      alen := FindLogin(authBuf[wa], authRead[wa]);
      found := authBuf[wa][alen] == '\n';
      if found {
        text := TakeLogin(wa, alen);
      }
    }

    /** What follows the login goes to the front of the buffer. */
    method KeepRest(wa: nat, alen: nat, ghost hash: string)
      requires Valid() && wa < authConnections && alen < |Slots()[wa].data|
      modifies this`hashes, authRead, authStatus, authBuf[wa]
      ensures Valid()
      ensures var s := old(Slots())[wa];
              Slots() == old(Slots())[wa := s.(status := Correct, data := s.data[alen + 1..], hash := hash)]
    {
      assert BufOk(wa);
      var buflen := authRead[wa];
      Codec.MoveToFront(authBuf[wa], alen + 1, buflen - (alen + 1));
      authRead[wa] := buflen - (alen + 1);
      authStatus[wa] := Correct;
      hashes := hashes[wa := hash];
      forall j | 0 <= j < NET_MAXAUTHCONN && j != wa ensures Unchanged(j) {
        assert old(Apart(wa, j)) && old(BufOk(j));
      }
      OthersKept(wa);
    }

    /** The scan at the start of wait_for_network. */
    method FindDue(tokens: nat) returns (i: nat)
      requires Valid()
      ensures i == FirstDue(Slots(), tokens)
    {
      i := 0;
      assert Slots()[0..] == Slots();
      while i < authConnections
        invariant i <= authConnections && FirstDue(Slots(), tokens) == i + FirstDue(Slots()[i..], tokens)
      {
        assert Slots()[i..] == [SlotAt(i)] + Slots()[i + 1..];
        if authStatus[i] == Correct || (authStatus[i] == Verify && (tokens > 0 || authIspriv[i])) {
          return;
        }
        i := i + 1;
      }
    }
  }

  lemma TailKept(a: string, b: string, from: nat, to: nat)
    requires from <= to <= |a| == |b| && a[from..] == b[from..]
    ensures a[from..to] == b[from..to] && a[..to][from..] == a[from..to]
    ensures forall k :: from <= k < |a| ==> a[k] == b[k]
  {
    assert a[from..][..to - from] == a[from..to] && b[from..][..to - from] == b[from..to];
    forall k | from <= k < |a| ensures a[k] == b[k] {
      assert a[k] == a[from..][k - from] && b[k] == b[from..][k - from];
    }
  }

  /** A C string ends at the first NUL. */
  lemma {:induction false} CStringEnds(s: string, n: nat)
    requires n < |s| && s[n] == '\0'
    ensures Text.CString(s) == Text.CString(s[..n])
  {
    if n > 0 && s[0] != '\0' {
      CStringEnds(s[1..], n - 1);
      assert s[..n][1..] == s[1..][..n - 1];
    }
  }
}
