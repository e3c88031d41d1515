/** The list of privileged addresses (network.c: privileged_add, privileged_del,
    is_privileged): the addresses from which a client logged in last. */
module PrivilegedList {
  import opened Sequences
  import opened Lines

  const NET_MAX_PRIVADDRS: nat := 8

  predicate Unique(s: seq<string>) {
    forall i, j :: 0 <= i < j < |s| ==> s[i] != s[j]
  }

  predicate ListOk(s: seq<string>) {
    Unique(s) && |s| <= NET_MAX_PRIVADDRS
  }

  /** privileged_del: the first entry that is the address goes. */
  function Delete(s: seq<string>, addr: string): seq<string> {
    if s == [] then [] else if s[0] == addr then s[1..] else [s[0]] + Delete(s[1..], addr)
  }

  /** privileged_add. */
  function Add(s: seq<string>, addr: string): seq<string> {
    var t := Delete(s, addr);
    (if |t| >= NET_MAX_PRIVADDRS then t[1..] else t) + [addr]
  }

  function AddAll(s: seq<string>, addrs: seq<string>): seq<string>
    decreases addrs
  {
    if addrs == [] then s else AddAll(Add(s, addrs[0]), addrs[1..])
  }

  /** Each address once, at the place where it is last. */
  function Latest(s: seq<string>): seq<string> {
    if s == [] then [] else if s[0] in s[1..] then Latest(s[1..]) else [s[0]] + Latest(s[1..])
  }

  // ---------------------------------------------------------------------
  // The list is a true LRU list
  // ---------------------------------------------------------------------

  /** The named address goes and nothing else; the others keep their order. */
  lemma {:induction false} DeleteExact(s: seq<string>, addr: string)
    requires Unique(s)
    ensures var t := Delete(s, addr);
            Unique(t) && addr !in t && |t| == |s| - (if addr in s then 1 else 0) && Subseq(t, s)
    ensures forall a :: a in Delete(s, addr) <==> a in s && a != addr
  {
    if s != [] {
      var t := Delete(s[1..], addr);
      DeleteExact(s[1..], addr);
      SubseqSelf(s);
      if s[0] == addr {
        SubseqRemove(s, 0, s);
        assert s[1..] == RemoveAt(s, 0);
      } else {
        SubseqCons(t, s[1..], s[0]);
        assert [s[0]] + s[1..] == s;
        assert s[0] !in t;
        UniqueCons(s[0], t);
      }
    }
  }

  lemma UniqueCons(x: string, t: seq<string>)
    requires Unique(t) && x !in t
    ensures Unique([x] + t)
  {
    var u := [x] + t;
    forall i, j | 0 <= i < j < |u| ensures u[i] != u[j] {
      assert u[j] == t[j - 1] && (i > 0 ==> u[i] == t[i - 1]);
    }
  }

  lemma AddKeeps(s: seq<string>, addr: string)
    requires ListOk(s)
    ensures ListOk(Add(s, addr))
  {
    DeleteExact(s, addr);
  }

  lemma {:induction false} LatestSame(s: seq<string>, a: string)
    ensures a in Latest(s) <==> a in s
  {
    if s != [] {
      LatestSame(s[1..], a);
      assert s == [s[0]] + s[1..];
    }
  }

  lemma {:induction false} LatestUnique(s: seq<string>)
    ensures Unique(Latest(s))
  {
    if s != [] {
      LatestUnique(s[1..]);
      LatestSame(s[1..], s[0]);
    }
  }

  lemma {:induction false} LatestOfUnique(s: seq<string>)
    requires Unique(s)
    ensures Latest(s) == s
  {
    if s != [] {
      LatestOfUnique(s[1..]);
      assert s == [s[0]] + s[1..];
    }
  }

  lemma {:induction false} DeleteAbsent(s: seq<string>, addr: string)
    requires addr !in s
    ensures Delete(s, addr) == s
  {
    if s != [] {
      DeleteAbsent(s[1..], addr);
      assert s == [s[0]] + s[1..];
    }
  }

  /** A later occurrence replaces the earlier ones. */
  lemma {:induction false} LatestSnoc(s: seq<string>, addr: string)
    ensures Latest(s + [addr]) == Delete(Latest(s), addr) + [addr]
  {
    if s == [] {
      assert s + [addr] == [addr] && Latest([addr]) == [addr];
    } else {
      var t := s + [addr];
      assert t[1..] == s[1..] + [addr] && t[0] == s[0];
      LatestSnoc(s[1..], addr);
      if s[0] in s[1..] {
        assert t[0] in t[1..];
      } else if s[0] == addr {
        assert t[0] in t[1..] by { assert t[|s|] == addr; }
        LatestSame(s[1..], addr);
        DeleteAbsent(Latest(s[1..]), addr);
        assert Latest(s) == [addr] + Latest(s[1..]);
        assert Latest(s)[1..] == Latest(s[1..]);
      } else {
        assert t[0] !in t[1..];
        assert Latest(s) == [s[0]] + Latest(s[1..]);
        assert Latest(s)[1..] == Latest(s[1..]);
        Assoc([s[0]], Delete(Latest(s[1..]), addr), [addr]);
      }
    }
  }

  /** Deleting in the last part only. */
  lemma {:induction false} DeleteIn(a: seq<string>, b: seq<string>, addr: string)
    ensures Delete(a + b, addr) == if addr in a then Delete(a, addr) + b else a + Delete(b, addr)
  {
    if a == [] {
      assert a + b == b && a + Delete(b, addr) == Delete(b, addr);
    } else {
      assert (a + b)[1..] == a[1..] + b && (a + b)[0] == a[0];
      DeleteIn(a[1..], b, addr);
      assert a == [a[0]] + a[1..];
    }
  }

  /** Adding to the last eight gives the last eight. */
  lemma AddToLast(s: seq<string>, addr: string)
    requires Unique(s)
    ensures Add(LastN(s, NET_MAX_PRIVADDRS), addr) == LastN(Delete(s, addr) + [addr], NET_MAX_PRIVADDRS)
  {
    var q := LastN(s, NET_MAX_PRIVADDRS);
    var p := s[..|s| - |q|];
    SplitAt(s, |p|);
    DeleteIn(p, q, addr);
    if addr in p {
      var k :| 0 <= k < |p| && p[k] == addr;
      assert addr !in q by {
        forall i | 0 <= i < |q| ensures q[i] != addr {
          assert s[k] == addr && q[i] == s[|p| + i];
        }
      }
      DeleteAbsent(q, addr);
      AppendToLast(Delete(p, addr), q, q, addr);
    } else {
      DeleteLength(q, addr);
      AppendToLast(p, q, Delete(q, addr), addr);
    }
  }

  lemma {:induction false} DeleteLength(s: seq<string>, addr: string)
    ensures |s| - 1 <= |Delete(s, addr)| <= |s|
  {
    if s != [] {
      DeleteLength(s[1..], addr);
    }
  }

  lemma AppendToLast(p: seq<string>, q: seq<string>, t: seq<string>, addr: string)
    requires |q| - 1 <= |t| <= |q| <= NET_MAX_PRIVADDRS && (p != [] ==> |q| == NET_MAX_PRIVADDRS)
    ensures (if |t| >= NET_MAX_PRIVADDRS then t[1..] else t) + [addr] == LastN(p + t + [addr], NET_MAX_PRIVADDRS)
  {
  }

  /** From any list and after any additions, the list is the eight addresses that were added
      last, each once, in the order of their last addition. */
  lemma {:induction false} MostRecent(s: seq<string>, addrs: seq<string>)
    requires ListOk(s)
    ensures AddAll(s, addrs) == LastN(Latest(s + addrs), NET_MAX_PRIVADDRS)
    decreases |addrs|
  {
    if addrs == [] {
      assert s + addrs == s;
      LatestOfUnique(s);
    } else {
      var n := |addrs| - 1;
      MostRecent(s, addrs[..n]);
      assert s + addrs == s + addrs[..n] + [addrs[n]] && addrs == addrs[..n] + [addrs[n]];
      AddAllSnoc(s, addrs[..n], addrs[n]);
      LatestUnique(s + addrs[..n]);
      LatestSnoc(s + addrs[..n], addrs[n]);
      AddToLast(Latest(s + addrs[..n]), addrs[n]);
    }
  }

  lemma {:induction false} AddAllSnoc(s: seq<string>, addrs: seq<string>, addr: string)
    ensures AddAll(s, addrs + [addr]) == Add(AddAll(s, addrs), addr)
    decreases addrs
  {
    if addrs == [] {
      assert addrs + [addr] == [addr] && AddAll(Add(s, addr), []) == Add(s, addr);
    } else {
      assert (addrs + [addr])[1..] == addrs[1..] + [addr];
      AddAllSnoc(Add(s, addrs[0]), addrs[1..], addr);
    }
  }

  // ---------------------------------------------------------------------
  // On the list itself
  // ---------------------------------------------------------------------

  /** Where the deletion takes place. */
  lemma {:induction false} DeleteAt(s: seq<string>, addr: string, k: nat)
    requires k <= |s| && addr !in s[..k] && (k < |s| ==> s[k] == addr)
    ensures Delete(s, addr) == if k < |s| then s[..k] + s[k + 1..] else s
  {
    if k == |s| {
      assert s[..k] == s;
      DeleteAbsent(s, addr);
    } else if k > 0 {
      assert s[..k] == [s[0]] + s[1..][..k - 1];
      DeleteAt(s[1..], addr, k - 1);
      assert s[..k] + s[k + 1..] == [s[0]] + (s[1..][..k - 1] + s[1..][k..]);
    }
  }

  /** The walk along the list that privileged_del and is_privileged make: the first line
      with this address, or null. */
  method Find(q: Linequeue, addr: string) returns (line: Line?, ghost k: nat)
    requires q.Valid()
    ensures k <= |q.nodes| && addr !in Strings(q.contents)[..k]
    ensures line == if k < |q.nodes| then q.nodes[k] else null
    ensures k < |q.nodes| ==> q.contents[k].str == addr
  {
    line, k := q.head, 0;
    while line != null
      invariant k <= |q.nodes| && addr !in Strings(q.contents)[..k]
      invariant line == if k < |q.nodes| then q.nodes[k] else null
      decreases |q.nodes| - k
    {
      assert q.LinkedAt(k);
      if addr == line.data.str {
        return;
      }
      assert Strings(q.contents)[..k + 1] == Strings(q.contents)[..k] + [q.contents[k].str];
      line, k := line.next, k + 1;
    }
  }

  /** is_privileged. */
  method IsPrivileged(q: Linequeue, addr: string) returns (yes: bool)
    requires q.Valid()
    ensures yes <==> addr in Strings(q.contents)
  {
    var line, k := Find(q, addr);
    yes := line != null;
    if yes {
      assert Strings(q.contents)[k] == addr;
    } else {
      assert Strings(q.contents)[..k] == Strings(q.contents);
    }
  }

  /** privileged_del. */
  method PrivilegedDel(q: Linequeue, addr: string)
    requires q.Valid()
    modifies q, q.nodes
    ensures q.Valid() && Strings(q.contents) == Delete(old(Strings(q.contents)), addr)
    ensures forall i :: 0 <= i < |q.nodes| ==> q.nodes[i] in old(q.nodes)
  {
    var line, k := Find(q, addr);
    DeletesAt(q.contents, addr, k);
    if line != null {
      q.Remove(line, k);
    }
  }

  lemma DeletesAt(q: seq<LineData>, addr: string, k: nat)
    requires k <= |q| && addr !in Strings(q)[..k] && (k < |q| ==> q[k].str == addr)
    ensures Delete(Strings(q), addr) == if k < |q| then Strings(q[..k] + q[k + 1..]) else Strings(q)
  {
    DeleteAt(Strings(q), addr, k);
    if k < |q| {
      StringsSlices(q, k);
      StringsConcat(q[..k], q[k + 1..]);
    }
  }

  lemma StringsConcat(a: seq<LineData>, b: seq<LineData>)
    ensures Strings(a + b) == Strings(a) + Strings(b)
  {
  }

  lemma StringsSlices(q: seq<LineData>, k: nat)
    requires k < |q|
    ensures Strings(q[..k]) == Strings(q)[..k] && Strings(q[k + 1..]) == Strings(q)[k + 1..]
  {
  }

  /** privileged_add. */
  method PrivilegedAdd(q: Linequeue, addr: string, clock: Clock)
    requires q.Valid()
    modifies q, q.nodes
    ensures q.Valid() && Strings(q.contents) == Add(old(Strings(q.contents)), addr)
    ensures forall i :: 0 <= i < |q.nodes| ==> q.nodes[i] in old(q.nodes) || fresh(q.nodes[i])
  {
    PrivilegedDel(q, addr);
    ghost var t := Strings(q.contents);
    if q.count >= NET_MAX_PRIVADDRS {
      var oldest := q.Pop();
      assert Strings(q.contents) == t[1..];
    }
    var line := new Line(addr, clock, Copy);
    ghost var u := q.contents;
    q.Append(line);
    assert Strings(q.contents) == Strings(u) + [addr];
  }
}
