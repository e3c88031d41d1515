/** Facts about sequences. */
module Sequences {
  lemma Assoc<T>(a: seq<T>, b: seq<T>, c: seq<T>)
    ensures a + b + c == a + (b + c)
  {
  }

  lemma SplitAt<T>(s: seq<T>, k: nat)
    requires k <= |s|
    ensures s == s[..k] + s[k..]
  {
  }

  lemma SliceSplit<T>(s: seq<T>, a: nat, b: nat)
    requires a <= b <= |s|
    ensures s[..b] == s[..a] + s[a..b]
  {
  }

  lemma ConcatStep<T>(a: seq<T>, b: seq<T>)
    requires a != []
    ensures (a + b)[0] == a[0] && (a + b)[1..] == a[1..] + b
  {
  }

  lemma TakeTake<T>(s: seq<T>, n: nat, k: nat)
    requires k <= n <= |s|
    ensures s[..n][..k] == s[..k]
  {
  }

  lemma SliceToEnd<T>(s: seq<T>, a: nat)
    requires a <= |s|
    ensures s[a..|s|] == s[a..]
  {
  }

  lemma DropDrop<T>(s: seq<T>, a: nat, b: nat)
    requires a + b <= |s|
    ensures s[a..][b..] == s[a + b..]
  {
  }

  lemma SliceSlice<T>(s: seq<T>, a: nat, b: nat, i: nat, j: nat)
    requires a <= b <= |s| && i <= j <= b - a
    ensures s[a..b][i..j] == s[a + i..a + j]
  {
    var x, y := s[a..b][i..j], s[a + i..a + j];
    assert |x| == |y| && forall k :: 0 <= k < |x| ==> x[k] == y[k];
  }

  lemma HeadTail<T>(s: seq<T>)
    requires s != []
    ensures s == [s[0]] + s[1..] && s[0] in s
  {
  }

  lemma EmptyEnds<T>(s: seq<T>)
    ensures [] + s == s && s + [] == s
  {
  }

  /** The last n elements, or all of them. */
  function LastN<T>(s: seq<T>, n: nat): seq<T> {
    if |s| <= n then s else s[|s| - n..]
  }

  function FirstN<T>(s: seq<T>, n: nat): seq<T> {
    if |s| <= n then s else s[..n]
  }

  /** `a` is what is left of `b` when some elements are taken out. */
  predicate Subseq<T(==)>(a: seq<T>, b: seq<T>)
    decreases b
  {
    || a == []
    || (&& b != []
        && var i, j := |a| - 1, |b| - 1;
           (a[i] == b[j] && Subseq(a[..i], b[..j])) || Subseq(a, b[..j]))
  }

  lemma {:induction false} SubseqSelf<T>(a: seq<T>)
    ensures Subseq(a, a)
  {
    if a != [] {
      SubseqSelf(a[..|a| - 1]);
    }
  }

  lemma {:induction false} SubseqInit<T>(a: seq<T>, b: seq<T>)
    requires a != [] && Subseq(a, b)
    ensures Subseq(a[..|a| - 1], b)
    decreases b
  {
    var j := |b| - 1;
    if !(a[|a| - 1] == b[j] && Subseq(a[..|a| - 1], b[..j])) {
      SubseqInit(a, b[..j]);
    }
  }

  lemma {:induction false} SubseqPrefix<T>(a: seq<T>, k: nat, b: seq<T>)
    requires k <= |a| && Subseq(a, b)
    ensures Subseq(a[..k], b)
    decreases |a| - k
  {
    if k == |a| {
      assert a[..k] == a;
    } else {
      SubseqPrefix(a, k + 1, b);
      SubseqInit(a[..k + 1], b);
      assert a[..k + 1][..k] == a[..k];
    }
  }

  lemma SubseqSnoc<T>(a: seq<T>, b: seq<T>, x: T)
    requires Subseq(a, b)
    ensures Subseq(a + [x], b + [x])
  {
    assert (a + [x])[..|a|] == a && (b + [x])[..|b|] == b;
  }

  lemma {:induction false} SubseqCons<T>(a: seq<T>, b: seq<T>, x: T)
    requires Subseq(a, b)
    ensures Subseq(a, [x] + b) && Subseq([x] + a, [x] + b)
    decreases b
  {
    if b == [] {
      SubseqSelf([x]);
      EmptyEnds([x]);
    } else {
      var i, j := |a| - 1, |b| - 1;
      assert ([x] + b)[..j + 1] == [x] + b[..j];
      if a == [] {
        SubseqCons([], b[..j], x);
        EmptyEnds([x]);
      } else if a[i] == b[j] && Subseq(a[..i], b[..j]) {
        SubseqCons(a[..i], b[..j], x);
        assert ([x] + a)[..i + 1] == [x] + a[..i];
      } else {
        SubseqCons(a, b[..j], x);
      }
    }
  }

  /** Those elements that are kept, in order, each as often as it is there. */
  ghost predicate IsFilter<T(!new)>(a: seq<T>, b: seq<T>, keep: T -> bool) {
    Subseq(a, b) && forall x :: multiset(a)[x] == if keep(x) then multiset(b)[x] else 0
  }

  lemma FilterNone<T(!new)>(keep: T -> bool)
    ensures IsFilter([], [], keep)
  {
  }

  lemma FilterStep<T(!new)>(a: seq<T>, b: seq<T>, keep: T -> bool)
    requires b != [] && IsFilter(a, b[1..], keep)
    ensures IsFilter((if keep(b[0]) then [b[0]] else []) + a, b, keep)
  {
    HeadTail(b);
    SubseqCons(a, b[1..], b[0]);
    EmptyEnds(a);
  }

  /** As many distinct elements as a set has, all from the set, are the set. */
  lemma {:induction false} FillsSet<T>(s: seq<T>, all: set<T>)
    requires |s| == |all| && (forall i :: 0 <= i < |s| ==> s[i] in all)
    requires forall i, j :: 0 <= i < j < |s| ==> s[i] != s[j]
    ensures multiset(s) == multiset(all)
  {
    if s == [] {
      assert all == {};
    } else {
      var n := |s| - 1;
      SplitAt(s, n);
      FillsSet(s[..n], all - {s[n]});
      assert s[n..] == [s[n]];
    }
  }

  function RemoveAt<T>(s: seq<T>, i: nat): seq<T>
    requires i < |s|
  {
    s[..i] + s[i + 1..]
  }

  lemma {:induction false} SubseqRemove<T>(a: seq<T>, k: nat, b: seq<T>)
    requires k < |a| && Subseq(a, b)
    ensures Subseq(RemoveAt(a, k), b)
    decreases b
  {
    var i, j := |a| - 1, |b| - 1;
    if k == i {
      SubseqInit(a, b);
      assert RemoveAt(a, k) == a[..i];
    } else if a[i] == b[j] && Subseq(a[..i], b[..j]) {
      SubseqRemove(a[..i], k, b[..j]);
      var r := RemoveAt(a, k);
      assert r[..|r| - 1] == RemoveAt(a[..i], k) && r[|r| - 1] == b[j];
    } else {
      SubseqRemove(a, k, b[..j]);
    }
  }
}
