/** The matcher of /recall (recall.c: the rewriting of the search text, recall_match),
    and the regular expressions it stands for. */
module Matcher {
  import opened Sequences
  import opened Text

  // ---------------------------------------------------------------------
  // Pieces
  // ---------------------------------------------------------------------

  /** The search text, cut at each `.*`. */
  function Pieces(t: string): (ps: seq<string>)
    ensures ps != []
  {
    if t == "" then [""]
    else if |t| >= 2 && t[0] == '.' && t[1] == '*' then [""] + Pieces(t[2..])
    else var ps := Pieces(t[1..]); [[t[0]] + ps[0]] + ps[1..]
  }

  /** The matcher stops at the first empty piece. */
  function Live(ps: seq<string>): seq<string> {
    if ps == [] || ps[0] == "" then [] else [ps[0]] + Live(ps[1..])
  }

  /** The memory that holds the pieces: each ends with a NUL. */
  function Layout(ps: seq<string>): string {
    if ps == [] then "" else ps[0] + "\0" + Layout(ps[1..])
  }

  /** The same memory, produced left to right from the text. */
  function Prepared(t: string): string {
    if t == "" then "\0"
    else if |t| >= 2 && t[0] == '.' && t[1] == '*' then "\0" + Prepared(t[2..])
    else [t[0]] + Prepared(t[1..])
  }

  lemma LayoutCons(p: string, ps: seq<string>)
    ensures Layout([p] + ps) == p + "\0" + Layout(ps)
  {
    assert ([p] + ps)[1..] == ps;
  }

  lemma {:induction false} PreparedIsLayout(t: string)
    ensures Prepared(t) == Layout(Pieces(t))
  {
    if t == "" {
    } else if |t| >= 2 && t[0] == '.' && t[1] == '*' {
      PreparedIsLayout(t[2..]);
      LayoutCons("", Pieces(t[2..]));
      EmptyEnds("\0");
    } else {
      PreparedIsLayout(t[1..]);
      var ps := Pieces(t[1..]);
      LayoutCons([t[0]] + ps[0], ps[1..]);
      Assoc([t[0]], ps[0], "\0");
      Assoc([t[0]], ps[0] + "\0", Layout(ps[1..]));
    }
  }

  lemma {:induction false} PiecesPlain(t: string)
    requires IsCString(t)
    ensures forall p <- Pieces(t) :: IsCString(p)
  {
    if t == "" {
    } else if |t| >= 2 && t[0] == '.' && t[1] == '*' {
      PiecesPlain(t[2..]);
    } else {
      PiecesPlain(t[1..]);
      var ps := Pieces(t[1..]);
      assert t[0] in t && ps[0] in ps;
      forall p <- Pieces(t) ensures IsCString(p) {
        if p != [t[0]] + ps[0] {
          assert p in ps[1..];
        }
      }
    }
  }

  // ---------------------------------------------------------------------
  // The rewriting of the search text, in place
  // ---------------------------------------------------------------------

  predicate NoNul(a: array<char>, from: nat, end: nat)
    requires from <= end <= a.Length
    reads a
  {
    forall k :: from <= k < end ==> a[k] != '\0'
  }

  /** strlen. */
  method StrLen(a: array<char>, from: nat, ghost end: nat) returns (n: nat)
    requires from <= end < a.Length && a[end] == '\0' && NoNul(a, from, end)
    ensures from + n == end
  {
    n := 0;
    while a[from + n] != '\0'
      invariant from + n <= end
      decreases end - n
    {
      n := n + 1;
    }
  }

  method LowerInPlace(a: array<char>, ghost n: nat)
    requires n < a.Length && a[n] == '\0' && NoNul(a, 0, n)
    modifies a
    ensures a[..n] == LowerAll(old(a[..n])) && a[n] == '\0' && NoNul(a, 0, n)
  {
    var i := 0;
    LowerAllAt(a[..n]);
    while a[i] != '\0'
      invariant i <= n && a[n] == '\0'
      invariant forall k :: 0 <= k < i ==> a[k] == Lower(old(a[k])) && a[k] != '\0'
      invariant forall k :: i <= k < n ==> a[k] == old(a[k])
      decreases n - i
    {
      a[i] := Lower(a[i]);
      i := i + 1;
    }
    assert a[..n] == LowerAll(old(a[..n]));
  }

  /** A NUL over the `.`, and the rest of the text moves over the `*`. */
  method CutOne(a: array<char>, i: nat, ghost end: nat)
    requires 0 < i < end < a.Length && a[end] == '\0' && NoNul(a, i, end)
    modifies a
    ensures a[..i] == old(a[..i - 1]) + "\0"
    ensures a[i..end - 1] == old(a[i + 1..end]) && a[end - 1] == '\0' && NoNul(a, i, end - 1)
  {
    a[i - 1] := '\0';
    var len := StrLen(a, i, end);
    forall k | i <= k < i + len {
      a[k] := a[k + 1];
    }
  }

  lemma PreparedStep(done: string, rest: string)
    requires rest != ""
    ensures if |rest| >= 2 && rest[0] == '.' && rest[1] == '*'
            then done + Prepared(rest) == done + "\0" + Prepared(rest[2..])
            else done + Prepared(rest) == done + [rest[0]] + Prepared(rest[1..])
  {
    if |rest| >= 2 && rest[0] == '.' && rest[1] == '*' {
      Assoc(done, "\0", Prepared(rest[2..]));
    } else {
      Assoc(done, [rest[0]], Prepared(rest[1..]));
    }
  }

  /** One character of the cutting loop. */
  method CutStep(a: array<char>, i: nat, ghost end: nat) returns (i': nat, ghost end': nat)
    requires i < end < a.Length && a[end] == '\0' && NoNul(a, i, end)
    modifies a
    ensures i < i' <= end' <= end && a[end'] == '\0' && NoNul(a, i', end')
    ensures a[..i'] + Prepared(a[i'..end']) == old(a[..i]) + Prepared(old(a[i..end]))
  {
    ghost var done, rest := a[..i], a[i..end];
    PreparedStep(done, rest);
    end' := end;
    var c := a[i];
    i' := i + 1;
    assert a[..i'] == done + [c] && a[i'..end] == rest[1..];
    assert a[i'] == '*' ==> i' < end && rest[1] == a[i'];
    if c == '.' && a[i'] == '*' {
      CutOne(a, i', end);
      end' := end - 1;
      assert a[i'..end'] == rest[2..];
    } else {
      assert |rest| >= 2 ==> rest[1] == a[i'];
    }
  }

  /** Cut at each `.*`, and end with one NUL more. */
  method CutInPlace(a: array<char>, n: nat)
    requires a.Length == n + 2 && a[n] == '\0' && NoNul(a, 0, n)
    modifies a
    ensures var text := Prepared(old(a[..n])) + "\0"; |text| <= a.Length && a[..|text|] == text
  {
    var i := 0;
    ghost var end := n;
    ghost var goal := Prepared(a[..n]);
    while a[i] != '\0'
      invariant i <= end <= n && a[end] == '\0' && NoNul(a, i, end)
      invariant a[..i] + Prepared(a[i..end]) == goal
      decreases end - i
    {
      i, end := CutStep(a, i, end);
    }
    assert a[i..end] == "";
    assert a[..i + 1] == goal;
    i := i + 1;
    a[i] := '\0';
    assert a[..i] == goal;
    assert a[..i + 1] == a[..i] + "\0";
  }

  /** The search text, lowered and cut: the pieces, each with its NUL, and a last NUL. */
  method PrepareSearch(a: array<char>, n: nat)
    requires a.Length == n + 2 && a[n] == '\0' && NoNul(a, 0, n)
    modifies a
    ensures var text := Layout(Pieces(LowerAll(old(a[..n])))) + "\0";
            |text| <= a.Length && a[..|text|] == text
  {
    LowerInPlace(a, n);
    PreparedIsLayout(a[..n]);
    CutInPlace(a, n);
  }

  // ---------------------------------------------------------------------
  // recall_match
  // ---------------------------------------------------------------------

  /** A piece matches at an index: `.` is any character, the case of the line is ignored. */
  predicate PieceAt(p: string, s: string, i: nat) {
    && i + |p| <= |s|
    && forall k :: 0 <= k < |p| ==> p[k] == '.' || Lower(s[i + k]) == p[k]
  }

  /** The pieces are found in order, without overlap. */
  ghost predicate Finds(ps: seq<string>, s: string) {
    ps == [] || exists i: nat :: PieceAt(ps[0], s, i) && Finds(ps[1..], s[i + |ps[0]|..])
  }

  lemma {:induction false} FindsEarlier(ps: seq<string>, s: string, j: nat)
    requires j <= |s| && Finds(ps, s[j..])
    ensures Finds(ps, s)
  {
    if ps != [] {
      var i: nat :| PieceAt(ps[0], s[j..], i) && Finds(ps[1..], s[j..][i + |ps[0]|..]);
      assert PieceAt(ps[0], s, i + j);
      assert s[j..][i + |ps[0]|..] == s[i + j + |ps[0]|..];
    }
  }

  /** Taking the first match of a piece is as good as taking any other. */
  lemma GreedyTake(p: string, ps: seq<string>, s: string)
    requires PieceAt(p, s, 0)
    ensures Finds([p] + ps, s) <==> Finds(ps, s[|p|..])
  {
    assert ([p] + ps)[1..] == ps;
    if Finds([p] + ps, s) {
      var i: nat :| PieceAt(p, s, i) && Finds(ps, s[i + |p|..]);
      assert s[|p|..][i..] == s[i + |p|..];
      FindsEarlier(ps, s[|p|..], i);
    }
    if Finds(ps, s[|p|..]) {
      assert PieceAt(([p] + ps)[0], s, 0) && Finds(([p] + ps)[1..], s[0 + |p|..]);
    }
  }

  lemma GreedySkip(p: string, ps: seq<string>, s: string)
    requires s != "" && !PieceAt(p, s, 0)
    ensures Finds([p] + ps, s) <==> Finds([p] + ps, s[1..])
  {
    if Finds([p] + ps, s) {
      var i: nat :| PieceAt(p, s, i) && Finds(([p] + ps)[1..], s[i + |p|..]);
      assert PieceAt(p, s[1..], i - 1);
      assert s[1..][i - 1 + |p|..] == s[i + |p|..];
    }
    if Finds([p] + ps, s[1..]) {
      FindsEarlier([p] + ps, s, 1);
    }
  }

  /** The inner loop of recall_match: how far the piece agrees with the line. */
  method TryPiece(line: string, re: string, from: nat, piece: nat, ghost p: string)
    returns (l: nat, r: nat)
    requires IsCString(line) && IsCString(p)
    requires from <= |line| && piece + |p| < |re| && re[piece..piece + |p| + 1] == p + "\0"
    ensures l <= |line| && r < |re|
    ensures re[r] == '\0' <==> PieceAt(p, line, from)
    ensures re[r] == '\0' ==> r == piece + |p| && l == from + |p|
  {
    l, r := from, piece;
    assert forall k :: 0 <= k <= |p| ==> re[piece + k] == (p + "\0")[k];
    while (re[r] == '.' || Lower(At(line, l)) == re[r]) && At(line, l) != '\0'
      invariant r - piece == l - from && piece <= r <= piece + |p| && l <= |line|
      invariant forall k :: 0 <= k < r - piece ==> p[k] == '.' || Lower(line[from + k]) == p[k]
      decreases |line| - l
    {
      assert re[r] != '\0';
      l, r := l + 1, r + 1;
    }
    assert r < piece + |p| ==> p[r - piece] in p;
    if re[r] != '\0' {
      var k := r - piece;
      assert re[r] == p[k];
      if l < |line| {
        assert line[l] in line;
        assert !(p[k] == '.' || Lower(line[from + k]) == p[k]);
      }
    }
  }

  /** recall_match on prepared pieces. */
  method RecallMatch(line: string, re: string, ghost ps: seq<string>) returns (found: bool)
    requires IsCString(line) && (forall p <- ps :: IsCString(p))
    requires Layout(ps) + "\0" <= re
    ensures found <==> Finds(Live(ps), line)
  {
    var l: nat, r: nat := 0, 0;
    ghost var todo := ps;
    assert line[0..] == line && re[0..] == re;
    while re[r] != '\0' && At(line, l) != '\0'
      invariant l <= |line| && r < |re|
      invariant (forall p <- todo :: IsCString(p)) && Layout(todo) + "\0" <= re[r..]
      invariant Finds(Live(ps), line) <==> Finds(Live(todo), line[l..])
      decreases |re| - r, |line| - l
    {
      HeadPiece(todo, re, r);
      ghost var p := todo[0];
      var l', r' := TryPiece(line, re, l, r, p);
      assert PieceAt(p, line, l) <==> PieceAt(p, line[l..], 0);
      if re[r'] != '\0' {
        GreedySkip(p, Live(todo[1..]), line[l..]);
        DropDrop(line, l, 1);
        l := l + 1;
      } else {
        GreedyTake(p, Live(todo[1..]), line[l..]);
        DropDrop(line, l, |p|);
        r, l := r' + 1, l';
        todo := todo[1..];
      }
    }
    found := re[r] == '\0';
    assert re[r] == re[r..][0];
    if found {
      LiveAtEnd(todo, re, r);
    } else {
      HeadPiece(todo, re, r);
    }
  }

  /** Not at a NUL: a piece starts here. */
  lemma HeadPiece(todo: seq<string>, re: string, r: nat)
    requires r < |re| && Layout(todo) + "\0" <= re[r..] && re[r] != '\0'
    ensures todo != [] && todo[0] != "" && Live(todo) == [todo[0]] + Live(todo[1..])
    ensures r + |todo[0]| + 1 < |re|
    ensures re[r..r + |todo[0]| + 1] == todo[0] + "\0"
    ensures Layout(todo[1..]) + "\0" <= re[r + |todo[0]| + 1..]
  {
    assert re[r] == re[r..][0];
    assert todo != [];
    var a, b := todo[0] + "\0", Layout(todo[1..]) + "\0";
    assert Layout(todo) + "\0" == a + b;
    assert re[r..][..|a|] == a && re[r..][|a|..] == re[r + |a|..];
    assert re[r..][0] == a[0];
  }

  lemma FirstOfLayout(todo: seq<string>)
    requires todo != [] && todo[0] != "" && IsCString(todo[0])
    ensures (Layout(todo) + "\0")[0] != '\0'
  {
    assert todo[0][0] in todo[0];
  }

  lemma LiveAtEnd(todo: seq<string>, re: string, r: nat)
    requires r < |re| && Layout(todo) + "\0" <= re[r..] && re[r] == '\0'
    requires forall p <- todo :: IsCString(p)
    ensures Live(todo) == []
  {
    assert todo != [] ==> todo[0] in todo;
    if Live(todo) != [] {
      FirstOfLayout(todo);
    }
  }
}
