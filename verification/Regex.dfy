/** The small regular expressions of /recall (`.` any character, `.*` any run, letters in
    either case), and when the matcher agrees with them. */
module Regex {
  import opened Text
  import opened Matcher

  datatype Token = Literal(c: char) | AnyChar | AnyRun

  /** The search text read as a regular expression. */
  function Parse(t: string): seq<Token> {
    if t == "" then []
    else if |t| >= 2 && t[0] == '.' && t[1] == '*' then [AnyRun] + Parse(t[2..])
    else [if t[0] == '.' then AnyChar else Literal(t[0])] + Parse(t[1..])
  }

  predicate Same(token: Token, c: char) {
    token == AnyChar || (token.Literal? && SameLetter(token.c, c))
  }

  /** The whole of `s` is one instance of the expression. */
  ghost predicate Instance(re: seq<Token>, s: string) {
    if re == [] then s == ""
    else if re[0] == AnyRun then exists k: nat :: k <= |s| && Instance(re[1..], s[k..])
    else s != "" && Same(re[0], s[0]) && Instance(re[1..], s[1..])
  }

  /** An unanchored search. */
  ghost predicate Search(re: seq<Token>, s: string) {
    exists i: nat, j: nat :: i <= j <= |s| && Instance(re, s[i..j])
  }

  // ---------------------------------------------------------------------
  // A search in terms of pieces
  // ---------------------------------------------------------------------

  /** Some prefix of `s` is an instance. */
  ghost predicate Starts(re: seq<Token>, s: string) {
    if re == [] then true
    else if re[0] == AnyRun then exists k: nat :: k <= |s| && Starts(re[1..], s[k..])
    else s != "" && Same(re[0], s[0]) && Starts(re[1..], s[1..])
  }

  lemma {:induction false} InstanceStarts(re: seq<Token>, s: string, j: nat)
    requires j <= |s| && Instance(re, s[..j])
    ensures Starts(re, s)
  {
    if re == [] {
    } else if re[0] == AnyRun {
      var k: nat :| k <= j && Instance(re[1..], s[..j][k..]);
      assert s[..j][k..] == s[k..][..j - k];
      InstanceStarts(re[1..], s[k..], j - k);
    } else {
      assert s[..j][1..] == s[1..][..j - 1];
      InstanceStarts(re[1..], s[1..], j - 1);
    }
  }

  lemma {:induction false} StartsInstance(re: seq<Token>, s: string) returns (j: nat)
    requires Starts(re, s)
    ensures j <= |s| && Instance(re, s[..j])
  {
    if re == [] {
      j := 0;
    } else if re[0] == AnyRun {
      var k: nat :| k <= |s| && Starts(re[1..], s[k..]);
      var n := StartsInstance(re[1..], s[k..]);
      j := k + n;
      assert s[..j][k..] == s[k..][..n];
    } else {
      var n := StartsInstance(re[1..], s[1..]);
      j := n + 1;
      assert s[..j][1..] == s[1..][..n];
    }
  }

  /** The first piece matches right here, the others somewhere after it. */
  ghost predicate Anchored(ps: seq<string>, s: string)
    requires ps != []
  {
    PieceAt(ps[0], s, 0) && Finds(ps[1..], s[|ps[0]|..])
  }

  lemma FindsIsAnchored(ps: seq<string>, s: string)
    requires ps != []
    ensures Finds(ps, s) <==> exists i: nat :: i <= |s| && Anchored(ps, s[i..])
  {
    if Finds(ps, s) {
      var i: nat :| PieceAt(ps[0], s, i) && Finds(ps[1..], s[i + |ps[0]|..]);
      assert s[i..][|ps[0]|..] == s[i + |ps[0]|..];
      assert PieceAt(ps[0], s[i..], 0);
      assert Anchored(ps, s[i..]);
    }
    if i: nat :| i <= |s| && Anchored(ps, s[i..]) {
      assert s[i..][|ps[0]|..] == s[i + |ps[0]|..];
      assert PieceAt(ps[0], s, i);
    }
  }

  /** Matching the expression here is matching its first piece here and the rest later. */
  lemma {:induction false} StartsIsAnchored(t: string, s: string)
    ensures Starts(Parse(t), s) <==> Anchored(Pieces(LowerAll(t)), s)
    decreases |t|
  {
    var low := LowerAll(t);
    LowerAllAt(t);
    if t == "" {
    } else if |t| >= 2 && t[0] == '.' && t[1] == '*' {
      assert low[2..] == LowerAll(t[2..]);
      var ps := Pieces(low[2..]);
      assert ([""] + ps)[1..] == ps && ([AnyRun] + Parse(t[2..]))[1..] == Parse(t[2..]);
      FindsIsAnchored(ps, s);
      forall k: nat | k <= |s| {
        StartsIsAnchored(t[2..], s[k..]);
      }
      assert s[0..] == s;
    } else {
      assert low[1..] == LowerAll(t[1..]);
      assert low[0] == '.' <==> t[0] == '.';
      assert |t| >= 2 ==> (low[1] == '*' <==> t[1] == '*');
      AnchoredStep(low[0], Pieces(low[1..]), s);
      var token := if t[0] == '.' then AnyChar else Literal(t[0]);
      assert ([token] + Parse(t[1..]))[1..] == Parse(t[1..]);
      if s != "" {
        LowerSame(t[0], s[0]);
        StartsIsAnchored(t[1..], s[1..]);
      }
    }
  }

  lemma AnchoredStep(c: char, ps: seq<string>, s: string)
    requires ps != []
    ensures Anchored([[c] + ps[0]] + ps[1..], s)
        <==> s != "" && (c == '.' || Lower(s[0]) == c) && Anchored(ps, s[1..])
  {
    var p := [c] + ps[0];
    assert ([p] + ps[1..])[1..] == ps[1..];
    if s != "" && |p| <= |s| {
      assert s[1..][|ps[0]|..] == s[|p|..];
      assert forall k :: 1 <= k < |p| ==> p[k] == ps[0][k - 1] && s[k] == s[1..][k - 1];
      assert forall k :: 0 <= k < |ps[0]| ==> ps[0][k] == p[k + 1] && s[1..][k] == s[k + 1];
      if PieceAt(p, s, 0) {
        assert p[0] == c;
        assert PieceAt(ps[0], s[1..], 0);
      }
      if PieceAt(ps[0], s[1..], 0) && (c == '.' || Lower(s[0]) == c) {
        assert PieceAt(p, s, 0);
      }
    }
  }

  /** A search for the expression is a search for its pieces, for every text. */
  lemma SearchIsFinds(t: string, s: string)
    ensures Search(Parse(t), s) <==> Finds(Pieces(LowerAll(t)), s)
  {
    var re, ps := Parse(t), Pieces(LowerAll(t));
    FindsIsAnchored(ps, s);
    if Search(re, s) {
      var i: nat, j: nat :| i <= j <= |s| && Instance(re, s[i..j]);
      assert s[i..][..j - i] == s[i..j];
      InstanceStarts(re, s[i..], j - i);
      StartsIsAnchored(t, s[i..]);
    }
    if Finds(ps, s) {
      var i: nat :| i <= |s| && Anchored(ps, s[i..]);
      StartsIsAnchored(t, s[i..]);
      var n := StartsInstance(re, s[i..]);
      assert s[i..][..n] == s[i..i + n];
    }
  }

  // ---------------------------------------------------------------------
  // The matcher and the expression
  // ---------------------------------------------------------------------

  /** What recall_match answers for a search text (its method is proved to). */
  ghost predicate Matched(t: string, s: string) {
    Finds(Live(Pieces(LowerAll(t))), s)
  }

  /** No piece with text in it comes after an empty piece: no `.*` that leads or directly
      follows another is followed by anything else. */
  predicate Tidy(ps: seq<string>) {
    ps == [] || (if ps[0] == "" then (forall p <- ps :: p == "") else Tidy(ps[1..]))
  }

  lemma {:induction false} AllEmptyFound(ps: seq<string>, s: string)
    requires forall p <- ps :: p == ""
    ensures Finds(ps, s)
  {
    if ps != [] {
      assert ps[0] in ps && forall p <- ps[1..] :: p in ps;
      AllEmptyFound(ps[1..], s);
      assert PieceAt(ps[0], s, 0) && s[0 + |ps[0]|..] == s;
    }
  }

  lemma {:induction false} TidyFinds(ps: seq<string>, s: string)
    requires Tidy(ps)
    ensures Finds(Live(ps), s) <==> Finds(ps, s)
  {
    if ps == [] {
    } else if ps[0] == "" {
      AllEmptyFound(ps, s);
    } else {
      var live := Live(ps[1..]);
      assert ([ps[0]] + live)[1..] == live && ([ps[0]] + live)[0] == ps[0];
      forall i: nat | PieceAt(ps[0], s, i) {
        TidyFinds(ps[1..], s[i + |ps[0]|..]);
      }
    }
  }

  function Total(ps: seq<string>): nat {
    if ps == [] then 0 else |ps[0]| + Total(ps[1..])
  }

  lemma {:induction false} FindsNeedsRoom(ps: seq<string>, s: string)
    requires Finds(ps, s)
    ensures Total(ps) <= |s|
  {
    if ps != [] {
      var i: nat :| PieceAt(ps[0], s, i) && Finds(ps[1..], s[i + |ps[0]|..]);
      FindsNeedsRoom(ps[1..], s[i + |ps[0]|..]);
    }
  }

  /** A line made of the pieces alone. */
  function Witness(ps: seq<string>): string {
    if ps == [] then "" else ps[0] + Witness(ps[1..])
  }

  predicate LowerCase(p: string) {
    forall k :: 0 <= k < |p| ==> Lower(p[k]) == p[k] && p[k] != '\0'
  }

  lemma {:induction false} WitnessFound(ps: seq<string>)
    requires forall p <- ps :: LowerCase(p)
    ensures Finds(ps, Witness(ps)) && |Witness(ps)| == Total(ps) && IsCString(Witness(ps))
  {
    if ps != [] {
      WitnessFound(ps[1..]);
      var s := Witness(ps);
      assert ps[0] in ps;
      assert s[0 + |ps[0]|..] == Witness(ps[1..]);
      assert PieceAt(ps[0], s, 0);
    }
  }

  lemma {:induction false} LiveWithin(ps: seq<string>)
    ensures Total(Live(ps)) <= Total(ps)
    ensures !Tidy(ps) ==> Total(Live(ps)) < Total(ps)
    ensures forall p <- Live(ps) :: p in ps
  {
    if ps == [] {
    } else if ps[0] == "" {
      NonemptyCounts(ps);
    } else {
      LiveWithin(ps[1..]);
    }
  }

  lemma {:induction false} NonemptyCounts(ps: seq<string>)
    ensures (exists p <- ps :: p != "") ==> Total(ps) > 0
  {
    if ps != [] {
      NonemptyCounts(ps[1..]);
      assert ps == [ps[0]] + ps[1..];
    }
  }

  lemma {:induction false} PiecesLower(t: string)
    requires forall k :: 0 <= k < |t| ==> Lower(t[k]) == t[k] && t[k] != '\0'
    ensures forall p <- Pieces(t) :: LowerCase(p)
  {
    if t == "" {
    } else if |t| >= 2 && t[0] == '.' && t[1] == '*' {
      PiecesLower(t[2..]);
    } else {
      PiecesLower(t[1..]);
      var ps := Pieces(t[1..]);
      assert ps[0] in ps;
      forall p <- Pieces(t) ensures LowerCase(p) {
        if p != [t[0]] + ps[0] {
          assert p in ps[1..];
        }
      }
    }
  }

  lemma LowerIsLower(t: string)
    requires IsCString(t)
    ensures forall p <- Pieces(LowerAll(t)) :: LowerCase(p)
  {
    LowerAllAt(t);
    assert forall k :: 0 <= k < |t| ==> t[k] in t;
    PiecesLower(LowerAll(t));
  }

  /** For a tidy search text the matcher answers as the expression, on every line. */
  lemma TidyAgrees(t: string, s: string)
    requires Tidy(Pieces(LowerAll(t)))
    ensures Matched(t, s) <==> Search(Parse(t), s)
  {
    TidyFinds(Pieces(LowerAll(t)), s);
    SearchIsFinds(t, s);
  }

  /** For any other search text there is a line on which it does not. */
  lemma UntidyDisagrees(t: string) returns (s: string)
    requires IsCString(t) && !Tidy(Pieces(LowerAll(t)))
    ensures IsCString(s) && Matched(t, s) && !Search(Parse(t), s)
  {
    var ps := Pieces(LowerAll(t));
    LowerIsLower(t);
    LiveWithin(ps);
    s := Witness(Live(ps));
    WitnessFound(Live(ps));
    SearchIsFinds(t, s);
    if Finds(ps, s) {
      FindsNeedsRoom(ps, s);
    }
  }

  /** So the matcher decides the expression exactly for the tidy search texts. */
  lemma MatcherExact(t: string)
    requires IsCString(t)
    ensures (forall s: string | IsCString(s) :: Matched(t, s) <==> Search(Parse(t), s))
        <==> Tidy(Pieces(LowerAll(t)))
  {
    if Tidy(Pieces(LowerAll(t))) {
      forall s: string {
        TidyAgrees(t, s);
      }
    } else {
      var s := UntidyDisagrees(t);
    }
  }

  // ---------------------------------------------------------------------
  // Letters in either case
  // ---------------------------------------------------------------------

  lemma LowerAllUpToCase(s: string, t: string)
    requires UpToCase(s, t)
    ensures LowerAll(s) == LowerAll(t)
  {
    LowerAllAt(s);
    LowerAllAt(t);
    forall k | 0 <= k < |s| ensures LowerAll(s)[k] == LowerAll(t)[k] {
      LowerSame(s[k], t[k]);
    }
  }

  lemma PieceUpToCase(p: string, s: string, t: string, i: nat)
    requires UpToCase(s, t) && PieceAt(p, s, i)
    ensures PieceAt(p, t, i)
  {
    forall k | 0 <= k < |p| ensures p[k] == '.' || Lower(t[i + k]) == p[k] {
      LowerSame(s[i + k], t[i + k]);
    }
  }

  lemma {:induction false} FindsUpToCase(ps: seq<string>, s: string, t: string)
    requires UpToCase(s, t) && Finds(ps, s)
    ensures Finds(ps, t)
  {
    if ps != [] {
      var i: nat :| PieceAt(ps[0], s, i) && Finds(ps[1..], s[i + |ps[0]|..]);
      PieceUpToCase(ps[0], s, t, i);
      FindsUpToCase(ps[1..], s[i + |ps[0]|..], t[i + |ps[0]|..]);
    }
  }

  lemma UpToCaseBack(s: string, t: string)
    requires UpToCase(s, t)
    ensures UpToCase(t, s)
  {
  }

  /** Whether a line is found does not depend on the case of letters, neither of those in the
      search text nor of those in the line. */
  lemma CaseIgnored(t: string, t': string, s: string, s': string)
    requires UpToCase(t, t') && UpToCase(s, s')
    ensures Matched(t, s) <==> Matched(t', s')
    ensures Search(Parse(t), s) <==> Search(Parse(t'), s')
  {
    LowerAllUpToCase(t, t');
    UpToCaseBack(s, s');
    var ps := Pieces(LowerAll(t));
    if Finds(Live(ps), s) {
      FindsUpToCase(Live(ps), s, s');
    }
    if Finds(Live(ps), s') {
      FindsUpToCase(Live(ps), s', s);
    }
    if Finds(ps, s) {
      FindsUpToCase(ps, s, s');
    }
    if Finds(ps, s') {
      FindsUpToCase(ps, s', s);
    }
    SearchIsFinds(t, s);
    SearchIsFinds(t', s');
  }

  // ---------------------------------------------------------------------
  // Tidy search texts, as a user sees them
  // ---------------------------------------------------------------------

  /** `.*` stands at an index where the scan of the text arrives. */
  predicate RunAt(t: string) {
    |t| >= 2 && t[0] == '.' && t[1] == '*'
  }

  /** A `.*` directly follows another. */
  predicate Doubled(t: string) {
    t != "" && (if RunAt(t) then RunAt(t[2..]) || Doubled(t[2..]) else Doubled(t[1..]))
  }

  lemma {:induction false} PlainPieces(t: string)
    requires !Doubled(t)
    ensures var ps := Pieces(t); (ps[0] == "" <==> t == "" || RunAt(t)) && Tidy(ps[1..])
    ensures RunAt(t) ==> (Pieces(t)[1] == "" ==> t[2..] == "")
    decreases |t|
  {
    if t == "" {
    } else if RunAt(t) {
      PlainPieces(t[2..]);
      var ps := Pieces(t[2..]);
      assert Pieces(t)[1..] == ps;
      if ps[0] == "" {
        assert t[2..] == "" && ps == [""];
      }
    } else {
      PlainPieces(t[1..]);
      var ps := Pieces(t[1..]);
      assert Pieces(t)[1..] == ps[1..];
    }
  }

  /** A search text without a leading or doubled `.*` is tidy, so there the matcher is
      sound and complete. */
  lemma PlainTextAgrees(t: string, s: string)
    requires !RunAt(t) && !Doubled(t)
    ensures Matched(t, s) <==> Search(Parse(t), s)
  {
    var low := LowerAll(t);
    DoubledLower(t);
    PlainPieces(low);
    LowerAllAt(t);
    if t == "" {
      assert Pieces(low) == [""];
    }
    TidyAgrees(t, s);
  }

  lemma {:induction false} DoubledLower(t: string)
    ensures RunAt(LowerAll(t)) <==> RunAt(t)
    ensures Doubled(LowerAll(t)) <==> Doubled(t)
    decreases |t|
  {
    var low := LowerAll(t);
    LowerAllAt(t);
    if t != "" {
      assert low[0] == '.' <==> t[0] == '.';
      assert |t| >= 2 ==> (low[1] == '*' <==> t[1] == '*');
      assert low[1..] == LowerAll(t[1..]);
      DoubledLower(t[1..]);
      if |t| >= 2 {
        assert low[2..] == LowerAll(t[2..]);
        DoubledLower(t[2..]);
      }
    }
  }
}
