/** Which lines /recall shows (recall.c: recall_search_and_recall, recall_match_one_line;
    world.c: world_recall_history). */
module Recall {
  import opened Sequences
  import opened Lines
  import opened Text
  import opened Codec
  import Matcher
  import Regex

  // ---------------------------------------------------------------------
  // world_recall_history
  // ---------------------------------------------------------------------

  function RecalledLine(l: LineData): LineData {
    LineData(NoBell(CString(l.str)), l.day, l.time, LINE_RECALLED, Copy)
  }

  function RecalledLines(ls: seq<LineData>): seq<LineData> {
    seq(|ls|, i requires 0 <= i < |ls| => RecalledLine(ls[i]))
  }

  /** Copies of the last `count` lines of the history. */
  function RecallHistory(history: seq<LineData>, count: int): seq<LineData> {
    if count < 1 then [] else RecalledLines(LastN(history, count))
  }

  method WorldRecallHistory(history: seq<LineData>, count: int) returns (queue: seq<LineData>)
    ensures queue == RecallHistory(history, count)
  {
    queue := [];
    if history == [] || count < 1 {
      return;
    }
    var line, todo := |history| - 1, count;
    while line > 0 && todo > 1
      invariant 0 <= line < |history| && todo >= 1
      invariant line + count - todo == |history| - 1
      decreases line
    {
      line, todo := line - 1, todo - 1;
    }
    queue := CopyFrom(history, line);
  }

  method CopyFrom(history: seq<LineData>, from: nat) returns (queue: seq<LineData>)
    requires from <= |history|
    ensures queue == RecalledLines(history[from..])
  {
    queue := [];
    var line := from;
    while line < |history|
      invariant from <= line <= |history| && |queue| == line - from
      invariant forall i :: 0 <= i < |queue| ==> queue[i] == RecalledLine(history[from + i])
    {
      var str := StrcpyNobell(history[line].str);
      queue := queue + [LineData(str, history[line].day, history[line].time, LINE_RECALLED, Copy)];
      line := line + 1;
    }
  }

  // ---------------------------------------------------------------------
  // recall_search_and_recall
  // ---------------------------------------------------------------------

  /** The recall options: two times, a number of lines (0 for all of the period, negative
      for lines before `from`) and the search text. */
  datatype Params = Params(from: int, to: int, lines: int, search: Option<string>)

  /** world_recall_command makes sure that from is not after to. */
  function Ordered(p: Params): Params {
    if p.from > p.to then p.(from := p.to, to := p.from) else p
  }

  /** The earlier of the two times comes first. */
  lemma OrderedExact(p: Params)
    ensures var q := Ordered(p);
            q.from <= q.to && multiset{q.from, q.to} == multiset{p.from, p.to}
            && q.lines == p.lines && q.search == p.search
  {
  }

  function InPeriod(h: seq<LineData>, from: int, to: int): seq<LineData> {
    if h == [] then []
    else (if from <= h[0].time <= to then [h[0]] else []) + InPeriod(h[1..], from, to)
  }

  function NewEnough(h: seq<LineData>, from: int): seq<LineData> {
    if h == [] then []
    else (if h[0].time >= from then [h[0]] else []) + NewEnough(h[1..], from)
  }

  function OldEnough(h: seq<LineData>, from: int): seq<LineData> {
    if h == [] then []
    else (if h[0].time <= from then [h[0]] else []) + OldEnough(h[1..], from)
  }

  /** The lines that are inspected: all of the period, the first `lines` new enough, or
      the last `-lines` old enough.  Times need not be monotone. */
  function Inspected(h: seq<LineData>, p: Params): seq<LineData> {
    if p.lines == 0 then InPeriod(h, p.from, p.to)
    else if p.lines > 0 then FirstN(NewEnough(h, p.from), p.lines)
    else LastN(OldEnough(h, p.from), -p.lines)
  }

  /** A line is shown without escape sequences if it matches the search text, if any. */
  ghost predicate Shown(l: LineData, search: Option<string>) {
    search.None? || Regex.Matched(search.value, NoAnsi(CString(l.str)))
  }

  function ShownLine(l: LineData, clock: Clock): LineData {
    LineData(NoAnsi(CString(l.str)), clock.day, l.time, LINE_MESSAGE, Copy)
  }

  ghost function Results(ls: seq<LineData>, search: Option<string>, clock: Clock): seq<LineData> {
    if ls == [] then []
    else (if Shown(ls[0], search) then [ShownLine(ls[0], clock)] else []) + Results(ls[1..], search, clock)
  }

  lemma {:induction false} ResultsConcat(a: seq<LineData>, b: seq<LineData>, search: Option<string>, clock: Clock)
    ensures Results(a + b, search, clock) == Results(a, search, clock) + Results(b, search, clock)
  {
    if a == [] {
      assert a + b == b;
    } else {
      assert (a + b)[1..] == a[1..] + b;
      ResultsConcat(a[1..], b, search, clock);
    }
  }

  lemma {:induction false} InPeriodConcat(a: seq<LineData>, b: seq<LineData>, from: int, to: int)
    ensures InPeriod(a + b, from, to) == InPeriod(a, from, to) + InPeriod(b, from, to)
  {
    if a == [] {
      assert a + b == b;
    } else {
      assert (a + b)[1..] == a[1..] + b;
      InPeriodConcat(a[1..], b, from, to);
    }
  }

  lemma {:induction false} NewEnoughConcat(a: seq<LineData>, b: seq<LineData>, from: int)
    ensures NewEnough(a + b, from) == NewEnough(a, from) + NewEnough(b, from)
  {
    if a == [] {
      assert a + b == b;
    } else {
      assert (a + b)[1..] == a[1..] + b;
      NewEnoughConcat(a[1..], b, from);
    }
  }

  lemma {:induction false} OldEnoughConcat(a: seq<LineData>, b: seq<LineData>, from: int)
    ensures OldEnough(a + b, from) == OldEnough(a, from) + OldEnough(b, from)
  {
    if a == [] {
      assert a + b == b;
    } else {
      assert (a + b)[1..] == a[1..] + b;
      OldEnoughConcat(a[1..], b, from);
    }
  }

  function Between(from: int, to: int): LineData -> bool {
    (x: LineData) => from <= x.time && x.time <= to
  }

  function NotBefore(from: int): LineData -> bool {
    (x: LineData) => from <= x.time
  }

  function NotAfter(from: int): LineData -> bool {
    (x: LineData) => x.time <= from
  }

  /** All lines of the period, in order, and no others. */
  lemma {:induction false} InPeriodExact(h: seq<LineData>, from: int, to: int)
    ensures IsFilter(InPeriod(h, from, to), h, Between(from, to))
  {
    if h != [] {
      InPeriodExact(h[1..], from, to);
      FilterStep(InPeriod(h[1..], from, to), h, Between(from, to));
    } else {
      FilterNone(Between(from, to));
    }
  }

  lemma {:induction false} NewEnoughExact(h: seq<LineData>, from: int)
    ensures IsFilter(NewEnough(h, from), h, NotBefore(from))
  {
    if h != [] {
      NewEnoughExact(h[1..], from);
      FilterStep(NewEnough(h[1..], from), h, NotBefore(from));
    } else {
      FilterNone(NotBefore(from));
    }
  }

  lemma {:induction false} OldEnoughExact(h: seq<LineData>, from: int)
    ensures IsFilter(OldEnough(h, from), h, NotAfter(from))
  {
    if h != [] {
      OldEnoughExact(h[1..], from);
      FilterStep(OldEnough(h[1..], from), h, NotAfter(from));
    } else {
      FilterNone(NotAfter(from));
    }
  }

  /** The lines inspected: the period, or the first or last ones of those after or before. */
  lemma InspectedExact(h: seq<LineData>, p: Params) returns (all: seq<LineData>)
    ensures p.lines == 0 ==> IsFilter(Inspected(h, p), h, Between(p.from, p.to))
    ensures p.lines > 0 ==>
              && IsFilter(all, h, NotBefore(p.from)) && Inspected(h, p) <= all
              && |Inspected(h, p)| == if |all| < p.lines then |all| else p.lines
    ensures p.lines < 0 ==>
              var n := |all| - |Inspected(h, p)|;
              && IsFilter(all, h, NotAfter(p.from)) && n >= 0 && Inspected(h, p) == all[n..]
              && |Inspected(h, p)| == if |all| < -p.lines then |all| else -p.lines
  {
    InPeriodExact(h, p.from, p.to);
    NewEnoughExact(h, p.from);
    OldEnoughExact(h, p.from);
    all := if p.lines > 0 then NewEnough(h, p.from) else OldEnough(h, p.from);
  }

  /** What is shown of a line. */
  predicate FoundOf(c: LineData, l: LineData) {
    c.str == NoAnsi(CString(l.str)) && c.time == l.time && c.flags == LINE_MESSAGE && c.id == Copy
  }

  ghost function ShownIn(search: Option<string>): LineData -> bool {
    (x: LineData) => Shown(x, search)
  }

  /** The lines that match. */
  ghost function Matching(ls: seq<LineData>, search: Option<string>): seq<LineData> {
    if ls == [] then [] else (if Shown(ls[0], search) then [ls[0]] else []) + Matching(ls[1..], search)
  }

  lemma {:induction false} MatchingExact(ls: seq<LineData>, search: Option<string>)
    ensures IsFilter(Matching(ls, search), ls, ShownIn(search))
  {
    if ls == [] {
      FilterNone(ShownIn(search));
    } else {
      MatchingExact(ls[1..], search);
      FilterStep(Matching(ls[1..], search), ls, ShownIn(search));
    }
  }

  /** Each line that matches is shown once, in order, and no other line is. */
  lemma {:induction false} ResultsExact(ls: seq<LineData>, search: Option<string>, clock: Clock)
    ensures var found, out := Matching(ls, search), Results(ls, search, clock);
            |out| == |found| && forall k :: 0 <= k < |found| ==> FoundOf(out[k], found[k])
  {
    if ls != [] {
      ResultsExact(ls[1..], search, clock);
    }
  }

  /** Without a search text all lines match; a text that is tidy is the expression it looks like. */
  lemma ShownExact(l: LineData, search: Option<string>)
    ensures search.None? ==> Shown(l, search)
    ensures search.Some? && Regex.Tidy(Matcher.Pieces(LowerAll(search.value))) ==>
              (Shown(l, search) <==> Regex.Search(Regex.Parse(search.value), NoAnsi(CString(l.str))))
  {
    if search.Some? && Regex.Tidy(Matcher.Pieces(LowerAll(search.value))) {
      Regex.TidyAgrees(search.value, NoAnsi(CString(l.str)));
    }
  }

  lemma Snoc(a: seq<LineData>, x: LineData, p: Params)
    ensures InPeriod(a + [x], p.from, p.to)
         == if p.from <= x.time <= p.to then InPeriod(a, p.from, p.to) + [x] else InPeriod(a, p.from, p.to)
    ensures NewEnough(a + [x], p.from)
         == if x.time >= p.from then NewEnough(a, p.from) + [x] else NewEnough(a, p.from)
    ensures OldEnough(a + [x], p.from)
         == if x.time <= p.from then OldEnough(a, p.from) + [x] else OldEnough(a, p.from)
  {
    InPeriodConcat(a, [x], p.from, p.to);
    NewEnoughConcat(a, [x], p.from);
    OldEnoughConcat(a, [x], p.from);
    assert [x][1..] == [];
  }

  /** One line further. */
  lemma NextLine(h: seq<LineData>, i: nat, p: Params)
    requires i < |h|
    ensures InPeriod(h[..i + 1], p.from, p.to)
         == if p.from <= h[i].time <= p.to then InPeriod(h[..i], p.from, p.to) + [h[i]] else InPeriod(h[..i], p.from, p.to)
    ensures NewEnough(h[..i + 1], p.from)
         == if h[i].time >= p.from then NewEnough(h[..i], p.from) + [h[i]] else NewEnough(h[..i], p.from)
    ensures OldEnough(h[..i + 1], p.from)
         == if h[i].time <= p.from then OldEnough(h[..i], p.from) + [h[i]] else OldEnough(h[..i], p.from)
  {
    assert h[..i + 1] == h[..i] + [h[i]];
    Snoc(h[..i], h[i], p);
  }

  /** The search text, ready for the matcher, or nothing. */
  ghost predicate Ready(search: Option<string>, re: string) {
    search.Some? ==>
      && IsCString(search.value)
      && Matcher.Layout(Matcher.Pieces(LowerAll(search.value))) + "\0" <= re
  }

  lemma NoAnsiPlain(s: string)
    ensures IsCString(NoAnsi(s))
  {
    NoAnsiPrintable(s);
  }

  /** recall_match_one_line: the line, if it is shown. */
  method MatchOneLine(line: LineData, search: Option<string>, re: string, clock: Clock) returns (out: seq<LineData>)
    requires Ready(search, re)
    ensures out == Results([line], search, clock)
  {
    var str := StrcpyNoansi(line.str);
    NoAnsiPlain(CString(line.str));
    out := [];
    if search.Some? {
      ghost var ps := Matcher.Pieces(LowerAll(search.value));
      LowerAllPlain(search.value);
      Matcher.PiecesPlain(LowerAll(search.value));
      var found := Matcher.RecallMatch(str, re, ps);
      if !found {
        return;
      }
    }
    out := [LineData(str, clock.day, line.time, LINE_MESSAGE, Copy)];
  }

  lemma LowerAllPlain(s: string)
    requires IsCString(s)
    ensures IsCString(LowerAll(s))
  {
    LowerAllAt(s);
  }

  /** What one of the loops has found: the copies and the numbers of lines inspected and
      matched. */
  datatype Tally = Tally(out: seq<LineData>, inPeriod: nat, matched: nat)

  ghost predicate Tallies(t: Tally, ls: seq<LineData>, search: Option<string>, clock: Clock) {
    t.out == Results(ls, search, clock) && t.inPeriod == |ls| && t.matched == |t.out|
  }

  method Inspect(t: Tally, line: LineData, search: Option<string>, re: string, clock: Clock,
                 ghost ls: seq<LineData>)
    returns (t': Tally)
    requires Ready(search, re) && Tallies(t, ls, search, clock)
    ensures Tallies(t', ls + [line], search, clock)
  {
    var found := MatchOneLine(line, search, re, clock);
    ResultsConcat(ls, [line], search, clock);
    t' := Tally(t.out + found, t.inPeriod + 1, t.matched + |found|);
  }

  /** All lines of the period. */
  method SearchPeriod(h: seq<LineData>, p: Params, re: string, clock: Clock) returns (t: Tally)
    requires Ready(p.search, re)
    ensures Tallies(t, InPeriod(h, p.from, p.to), p.search, clock)
  {
    t := Tally([], 0, 0);
    for i := 0 to |h|
      invariant Tallies(t, InPeriod(h[..i], p.from, p.to), p.search, clock)
    {
      ghost var before := InPeriod(h[..i], p.from, p.to);
      NextLine(h, i, p);
      if h[i].time < p.from {
        continue;
      }
      if h[i].time > p.to {
        continue;
      }
      t := Inspect(t, h[i], p.search, re, clock, before);
    }
    assert h[..|h|] == h;
  }

  lemma EnoughFound(h: seq<LineData>, i: nat, p: Params)
    requires i < |h| && h[i].time >= p.from && |NewEnough(h[..i], p.from)| == p.lines
    ensures FirstN(NewEnough(h, p.from), p.lines) == NewEnough(h[..i], p.from)
  {
    SplitAt(h, i);
    NewEnoughConcat(h[..i], h[i..], p.from);
  }

  /** The first lines that are new enough. */
  method SearchAfter(h: seq<LineData>, p: Params, re: string, clock: Clock) returns (t: Tally)
    requires Ready(p.search, re) && p.lines > 0
    ensures Tallies(t, FirstN(NewEnough(h, p.from), p.lines), p.search, clock)
  {
    t := Tally([], 0, 0);
    var count, i := 0, 0;
    ghost var seen: seq<LineData> := [];
    while i < |h|
      invariant i <= |h| && seen == NewEnough(h[..i], p.from) && count == |seen| <= p.lines
      invariant Tallies(t, seen, p.search, clock)
    {
      NextLine(h, i, p);
      if h[i].time >= p.from {
        count := count + 1;
        if count > p.lines {
          EnoughFound(h, i, p);
          return;
        }
        t := Inspect(t, h[i], p.search, re, clock, seen);
        seen := seen + [h[i]];
      }
      i := i + 1;
    }
    assert h[..i] == h;
  }

  /** From newest to oldest, to where enough lines have been seen that are old enough:
      `line` is where to start and `lines` how many there are. */
  method SeekBack(h: seq<LineData>, p: Params) returns (line: nat, lines: nat)
    requires p.lines < 0
    ensures line <= |h| && lines <= -p.lines
    ensures lines == |OldEnough(h[line..], p.from)|
    ensures lines == -p.lines || line == 0
  {
    line, lines := |h|, 0;
    while line > 0
      invariant line <= |h|
      invariant lines == |OldEnough(h[line..], p.from)| && lines < -p.lines
    {
      line := line - 1;
      assert h[line..] == [h[line]] + h[line + 1..];
      if h[line].time > p.from {
        continue;
      }
      lines := lines + 1;
      if lines >= -p.lines {
        return;
      }
    }
  }

  lemma SeekBackExact(h: seq<LineData>, start: nat, p: Params)
    requires p.lines < 0 && start <= |h|
    requires |OldEnough(h[start..], p.from)| <= -p.lines
    requires |OldEnough(h[start..], p.from)| == -p.lines || start == 0
    ensures OldEnough(h[start..], p.from) == LastN(OldEnough(h, p.from), -p.lines)
  {
    assert h == h[..start] + h[start..];
    OldEnoughConcat(h[..start], h[start..], p.from);
  }

  lemma OldEnoughPrefix(h: seq<LineData>, i: nat, from: int)
    requires i <= |h|
    ensures |OldEnough(h[..i], from)| <= |OldEnough(h, from)|
  {
    assert h == h[..i] + h[i..];
    OldEnoughConcat(h[..i], h[i..], from);
  }

  /** Forward in time again, inspecting that many lines. */
  method WalkForward(rest: seq<LineData>, lines: nat, p: Params, re: string, clock: Clock) returns (t: Tally)
    requires Ready(p.search, re) && lines == |OldEnough(rest, p.from)|
    ensures Tallies(t, OldEnough(rest, p.from), p.search, clock)
  {
    t := Tally([], 0, 0);
    var count, i := 0, 0;
    ghost var seen: seq<LineData> := [];
    while i < |rest|
      invariant i <= |rest| && seen == OldEnough(rest[..i], p.from) && count == |seen|
      invariant Tallies(t, seen, p.search, clock)
    {
      NextLine(rest, i, p);
      if rest[i].time <= p.from {
        count := count + 1;
        if count > lines {
          OldEnoughPrefix(rest, i + 1, p.from);
          assert false;
          break;
        }
        t := Inspect(t, rest[i], p.search, re, clock, seen);
        seen := seen + [rest[i]];
      }
      i := i + 1;
    }
    assert rest[..i] == rest;
  }

  /** The last lines that are old enough, in order. */
  method SearchBefore(h: seq<LineData>, p: Params, re: string, clock: Clock) returns (t: Tally)
    requires Ready(p.search, re) && p.lines < 0
    ensures Tallies(t, LastN(OldEnough(h, p.from), -p.lines), p.search, clock)
  {
    var start, lines := SeekBack(h, p);
    SeekBackExact(h, start, p);
    t := WalkForward(h[start..], lines, p, re, clock);
  }

  /** recall_search_and_recall: the copies for the client and the statistics. */
  method SearchAndRecall(h: seq<LineData>, p: Params, clock: Clock) returns (t: Tally)
    requires p.search.Some? ==> IsCString(p.search.value)
    ensures Tallies(t, Inspected(h, p), p.search, clock)
  {
    var re := "";
    if p.search.Some? {
      var text := p.search.value;
      var n := |text|;
      var a := new char[n + 2](i => if 0 <= i < n then text[i] else '\0');
      assert a[..n] == text;
      assert forall k :: 0 <= k < n ==> a[k] == text[k] && text[k] in text;
      Matcher.PrepareSearch(a, n);
      re := a[..];
    }
    if p.lines == 0 {
      t := SearchPeriod(h, p, re, clock);
    } else if p.lines > 0 {
      t := SearchAfter(h, p, re, clock);
    } else {
      t := SearchBefore(h, p, re, clock);
    }
  }
}
