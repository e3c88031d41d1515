/** What a client gets (world.c: world_recall_and_pass; mooproxy.c: mainloop): a new client is
    shown what it may have missed, and what is queued for a client goes on to it. */
module PipelineClient {
  import opened Sequences
  import opened Lines
  import opened Text
  import Recall
  import Flush
  import Logger
  import opened Pipeline
  import opened PipelineInvariant
  import opened PipelineRun

  // ---------------------------------------------------------------------
  // What is added to client_toqueue
  // ---------------------------------------------------------------------

  /** A line that mooproxy has written since it had written `made` lines. */
  predicate IsNew(l: LineData, made: nat) {
    l.id.Own? && l.id.n >= made
  }

  predicate AllOld(q: seq<LineData>, made: nat) {
    forall l <- q :: !IsNew(l, made)
  }

  /** The lines that are not new ones of mooproxy. */
  function Others(q: seq<LineData>, made: nat): seq<LineData> {
    if q == [] then [] else (if IsNew(q[0], made) then [] else [q[0]]) + Others(q[1..], made)
  }

  /** What mooproxy says in the new ones. */
  function Said(q: seq<LineData>, made: nat): seq<Msg> {
    if q == [] then [] else (if IsNew(q[0], made) then [Msg(q[0].str, q[0].flags)] else []) + Said(q[1..], made)
  }

  lemma {:induction false} OthersConcat(a: seq<LineData>, b: seq<LineData>, made: nat)
    ensures Others(a + b, made) == Others(a, made) + Others(b, made)
  {
    if a == [] {
      EmptyEnds(b);
      EmptyEnds(Others(b, made));
    } else {
      ConcatStep(a, b);
      OthersConcat(a[1..], b, made);
      Assoc(if IsNew(a[0], made) then [] else [a[0]], Others(a[1..], made), Others(b, made));
    }
  }

  lemma {:induction false} SaidConcat(a: seq<LineData>, b: seq<LineData>, made: nat)
    ensures Said(a + b, made) == Said(a, made) + Said(b, made)
  {
    if a == [] {
      EmptyEnds(b);
      EmptyEnds(Said(b, made));
    } else {
      ConcatStep(a, b);
      SaidConcat(a[1..], b, made);
      Assoc(if IsNew(a[0], made) then [Msg(a[0].str, a[0].flags)] else [], Said(a[1..], made), Said(b, made));
    }
  }

  lemma {:induction false} AllOthers(q: seq<LineData>, made: nat)
    requires AllOld(q, made)
    ensures Others(q, made) == q && Said(q, made) == []
  {
    if q != [] {
      HeadTail(q);
      assert forall l <- q[1..] :: l in q;
      AllOthers(q[1..], made);
    }
  }

  lemma OneNew(l: LineData, made: nat)
    requires IsNew(l, made)
    ensures Others([l], made) == [] && Said([l], made) == [Msg(l.str, l.flags)]
  {
    assert [l][1..] == [];
  }

  /** These lines and announcements were added, and nothing else of the queue changed. */
  predicate Adds(p: Pipe, p': Pipe, made: nat, lines: seq<LineData>, msgs: seq<Msg>) {
    && made <= p.past.made <= p'.past.made
    && p.to <= p'.to
    && Others(p'.to[|p.to|..], made) == lines && Said(p'.to[|p.to|..], made) == msgs
  }

  lemma AddsNothing(p: Pipe, p': Pipe, made: nat)
    requires made <= p.past.made == p'.past.made && p'.to == p.to
    ensures Adds(p, p', made, [], [])
  {
    assert p'.to[|p.to|..] == [];
  }

  lemma AddsThen(p: Pipe, p1: Pipe, p2: Pipe, made: nat, lines: seq<LineData>, more: seq<LineData>,
                 msgs: seq<Msg>, moreMsgs: seq<Msg>)
    requires Adds(p, p1, made, lines, msgs) && Adds(p1, p2, made, more, moreMsgs)
    ensures Adds(p, p2, made, lines + more, msgs + moreMsgs)
  {
    var a, b := p1.to[|p.to|..], p2.to[|p1.to|..];
    assert p2.to[|p.to|..] == a + b;
    OthersConcat(a, b, made);
    SaidConcat(a, b, made);
  }

  lemma SayOneAdds(p: Pipe, m: Msg, clock: Clock, made: nat)
    requires made <= p.past.made
    ensures Adds(p, SayOne(p, m, clock), made, [], [m])
  {
    var l := OwnLine(m, clock, p.past.made);
    assert SayOne(p, m, clock).to[|p.to|..] == [l];
    OneNew(l, made);
  }

  lemma {:induction false} SayAdds(p: Pipe, ms: seq<Msg>, clock: Clock, made: nat)
    requires made <= p.past.made
    ensures Adds(p, Say(p, ms, clock), made, [], ms)
    decreases ms
  {
    if ms == [] {
      AddsNothing(p, p, made);
    } else {
      var p1 := SayOne(p, ms[0], clock);
      SayOneAdds(p, ms[0], clock, made);
      SayAdds(p1, ms[1..], clock, made);
      AddsThen(p, p1, Say(p1, ms[1..], clock), made, [], [], [ms[0]], ms[1..]);
      HeadTail(ms);
    }
  }

  lemma OfferAdds(p: Pipe, p': Pipe, q: seq<LineData>, made: nat)
    requires made <= p.past.made == p'.past.made && p'.to == p.to + q && AllOld(q, made)
    ensures Adds(p, p', made, q, [])
  {
    assert p'.to[|p.to|..] == q;
    AllOthers(q, made);
  }

  // ---------------------------------------------------------------------
  // What a new client is shown
  // ---------------------------------------------------------------------

  /** A line of the history, without its bells. */
  predicate ContextOf(c: LineData, l: LineData) {
    && c.str == NoBell(CString(l.str)) && c.day == l.day && c.time == l.time
    && c.flags == LINE_RECALLED && c.id == Copy
  }

  /** A copy that is whole up to the first NUL. */
  predicate CopyOf(c: LineData, l: LineData) {
    && CString(c.str) == CString(l.str) && |c.str| == |l.str| && (IsCString(l.str) ==> c.str == l.str)
    && c.day == l.day && c.time == l.time && c.flags == LINE_RECALLED && c.id == Copy
  }

  function ContextCount(history: seq<LineData>, contextLines: int): nat {
    if contextLines <= 0 then 0 else if contextLines < |history| then contextLines else |history|
  }

  /** The last lines of the history, then the lines that a client may have seen, and then those
      that none has. */
  predicate Shows(q: seq<LineData>, history: seq<LineData>, contextLines: int, inactive: seq<LineData>,
                  buffered: seq<LineData>) {
    var n, m := ContextCount(history, contextLines), |inactive|;
    && |q| == n + m + |buffered|
    && (forall k :: 0 <= k < n ==> ContextAt(q, k, history, n))
    && (forall k :: 0 <= k < m ==> CopyAt(q, n, k, inactive))
    && q[n + m..] == buffered
  }

  /** Line k is line k of the last n lines of the history. */
  predicate ContextAt(q: seq<LineData>, k: nat, history: seq<LineData>, n: nat)
    requires k < n <= |q| && n <= |history|
  {
    ContextOf(q[k], history[|history| - n + k])
  }

  /** The k-th line after the first n is the k-th inactive line. */
  predicate CopyAt(q: seq<LineData>, n: nat, k: nat, inactive: seq<LineData>)
    requires k < |inactive| && n + k < |q|
  {
    CopyOf(q[n + k], inactive[k])
  }

  /** Each kind of lines is announced if there are any, and so are the losses. */
  function Announced(p: Pipe, t: PassTexts): seq<Msg> {
    OldAnnounced(p, t) + NewAnnounced(p, t)
  }

  function OldAnnounced(p: Pipe, t: PassTexts): seq<Msg> {
    (if ContextCount(p.history, p.contextLines) > 0 then [t.context] else [])
    + (if p.inactive != [] then [t.inactive] else [])
  }

  function NewAnnounced(p: Pipe, t: PassTexts): seq<Msg> {
    (if p.buffered != [] then [t.buffered] else []) + [t.end] + LossesAnnounced(p, t)
  }

  function LossesAnnounced(p: Pipe, t: PassTexts): seq<Msg> {
    (if p.droppedInactive > 0 then [t.lostInactive] else [])
    + (if p.droppedBuffered > 0 then [t.lostBuffered] else [])
  }

  /** The context lines. */
  function ContextLines(p: Pipe): seq<LineData> {
    RecalledFor(p.history, p.contextLines)
  }

  function RecalledFor(history: seq<LineData>, contextLines: int): seq<LineData> {
    if contextLines > 0 then Recall.RecallHistory(history, contextLines) else []
  }

  lemma ContextAdds(p: Pipe, m: Msg, clock: Clock, made: nat)
    requires made <= p.past.made
    ensures Adds(p, PassHistory(p, m, clock), made, ContextLines(p),
                 if ContextCount(p.history, p.contextLines) > 0 then [m] else [])
  {
    var q := ContextLines(p);
    if q == [] {
      AddsNothing(p, p, made);
    } else {
      SayOfferAdds(p, m, q, clock, made);
    }
  }

  lemma InactiveAdds(p: Pipe, m: Msg, memory: nat -> string, clock: Clock, made: nat)
    requires made <= p.past.made
    ensures Adds(p, PassInactive(p, m, memory, clock), made, Duplicates(p.inactive, memory),
                 if p.inactive != [] then [m] else [])
  {
    var q := Duplicates(p.inactive, memory);
    if p.inactive == [] {
      AddsNothing(p, p, made);
    } else {
      DuplicatesAreCopies(p.inactive, memory);
      SayOfferAdds(p, m, q, clock, made);
    }
  }

  lemma BufferedAdds(p: Pipe, m: Msg, clock: Clock, made: nat)
    requires made <= p.past.made && AllOld(p.buffered, made)
    ensures Adds(p, if p.buffered != [] then PassBuffered(SayOne(p, m, clock)) else p, made, p.buffered,
                 if p.buffered != [] then [m] else [])
  {
    if p.buffered == [] {
      AddsNothing(p, p, made);
    } else {
      var p1 := SayOne(p, m, clock);
      SayOneAdds(p, m, clock, made);
      OfferAdds(p1, PassBuffered(p1), p.buffered, made);
      AddsThen(p, p1, PassBuffered(p1), made, [], p.buffered, [m], []);
    }
  }

  lemma WarningsAdd(p: Pipe, t: PassTexts, clock: Clock, made: nat)
    requires made <= p.past.made
    ensures var p' := WarnBuffered(WarnInactive(p, t.lostInactive, clock), t.lostBuffered, clock);
            Adds(p, p', made, [], LossesAnnounced(p, t))
  {
    var p1 := WarnInactive(p, t.lostInactive, clock);
    var p2 := WarnBuffered(p1, t.lostBuffered, clock);
    var a := if p.droppedInactive > 0 then [t.lostInactive] else [];
    var b := if p.droppedBuffered > 0 then [t.lostBuffered] else [];
    if p.droppedInactive > 0 { SayOneAdds(p, t.lostInactive, clock, made); } else { AddsNothing(p, p1, made); }
    if p.droppedBuffered > 0 { SayOneAdds(p1, t.lostBuffered, clock, made); } else { AddsNothing(p1, p2, made); }
    AddsThen(p, p1, p2, made, [], [], a, b);
  }

  lemma OldAdds(p: Pipe, t: PassTexts, clock: Clock, made: nat)
    requires made <= p.past.made
    ensures var p' := PassInactive(PassHistory(p, t.context, clock), t.inactive, t.memory, clock);
            && Adds(p, p', made, ContextLines(p) + Duplicates(p.inactive, t.memory), OldAnnounced(p, t))
            && p' == p.(to := p'.to, past := p'.past)
  {
    var p1 := PassHistory(p, t.context, clock);
    var p2 := PassInactive(p1, t.inactive, t.memory, clock);
    ContextAdds(p, t.context, clock, made);
    InactiveAdds(p1, t.inactive, t.memory, clock, made);
    AddsThen(p, p1, p2, made, ContextLines(p), Duplicates(p.inactive, t.memory),
             if ContextCount(p.history, p.contextLines) > 0 then [t.context] else [],
             if p.inactive != [] then [t.inactive] else []);
  }

  lemma NewAdds(p: Pipe, t: PassTexts, clock: Clock, made: nat)
    requires made <= p.past.made && AllOld(p.buffered, made)
    ensures var p1 := if p.buffered != [] then PassBuffered(SayOne(p, t.buffered, clock)) else p;
            var p' := WarnBuffered(WarnInactive(SayOne(p1, t.end, clock), t.lostInactive, clock), t.lostBuffered, clock);
            Adds(p, p', made, p.buffered, NewAnnounced(p, t))
  {
    var p1 := if p.buffered != [] then PassBuffered(SayOne(p, t.buffered, clock)) else p;
    var p2 := SayOne(p1, t.end, clock);
    var p3 := WarnBuffered(WarnInactive(p2, t.lostInactive, clock), t.lostBuffered, clock);
    var msgs := if p.buffered != [] then [t.buffered] else [];
    BufferedAdds(p, t.buffered, clock, made);
    SayOneAdds(p1, t.end, clock, made);
    AddsThen(p, p1, p2, made, p.buffered, [], msgs, [t.end]);
    EmptyEnds(p.buffered);
    WarningsAdd(p2, t, clock, made);
    AddsThen(p, p2, p3, made, p.buffered, [], msgs + [t.end], LossesAnnounced(p, t));
  }

  /** What world_recall_and_pass adds. */
  lemma PassingAdds(p: Pipe, t: PassTexts, clock: Clock, made: nat)
    requires made <= p.past.made && AllOld(p.buffered, made)
    ensures Adds(p, RecallAndPass(p, t, clock), made,
                 ContextLines(p) + Duplicates(p.inactive, t.memory) + p.buffered, Announced(p, t))
  {
    var p1 := PassInactive(PassHistory(p, t.context, clock), t.inactive, t.memory, clock);
    OldAdds(p, t, clock, made);
    NewAdds(p1, t, clock, made);
    AddsThen(p, p1, RecallAndPass(p, t, clock), made, ContextLines(p) + Duplicates(p.inactive, t.memory), p.buffered,
             OldAnnounced(p, t), NewAnnounced(p, t));
  }

  /** Messages do not change what there is to show. */
  lemma SameToShow(p: Pipe, p': Pipe, t: PassTexts)
    requires p' == p.(to := p'.to, past := p'.past)
    ensures ContextLines(p') == ContextLines(p) && Announced(p', t) == Announced(p, t)
  {
  }

  /** The lines to show. */
  function ToShow(p: Pipe, t: PassTexts): seq<LineData> {
    ContextLines(p) + Duplicates(p.inactive, t.memory) + p.buffered
  }

  lemma AfterBefore(p: Pipe, before: seq<Msg>, t: PassTexts, clock: Clock)
    requires AllOld(p.buffered, p.past.made)
    ensures Adds(p, RecallAndPass(Say(p, before, clock), t, clock), p.past.made, ToShow(p, t), before + Announced(p, t))
  {
    var p1 := Say(p, before, clock);
    SaysOnly(p, before, clock);
    SayAdds(p, before, clock, p.past.made);
    SameToShow(p, p1, t);
    PassingAdds(p1, t, clock, p.past.made);
    AddsThen(p, p1, RecallAndPass(p1, t, clock), p.past.made, [], ToShow(p, t), before, Announced(p, t));
    EmptyEnds(ToShow(p, t));
  }

  /** And what the rest of promote_auth_connection adds. */
  lemma WelcomeAdds(p: Pipe, before: seq<Msg>, t: PassTexts, after: seq<Msg>, clock: Clock)
    requires AllOld(p.buffered, p.past.made)
    ensures Adds(p, Say(RecallAndPass(Say(p, before, clock), t, clock), after, clock), p.past.made,
                 ToShow(p, t), before + Announced(p, t) + after)
  {
    var p2 := RecallAndPass(Say(p, before, clock), t, clock);
    AfterBefore(p, before, t, clock);
    ThenSay(p, p2, p.past.made, ToShow(p, t), before + Announced(p, t), after, clock);
  }

  lemma ThenSay(p: Pipe, p': Pipe, made: nat, lines: seq<LineData>, msgs: seq<Msg>, after: seq<Msg>, clock: Clock)
    requires Adds(p, p', made, lines, msgs)
    ensures Adds(p, Say(p', after, clock), made, lines, msgs + after)
  {
    SayAdds(p', after, clock, made);
    AddsThen(p, p', Say(p', after, clock), made, lines, [], msgs, after);
    EmptyEnds(lines);
  }

  lemma {:induction false} CStringOfCopy(s: string, memory: string)
    ensures CString(DupText(s, memory)) == CString(s) && |DupText(s, memory)| == |s|
    ensures IsCString(s) ==> DupText(s, memory) == s
  {
    CStringIs(s);
    var n := |CString(s)|;
    if n < |s| {
      assert s[n] == '\0' && s[n] in s;
      var t := DupText(s, memory);
      assert t[..n] == s[..n] && t[n] == '\0';
      UpToNul(t, n);
    }
  }

  lemma {:induction false} UpToNul(s: string, n: nat)
    requires n < |s| && s[n] == '\0' && IsCString(s[..n])
    ensures CString(s) == s[..n]
  {
    if n > 0 {
      assert s[0] == s[..n][0] && s[..n][1..] == s[1..][..n - 1] && s[..n] == [s[0]] + s[1..][..n - 1];
      assert s[0] in s[..n] && forall c <- s[1..][..n - 1] :: c in s[..n];
      UpToNul(s[1..], n - 1);
    }
  }

  lemma ContextShows(history: seq<LineData>, contextLines: int)
    ensures var c, n := RecalledFor(history, contextLines), ContextCount(history, contextLines);
            |c| == n && forall k :: 0 <= k < n ==> ContextAt(c, k, history, n)
  {
    var c, n := RecalledFor(history, contextLines), ContextCount(history, contextLines);
    if contextLines > 0 {
      assert LastN(history, contextLines) == history[|history| - n..];
    }
    forall k | 0 <= k < n ensures ContextAt(c, k, history, n) {
      assert c[k] == Recall.RecalledLine(history[|history| - n..][k]);
    }
  }

  lemma CopiesShow(inactive: seq<LineData>, memory: nat -> string)
    ensures var d := Duplicates(inactive, memory);
            |d| == |inactive| && forall k :: 0 <= k < |inactive| ==> CopyAt(d, 0, k, inactive)
  {
    forall k | 0 <= k < |inactive| ensures CopyAt(Duplicates(inactive, memory), 0, k, inactive) {
      CStringOfCopy(inactive[k].str, memory(k));
    }
  }

  lemma JoinedShow(c: seq<LineData>, d: seq<LineData>, history: seq<LineData>, contextLines: int,
                   inactive: seq<LineData>, buffered: seq<LineData>)
    requires |c| == ContextCount(history, contextLines) && |d| == |inactive|
    requires forall k :: 0 <= k < |c| ==> ContextAt(c, k, history, |c|)
    requires forall k :: 0 <= k < |d| ==> CopyAt(d, 0, k, inactive)
    ensures Shows(c + d + buffered, history, contextLines, inactive, buffered)
  {
    var q, n, m := c + d + buffered, |c|, |d|;
    forall k | 0 <= k < n ensures ContextAt(q, k, history, n) {
      assert q[k] == c[k] && ContextAt(c, k, history, n);
    }
    forall k | 0 <= k < m ensures CopyAt(q, n, k, inactive) {
      assert q[n + k] == d[k] && CopyAt(d, 0, k, inactive);
    }
    assert q[n + m..] == buffered;
  }

  lemma PartsShow(history: seq<LineData>, contextLines: int, inactive: seq<LineData>, buffered: seq<LineData>,
                  memory: nat -> string)
    ensures Shows(RecalledFor(history, contextLines) + Duplicates(inactive, memory) + buffered,
                  history, contextLines, inactive, buffered)
  {
    ContextShows(history, contextLines);
    CopiesShow(inactive, memory);
    JoinedShow(RecalledFor(history, contextLines), Duplicates(inactive, memory), history, contextLines, inactive, buffered);
  }

  /** A client attaches while none is attached: apart from what mooproxy says itself, the lines
      that are queued for it are the last lines of the history, as many as it wants, then
      copies of the lines that an earlier client may have seen, and then the lines that
      none has seen; and each of these is announced. */
  lemma PromotionShows(p: Pipe, before: seq<Msg>, t: PassTexts, after: seq<Msg>, clock: Clock)
    requires AllOld(p.buffered, p.past.made) && !p.connected
    ensures var p', made := DoNet(p, Promote(before, t, after), clock), p.past.made;
            && p'.connected && p'.buffered == [] && p.to <= p'.to
            && Shows(Others(p'.to[|p.to|..], made), p.history, p.contextLines, p.inactive, p.buffered)
            && Said(p'.to[|p.to|..], made) == before + Announced(p, t) + after
  {
    var p0 := p.(connected := true);
    WelcomeAdds(p0, before, t, after, clock);
    PartsShow(p.history, p.contextLines, p.inactive, p.buffered, t.memory);
    WelcomeKeeps(p0, before, t, after, clock);
  }

  lemma BufferedAreOld(p: Pipe)
    requires Inv(p)
    ensures AllOld(p.buffered, p.past.made)
  {
    forall l <- p.buffered ensures !IsNew(l, p.past.made) {
      assert LineOk(p.past, l);
    }
  }

  lemma WelcomeKeeps(p: Pipe, before: seq<Msg>, t: PassTexts, after: seq<Msg>, clock: Clock)
    ensures var p' := Say(RecallAndPass(Say(p, before, clock), t, clock), after, clock);
            p' == p.(to := p'.to, past := p'.past, buffered := [], droppedInactive := 0, droppedBuffered := 0)
  {
    SaysOnly(p, before, clock);
    PassingKeeps(Say(p, before, clock), t, clock);
    SaysOnly(RecallAndPass(Say(p, before, clock), t, clock), after, clock);
  }

  lemma PassingKeeps(p: Pipe, t: PassTexts, clock: Clock)
    ensures var p' := RecallAndPass(p, t, clock);
            p' == p.(to := p'.to, past := p'.past, buffered := [], droppedInactive := 0, droppedBuffered := 0)
  {
    var p1 := PassHistory(p, t.context, clock);
    var p2 := PassInactive(p1, t.inactive, t.memory, clock);
    assert p1 == p.(to := p1.to, past := p1.past);
    assert p2 == p1.(to := p2.to, past := p2.past);
    var p3 := if p2.buffered != [] then PassBuffered(SayOne(p2, t.buffered, clock)) else p2;
    assert p3 == p2.(to := p3.to, past := p3.past, buffered := []);
    WarningsKeep(SayOne(p3, t.end, clock), t, clock);
  }

  lemma WarningsKeep(p: Pipe, t: PassTexts, clock: Clock)
    ensures var p' := WarnBuffered(WarnInactive(p, t.lostInactive, clock), t.lostBuffered, clock);
            p' == p.(to := p'.to, past := p'.past, droppedInactive := 0, droppedBuffered := 0)
  {
  }

  // ---------------------------------------------------------------------
  // What a client is shown when it asks
  // ---------------------------------------------------------------------

  /** /recall with a number: that many lines, or all, of the history, to which the lines that a
      client may have seen belong from now on. */
  lemma RecallShows(p: Pipe, count: int, m: Msg, clock: Clock)
    ensures var p', h := DoAct(p, ActRecall(count, m), clock), p.history + p.inactive;
            && p'.history == h && p'.inactive == [] && p.to <= p'.to
            && Said(p'.to[|p.to|..], p.past.made) == [m]
            && Shows(Others(p'.to[|p.to|..], p.past.made), h, count, [], [])
  {
    var p1, h := ToHistory(p), p.history + p.inactive;
    RecalledCopies(h, count);
    SayOfferAdds(p1, m, Recall.RecallHistory(h, count), clock, p.past.made);
    RecalledShow(h, count);
  }

  lemma SayOfferAdds(p: Pipe, m: Msg, q: seq<LineData>, clock: Clock, made: nat)
    requires made <= p.past.made && AllOld(q, made)
    ensures Adds(p, Offer(SayOne(p, m, clock), q), made, q, [m])
  {
    var p1 := SayOne(p, m, clock);
    SayOneAdds(p, m, clock, made);
    OfferAdds(p1, Offer(p1, q), q, made);
    AddsThen(p, p1, Offer(p1, q), made, [], q, [m], []);
    EmptyEnds(q);
    EmptyEnds([m]);
  }

  lemma RecalledShow(h: seq<LineData>, count: int)
    ensures Shows(Recall.RecallHistory(h, count), h, count, [], [])
  {
    ContextShows(h, count);
    assert RecalledFor(h, count)[ContextCount(h, count)..] == [];
  }

  /** /recall with options: the lines found, between two messages, or one message if there is
      nothing to search. */
  lemma SearchShows(p: Pipe, params: Recall.Params, none: Msg, header: Msg, footer: Msg, clock: Clock)
    ensures var p', h := DoAct(p, ActSearch(params, none, header, footer), clock), p.history + p.inactive;
            var added := p'.to[|p.to|..];
            && p'.history == h && p'.inactive == [] && p.to <= p'.to
            && (h == [] ==> Said(added, p.past.made) == [none] && Others(added, p.past.made) == [])
            && (h != [] ==>
                  && Said(added, p.past.made) == [header, footer]
                  && Others(added, p.past.made)
                     == Recall.Results(Recall.Inspected(h, Recall.Ordered(params)), params.search, clock))
  {
    var p1, h := ToHistory(p), p.history + p.inactive;
    AddsNothing(p, p1, p.past.made);
    if h == [] {
      SayOneAdds(p1, none, clock, p.past.made);
      AddsThen(p, p1, SayOne(p1, none, clock), p.past.made, [], [], [], [none]);
    } else {
      ResultsCopies(Recall.Inspected(h, Recall.Ordered(params)), params.search, clock);
      BetweenAdds(p1, Recall.Results(Recall.Inspected(h, Recall.Ordered(params)), params.search, clock), header, footer,
                  clock, p.past.made);
    }
  }

  lemma BetweenAdds(p: Pipe, q: seq<LineData>, header: Msg, footer: Msg, clock: Clock, made: nat)
    requires Copies(q) && made <= p.past.made
    ensures Adds(p, SayOne(Offer(SayOne(p, header, clock), q), footer, clock), made, q, [header, footer])
  {
    var p2 := Offer(SayOne(p, header, clock), q);
    SayOfferAdds(p, header, q, clock, made);
    SayOneAdds(p2, footer, clock, made);
    AddsThen(p, p2, SayOne(p2, footer, clock), made, q, [], [header], [footer]);
    EmptyEnds(q);
  }

  // ---------------------------------------------------------------------
  // From client_toqueue to the client
  // ---------------------------------------------------------------------

  /** The lines that are not for the log only, marked so that they are not logged again. */
  function ToClient(q: seq<LineData>): seq<LineData> {
    if q == [] then []
    else (if q[0].flags.logOnly then [] else [q[0].(flags := q[0].flags.(dontLog := true))]) + ToClient(q[1..])
  }

  /** The lines that wait for a client if there is none. */
  function ToBuffer(q: seq<LineData>): seq<LineData> {
    if q == [] then [] else (if q[0].flags.dontBuf then [] else [q[0]]) + ToBuffer(q[1..])
  }

  lemma {:induction false} ReleaseAllGives(p: Pipe, stamp: int -> string)
    ensures var p' := ReleaseAll(p, stamp);
            p' == p.(to := [], tx := p.tx + ToClient(p.to), log := p'.log, past := p'.past)
    decreases |p.to|
  {
    if p.to == [] {
      EmptyEnds(p.tx);
    } else {
      var p1 := ReleaseHead(p, stamp(p.to[0].time));
      ReleaseAllGives(p1, stamp);
      var one := if p.to[0].flags.logOnly then [] else [p.to[0].(flags := p.to[0].flags.(dontLog := true))];
      EmptyEnds(p.tx);
      Assoc(p.tx, one, ToClient(p.to[1..]));
    }
  }

  lemma {:induction false} DetachAllGives(p: Pipe)
    ensures DetachAll(p) == p.(tx := [], buffered := p.buffered + ToBuffer(p.tx))
    decreases |p.tx|
  {
    if p.tx == [] {
      EmptyEnds(p.buffered);
    } else {
      DetachAllGives(DetachHead(p));
      EmptyEnds(p.buffered);
      Assoc(p.buffered, if p.tx[0].flags.dontBuf then [] else [p.tx[0]], ToBuffer(p.tx[1..]));
    }
  }

  lemma {:induction false} FlushClientGives(p: Pipe, k: nat)
    requires p.connected
    ensures var n := if k < |p.tx| then k else |p.tx|;
            FlushClient(p, k) == p.(tx := p.tx[n..], inactive := p.inactive + Flush.Kept(p.tx[..n]))
    decreases k
  {
    var n := if k < |p.tx| then k else |p.tx|;
    if n == 0 {
      EmptyEnds(p.inactive);
    } else {
      var p1 := FlushHead(p);
      FlushClientGives(p1, k - 1);
      FlushStep(p, n);
    }
  }

  lemma FlushStep(p: Pipe, n: nat)
    requires 0 < n <= |p.tx|
    ensures var p1 := FlushHead(p);
            p1.(tx := p1.tx[n - 1..], inactive := p1.inactive + Flush.Kept(p1.tx[..n - 1]))
            == p.(tx := p.tx[n..], inactive := p.inactive + Flush.Kept(p.tx[..n]))
  {
    KeptStep(p.inactive, p.tx, n);
    DropDrop(p.tx, 1, n - 1);
  }

  lemma KeptStep(hist: seq<LineData>, q: seq<LineData>, n: nat)
    requires 0 < n <= |q|
    ensures hist + Flush.Kept(q[..n]) == (if q[0].flags.noHist then hist else hist + [q[0]]) + Flush.Kept(q[1..][..n - 1])
  {
    assert q[..n][1..] == q[1..][..n - 1];
    EmptyEnds(hist);
    Assoc(hist, if q[0].flags.noHist then [] else [q[0]], Flush.Kept(q[1..][..n - 1]));
  }

  /** All lines that are queued for the client, in order: with a client, as many as it takes go to
      it and those that may be in the history become inactive lines, and the others stay queued;
      without one, those that may be buffered are. */
  lemma SendGives(p: Pipe, i: PassInput)
    ensures var all, p' := p.tx + ToClient(p.to), Send(p, i);
            var n := if i.flushed < |all| then i.flushed else |all|;
            && p'.history == p.history && p'.connected == p.connected
            && if p.connected then
                 p'.tx == all[n..] && p'.inactive == p.inactive + Flush.Kept(all[..n]) && p'.buffered == p.buffered
               else p'.tx == [] && p'.inactive == p.inactive && p'.buffered == p.buffered + ToBuffer(all)
  {
    var p0 := ReleaseAll(p, i.stamp);
    ReleaseAllGives(p, i.stamp);
    if !p.connected {
      DetachAllGives(p0);
    }
    FlushOutGives(Detach(p0), i);
  }

  lemma FlushOutGives(p: Pipe, i: PassInput)
    ensures var p' := FlushOut(p, i);
            var n := if i.flushed < |p.tx| then i.flushed else |p.tx|;
            && p'.history == p.history && p'.connected == p.connected && p'.buffered == p.buffered
            && if p.connected then p'.tx == p.tx[n..] && p'.inactive == p.inactive + Flush.Kept(p.tx[..n])
               else p'.tx == p.tx && p'.inactive == p.inactive
  {
    var p1 := p.(log := Logger.FlushLog(p.log, p.logging, i.clock.day, i.logChoice));
    SaysOnly(p1, i.logMsgs, i.clock);
    if p.connected {
      FlushClientGives(Say(p1, i.logMsgs, i.clock), i.flushed);
    }
  }

  /** The queues for the client only grow until they are sent. */
  predicate Grown(p: Pipe, p': Pipe) {
    p.to <= p'.to && p'.tx == p.tx && p'.connected == p.connected
  }

  /** A line of the server on its way to the client: MCP lines are to be passed on and no more. */
  predicate DispatchOf(l: LineData, r: LineData) {
    && l.str == r.str && l.day == r.day && l.time == r.time && l.id == r.id
    && l.flags == if "#$#" <= r.str then LINE_MCP else r.flags
  }

  /** All lines of the server, in order. */
  lemma {:induction false} DispatchGives(p: Pipe)
    ensures var p' := Dispatch(p);
            && p' == p.(rx := [], to := p'.to) && |p'.to| == |p.to| + |p.rx| && p.to <= p'.to
            && forall k :: 0 <= k < |p.rx| ==> DispatchOf(p'.to[|p.to| + k], p.rx[k])
    decreases |p.rx|
  {
    if p.rx != [] {
      var p1, p' := DispatchHead(p), Dispatch(p);
      DispatchGives(p1);
      assert p1.to[|p.to|] == Dispatched(p.rx[0]) && p'.to[|p.to|] == p1.to[|p.to|];
      forall k | 0 <= k < |p.rx| ensures DispatchOf(p'.to[|p.to| + k], p.rx[k]) {
        if k > 0 {
          assert DispatchOf(p'.to[|p1.to| + (k - 1)], p1.rx[k - 1]);
        }
      }
    }
  }

  lemma ActGrows(p: Pipe, a: ClientAct, clock: Clock)
    ensures Grown(p, DoAct(p, a, clock))
  {
    if a.ActSay? {
      SaysOnly(p, a.ms, clock);
    }
  }

  lemma GrownThen(p: Pipe, p1: Pipe, p2: Pipe)
    requires Grown(p, p1) && Grown(p1, p2)
    ensures Grown(p, p2)
  {
  }

  lemma {:induction false} ActsGrow(p: Pipe, acts: seq<ClientAct>, clock: Clock)
    ensures Grown(p, DoActs(p, acts, clock))
    decreases acts
  {
    if acts != [] {
      var p1 := DoAct(p, acts[0], clock);
      ActGrows(p, acts[0], clock);
      ActsGrow(p1, acts[1..], clock);
      GrownThen(p, p1, DoActs(p1, acts[1..], clock));
    }
  }

  lemma ArriveGrows(p: Pipe, i: PassInput)
    ensures Grown(DoNet(p, i.net, i.before), Arrive(p, i))
  {
    var p1 := DoNet(p, i.net, i.before);
    SaysOnly(p1, i.tick, i.clock);
    DispatchGives(Say(p1, i.tick, i.clock));
    ActsGrow(Dispatch(Say(p1, i.tick, i.clock)), i.acts, i.clock);
  }

  /** What is queued for the client in a pass, in this order: what the network brought about, the
      messages of the clock, the lines of the server, and the answers to the client. */
  lemma ArriveOrder(p: Pipe, i: PassInput)
    ensures var p1, p2 := DoNet(p, i.net, i.before), Arrive(p, i);
            var n := |p1.to| + |i.tick|;
            && p1.to <= p2.to && |p2.to| >= n + |p1.rx|
            && (forall k :: 0 <= k < |i.tick| ==> SaidAt(p2.to[|p1.to| + k], i.tick[k], i.clock))
            && (forall k :: 0 <= k < |p1.rx| ==> DispatchOf(p2.to[n + k], p1.rx[k]))
  {
    var p1 := DoNet(p, i.net, i.before);
    var q := Say(p1, i.tick, i.clock);
    SaysOnly(p1, i.tick, i.clock);
    SayGives(p1, i.tick, i.clock);
    DispatchGives(q);
    ActsGrow(Dispatch(q), i.acts, i.clock);
  }

  /** A message of mooproxy, with its flags and the time at which it was written. */
  predicate SaidAt(l: LineData, m: Msg, clock: Clock) {
    l.str == m.str && l.flags == m.flags && l.day == clock.day && l.time == clock.time && l.id.Own?
  }

  lemma {:induction false} SayGives(p: Pipe, ms: seq<Msg>, clock: Clock)
    ensures var p' := Say(p, ms, clock);
            && |p'.to| == |p.to| + |ms| && p.to <= p'.to
            && forall k :: 0 <= k < |ms| ==> SaidAt(p'.to[|p.to| + k], ms[k], clock)
    decreases ms
  {
    if ms != [] {
      var p1, p' := SayOne(p, ms[0], clock), Say(p, ms, clock);
      SayGives(p1, ms[1..], clock);
      assert p'.to[|p.to|] == p1.to[|p.to|];
      forall k | 0 <= k < |ms| ensures SaidAt(p'.to[|p.to| + k], ms[k], clock) {
        if k > 0 {
          assert SaidAt(p'.to[|p1.to| + (k - 1)], ms[1..][k - 1], clock);
        }
      }
    }
  }

  /** Lines that are read have the time at which they are, and no flags yet. */
  lemma {:induction false} ReadGives(p: Pipe, lines: seq<string>, clock: Clock)
    ensures var p' := Read(p, lines, clock);
            && p' == p.(rx := p'.rx, past := p'.past) && |p'.rx| == |p.rx| + |lines| && p.rx <= p'.rx
            && forall k :: 0 <= k < |lines| ==>
                 p'.rx[|p.rx| + k] == LineData(lines[k], clock.day, clock.time, LINE_REGULAR, Wire(p.past.received + k))
    decreases lines
  {
    if lines != [] {
      var p1, p' := ReadLine(p, lines[0], clock), Read(p, lines, clock);
      ReadGives(p1, lines[1..], clock);
      assert p'.rx[|p.rx|] == p1.rx[|p.rx|];
      forall k | 0 <= k < |lines|
        ensures p'.rx[|p.rx| + k] == LineData(lines[k], clock.day, clock.time, LINE_REGULAR, Wire(p.past.received + k))
      {
        if k > 0 {
          assert p'.rx[|p.rx| + k] == p'.rx[|p1.rx| + (k - 1)] && lines[1..][k - 1] == lines[k];
        }
      }
    }
  }

  /** What mooproxy says while the sockets are seen to. */
  function SaidIn(acts: seq<NetAct>): seq<Msg> {
    if acts == [] then []
    else SaidBy(acts[0]) + SaidIn(acts[1..])
  }

  function SaidBy(a: NetAct): seq<Msg> {
    match a case NetRead(_) => [] case NetSay(ms) => ms case NetLost(ms) => ms
  }

  /** The messages are queued, all of them and in order, and a client that was lost is gone. */
  lemma {:induction false} TrafficSays(p: Pipe, acts: seq<NetAct>, clock: Clock, made: nat)
    requires made <= p.past.made
    ensures var p' := DoNetActs(p, acts, clock);
            && Adds(p, p', made, [], SaidIn(acts))
            && p'.connected == (p.connected && forall a <- acts :: !a.NetLost?)
    decreases acts
  {
    if acts == [] {
      AddsNothing(p, p, made);
    } else {
      var p1 := DoNetAct(p, acts[0], clock);
      ActSays(p, acts[0], clock, made);
      TrafficSays(p1, acts[1..], clock, made);
      AddsThen(p, p1, DoNetActs(p1, acts[1..], clock), made, [], [], SaidBy(acts[0]), SaidIn(acts[1..]));
      HeadTail(acts);
    }
  }

  lemma ActSays(p: Pipe, a: NetAct, clock: Clock, made: nat)
    requires made <= p.past.made
    ensures Adds(p, DoNetAct(p, a, clock), made, [], SaidBy(a))
    ensures DoNetAct(p, a, clock).connected == (p.connected && !a.NetLost?)
  {
    match a {
      case NetRead(lines) =>
        ReadGives(p, lines, clock);
        ReadMade(p, lines, clock);
        AddsNothing(p, Read(p, lines, clock), made);
      case NetSay(ms) =>
        SayAdds(p, ms, clock, made);
        SaysOnly(p, ms, clock);
      case NetLost(ms) => SayAdds(p, ms, clock, made);
    }
  }

  lemma {:induction false} ReadMade(p: Pipe, lines: seq<string>, clock: Clock)
    ensures Read(p, lines, clock).past.made == p.past.made
    decreases lines
  {
    if lines != [] {
      ReadMade(ReadLine(p, lines[0], clock), lines[1..], clock);
    }
  }

  /** The complaints of the log, and what handle_flags says, are queued for the next pass. */
  lemma LateMessages(p: Pipe, i: PassInput)
    ensures Adds(p, FlushOut(p, i), p.past.made, [], i.logMsgs)
    ensures Adds(p, HandleFlags(p, i), p.past.made, [], i.flagMsgs)
  {
    var p1 := p.(log := Logger.FlushLog(p.log, p.logging, i.clock.day, i.logChoice));
    SayAdds(p1, i.logMsgs, i.clock, p.past.made);
    FlushClientTo(Say(p1, i.logMsgs, i.clock), i.flushed);
    SayAdds(if i.activated then ToHistory(p) else p, i.flagMsgs, i.clock, p.past.made);
  }

  lemma FlushClientTo(p: Pipe, k: nat)
    ensures FlushClient(p, k).to == p.to && FlushClient(p, k).past == p.past
  {
    if p.connected {
      FlushClientGives(p, k);
    }
  }

  /** The options are those that were set. */
  lemma SetExact(p: Pipe, logging: bool, contextLines: int, clock: Clock)
    ensures var p' := DoAct(p, ActSet(logging, contextLines), clock);
            p'.logging == logging && p'.contextLines == contextLines
            && p == p'.(logging := p.logging, contextLines := p.contextLines)
  {
  }

  /** Which lines those are: each queue loses exactly those that it should. */
  lemma {:induction false} QueuesExact(q: seq<LineData>)
    ensures IsFilter(Flush.Kept(q), q, (l: LineData) => !l.flags.noHist)
    ensures IsFilter(ToBuffer(q), q, (l: LineData) => !l.flags.dontBuf)
  {
    if q == [] {
      FilterNone<LineData>((l: LineData) => !l.flags.noHist);
      FilterNone<LineData>((l: LineData) => !l.flags.dontBuf);
    } else {
      QueuesExact(q[1..]);
      FilterStep(Flush.Kept(q[1..]), q, (l: LineData) => !l.flags.noHist);
      FilterStep(ToBuffer(q[1..]), q, (l: LineData) => !l.flags.dontBuf);
    }
  }

  /** A line as it is for the client. */
  function MarkedLine(l: LineData): LineData {
    l.(flags := l.flags.(dontLog := true))
  }

  function MarkedLines(q: seq<LineData>): seq<LineData> {
    if q == [] then [] else [MarkedLine(q[0])] + MarkedLines(q[1..])
  }

  lemma {:induction false} ToClientExact(q: seq<LineData>) returns (kept: seq<LineData>)
    ensures IsFilter(kept, q, (l: LineData) => !l.flags.logOnly) && ToClient(q) == MarkedLines(kept)
  {
    kept := [];
    if q == [] {
      FilterNone<LineData>((l: LineData) => !l.flags.logOnly);
    } else {
      var rest := ToClientExact(q[1..]);
      FilterStep(rest, q, (l: LineData) => !l.flags.logOnly);
      kept := (if q[0].flags.logOnly then [] else [q[0]]) + rest;
      EmptyEnds(rest);
      EmptyEnds(ToClient(q[1..]));
      ConcatStep([q[0]], rest);
      assert [q[0]][1..] == [];
    }
  }

  lemma DepartedTx(p: Pipe, i: PassInput)
    ensures HandleFlags(Depart(p, i), i).tx == Send(p, i).tx
  {
    var h, n, b := TrimExact(Send(p, i), i.limit, i.logLimit);
    var p1 := Depart(p, i);
    SaysOnly(if i.activated then ToHistory(p1) else p1, i.flagMsgs, i.clock);
  }

  /** In the pass in which a client attaches: of all lines that are queued for it, first what was
      queued before, then what it is to be shown, it has got the first n, and the others are
      queued. */
  ghost predicate LoginShown(to: seq<LineData>, tx: seq<LineData>, made: nat, history: seq<LineData>,
                             contextLines: int, inactive: seq<LineData>, buffered: seq<LineData>, tx': seq<LineData>) {
    exists more: seq<LineData>, rest: seq<LineData>, n: nat ::
      && Shows(Others(more, made), history, contextLines, inactive, buffered)
      && Queued(tx + ToClient(to + more + rest), n, tx')
  }

  predicate Queued(all: seq<LineData>, n: nat, tx: seq<LineData>) {
    n <= |all| && tx == all[n..]
  }

  /** With a client, nothing that is queued for it when the sockets have been seen to is lost in
      the rest of the pass. */
  lemma RestOfPass(p: Pipe, i: PassInput) returns (rest: seq<LineData>, n: nat)
    requires DoNet(p, i.net, i.before).connected
    ensures var p1 := DoNet(p, i.net, i.before);
            Queued(p1.tx + ToClient(p1.to + rest), n, Pass(p, i).tx)
  {
    var p1, p2 := DoNet(p, i.net, i.before), Arrive(p, i);
    ArriveGrows(p, i);
    SendGives(p2, i);
    DepartedTx(p2, i);
    rest := p2.to[|p1.to|..];
    assert p2.to == p1.to + rest;
    var all := p1.tx + ToClient(p1.to + rest);
    n := if i.flushed < |all| then i.flushed else |all|;
  }

  lemma LoginPass(p: Pipe, i: PassInput)
    requires AllOld(p.buffered, p.past.made) && !p.connected && i.net.Promote?
    ensures LoginShown(p.to, p.tx, p.past.made, p.history, p.contextLines, p.inactive, p.buffered, Pass(p, i).tx)
  {
    var p1 := DoNet(p, i.net, i.before);
    PromotionShows(p, i.net.before, i.net.texts, i.net.after, i.before);
    WelcomeKeeps(p.(connected := true), i.net.before, i.net.texts, i.net.after, i.before);
    var rest, n := RestOfPass(p, i);
    ShownBy(p, p1, rest, n, Pass(p, i).tx);
  }

  lemma ShownBy(p: Pipe, p1: Pipe, rest: seq<LineData>, n: nat, tx: seq<LineData>)
    requires p.to <= p1.to && p1.tx == p.tx
    requires Shows(Others(p1.to[|p.to|..], p.past.made), p.history, p.contextLines, p.inactive, p.buffered)
    requires Queued(p1.tx + ToClient(p1.to + rest), n, tx)
    ensures LoginShown(p.to, p.tx, p.past.made, p.history, p.contextLines, p.inactive, p.buffered, tx)
  {
    var more := p1.to[|p.to|..];
    assert p1.to == p.to + more;
    assert Queued(p.tx + ToClient(p.to + more + rest), n, tx);
  }

  lemma OldAtBoundary(start: Pipe, inputs: seq<PassInput>)
    requires IsStart(start)
    ensures var p := Run(start, inputs); AllOld(p.buffered, p.past.made)
  {
    StartIsBoundary(start);
    RunKeeps(start, inputs);
    BufferedAreOld(Run(start, inputs));
  }

  /** So it is for every such pass of any run. */
  lemma LoginsShown(start: Pipe, inputs: seq<PassInput>, k: nat)
    requires IsStart(start) && k < |inputs| && inputs[k].net.Promote? && !Run(start, inputs[..k]).connected
    ensures var p := Run(start, inputs[..k]);
            LoginShown(p.to, p.tx, p.past.made, p.history, p.contextLines, p.inactive, p.buffered,
                       Run(start, inputs[..k + 1]).tx)
  {
    OldAtBoundary(start, inputs[..k]);
    LoginPass(Run(start, inputs[..k]), inputs[k]);
    RunStep(start, inputs, k);
  }

  lemma RunStep(start: Pipe, inputs: seq<PassInput>, k: nat)
    requires k < |inputs|
    ensures Run(start, inputs[..k + 1]) == Pass(Run(start, inputs[..k]), inputs[k])
  {
    SliceSplit(inputs, k, k + 1);
    assert inputs[k..k + 1] == [inputs[k]];
    RunSnoc(start, inputs[..k], inputs[k]);
  }

  lemma {:induction false} RunSnoc(p: Pipe, inputs: seq<PassInput>, i: PassInput)
    ensures Run(p, inputs + [i]) == Pass(Run(p, inputs), i)
    decreases inputs
  {
    if inputs == [] {
      assert inputs + [i] == [i] && [i][1..] == [];
    } else {
      ConcatStep(inputs, [i]);
      RunSnoc(Pass(p, inputs[0]), inputs[1..], i);
    }
  }
}
