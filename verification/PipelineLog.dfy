/** While the option logging stays on, the log gets every regular line that the server
    sends, in order (mooproxy.c: mainloop; log.c: world_log_line). */
module PipelineLog {
  import opened Sequences
  import opened Lines
  import Text
  import opened Recall
  import Logger
  import opened Pipeline
  import opened PipelineInvariant
  import opened PipelineRun
  import PipelineTheorems

  // ---------------------------------------------------------------------
  // What has been logged and what has not
  // ---------------------------------------------------------------------

  /** The lines that came from the server. */
  function WireLines(q: seq<LineData>): seq<LineData> {
    if q == [] then [] else (if q[0].id.Wire? then [q[0]] else []) + WireLines(q[1..])
  }

  /** The key of a regular line that is still to be logged. */
  function FreshOne(l: LineData): seq<Key> {
    if IsRegular(l) && !l.flags.dontLog then [Key(l.id.n, l.str)] else []
  }

  function FreshKeys(q: seq<LineData>): seq<Key> {
    if q == [] then [] else FreshOne(q[0]) + FreshKeys(q[1..])
  }

  /** The text of a server line, stripped, at the end of what is logged for it. */
  predicate IsLogOf(x: LineData, k: Key) {
    x.id == Wire(k.n) && IsSuffix(Text.NoAnsi(Text.CString(k.str)), x.str)
  }

  /** The logged lines are those of the lines sent, up to the ones that wait. */
  predicate LoggedUpTo(logged: seq<LineData>, sent: seq<Key>, waiting: seq<Key>) {
    && |logged| + |waiting| == |sent| && sent[|logged|..] == waiting
    && forall i :: 0 <= i < |logged| ==> IsLogOf(logged[i], sent[i])
  }

  /** Lines that are not to be logged any more. */
  predicate Silent(q: seq<LineData>) {
    forall l <- q :: l.flags.dontLog
  }

  /** MCP lines are never to be logged. */
  predicate McpSilent(q: seq<LineData>) {
    forall l <- q :: l.id.Wire? && IsMcp(l.str) ==> l.flags.dontLog
  }

  function Waiting(p: Pipe): seq<Key> {
    FreshKeys(p.to) + FreshKeys(p.rx)
  }

  predicate Feeding(p: Pipe) {
    && p.logging && Silent(p.tx) && Silent(p.buffered) && McpSilent(p.to)
    && LoggedUpTo(WireLines(p.log.submitted), p.past.sent, Waiting(p))
  }

  lemma {:induction false} FreshConcat(a: seq<LineData>, b: seq<LineData>)
    ensures FreshKeys(a + b) == FreshKeys(a) + FreshKeys(b)
  {
    if a == [] {
      EmptyEnds(b);
      EmptyEnds(FreshKeys(b));
    } else {
      ConcatStep(a, b);
      FreshConcat(a[1..], b);
      Assoc(FreshOne(a[0]), FreshKeys(a[1..]), FreshKeys(b));
    }
  }

  lemma FreshSnoc(q: seq<LineData>, l: LineData)
    ensures FreshKeys(q + [l]) == FreshKeys(q) + FreshOne(l)
  {
    FreshConcat(q, [l]);
    assert [l][1..] == [];
    EmptyEnds(FreshOne(l));
  }

  lemma {:induction false} FreshNone(q: seq<LineData>)
    requires forall l <- q :: FreshOne(l) == []
    ensures FreshKeys(q) == []
  {
    if q != [] {
      assert q[0] in q && forall l <- q[1..] :: l in q;
      FreshNone(q[1..]);
    }
  }

  lemma {:induction false} FreshWithinKeys(q: seq<LineData>)
    ensures Keys(q) == [] ==> FreshKeys(q) == []
  {
    if q != [] {
      FreshWithinKeys(q[1..]);
    }
  }

  lemma {:induction false} WireSnoc(q: seq<LineData>, x: LineData)
    ensures WireLines(q + [x]) == WireLines(q) + (if x.id.Wire? then [x] else [])
  {
    if q == [] {
      EmptyEnds([x]);
      assert [x][1..] == [];
    } else {
      ConcatStep(q, [x]);
      WireSnoc(q[1..], x);
      Assoc(if q[0].id.Wire? then [q[0]] else [], WireLines(q[1..]), if x.id.Wire? then [x] else []);
    }
  }

  // ---------------------------------------------------------------------
  // The steps
  // ---------------------------------------------------------------------

  /** Steps that add nothing to log and log nothing. */
  lemma Untouched(p: Pipe, p': Pipe)
    requires Feeding(p) && p'.logging && Silent(p'.tx) && Silent(p'.buffered) && McpSilent(p'.to)
    requires p'.log.submitted == p.log.submitted && p'.past.sent == p.past.sent && Waiting(p') == Waiting(p)
    ensures Feeding(p')
  {
  }

  lemma ReadLineFeeds(p: Pipe, str: string, clock: Clock)
    requires Feeding(p)
    ensures Feeding(ReadLine(p, str, clock))
  {
    var l := NewLine(str, clock, Wire(p.past.received));
    FreshSnoc(p.rx, l);
    KeysOfOne(l);
    Assoc(FreshKeys(p.to), FreshKeys(p.rx), FreshOne(l));
    MoreSent(WireLines(p.log.submitted), p.past.sent, Waiting(p), FreshOne(l));
  }

  lemma MoreSent(logged: seq<LineData>, sent: seq<Key>, waiting: seq<Key>, more: seq<Key>)
    requires LoggedUpTo(logged, sent, waiting)
    ensures LoggedUpTo(logged, sent + more, waiting + more)
  {
  }

  /** Lines for the client that are not to be logged as server lines. */
  lemma OfferFeeds(p: Pipe, q: seq<LineData>, p': Pipe)
    requires Feeding(p) && forall l <- q :: FreshOne(l) == [] && (l.id.Wire? ==> l.flags.dontLog)
    requires p' == p.(to := p.to + q, past := p'.past, buffered := p'.buffered) && p'.past.sent == p.past.sent
    requires Silent(p'.buffered)
    ensures Feeding(p')
  {
    FreshConcat(p.to, q);
    FreshNone(q);
    EmptyEnds(FreshKeys(p.to));
    Untouched(p, p');
  }

  lemma SayOneFeeds(p: Pipe, m: Msg, clock: Clock)
    requires Feeding(p)
    ensures Feeding(SayOne(p, m, clock))
  {
    OfferFeeds(p, [OwnLine(m, clock, p.past.made)], SayOne(p, m, clock));
  }

  lemma DispatchHeadFeeds(p: Pipe)
    requires Feeding(p) && p.rx != []
    ensures Feeding(DispatchHead(p))
  {
    var l := Dispatched(p.rx[0]);
    FreshSnoc(p.to, l);
    Assoc(FreshKeys(p.to), FreshOne(l), FreshKeys(p.rx[1..]));
    Untouched(p, DispatchHead(p));
  }

  lemma ReleaseHeadFeeds(p: Pipe, stamp: string)
    requires Feeding(p) && p.to != []
    ensures Feeding(ReleaseHead(p, stamp))
  {
    var l := p.to[0];
    var p' := ReleaseHead(p, stamp);
    assert l in p.to && forall x <- p.to[1..] :: x in p.to;
    Assoc(FreshOne(l), FreshKeys(p.to[1..]), FreshKeys(p.rx));
    if l.flags.dontLog {
      EmptyEnds(Waiting(p'));
    } else {
      var x := Logger.LogLine(l, stamp);
      WireSnoc(p.log.submitted, x);
      if l.id.Wire? {
        LogOne(WireLines(p.log.submitted), p.past.sent, Waiting(p'), Key(l.id.n, l.str), x);
      } else {
        EmptyEnds(Waiting(p'));
        EmptyEnds(WireLines(p.log.submitted));
      }
    }
  }

  lemma LogOne(logged: seq<LineData>, sent: seq<Key>, waiting: seq<Key>, k: Key, x: LineData)
    requires LoggedUpTo(logged, sent, [k] + waiting) && IsLogOf(x, k)
    ensures LoggedUpTo(logged + [x], sent, waiting)
  {
    var n := |logged|;
    assert sent[n] == sent[n..][0] && sent[n + 1..] == sent[n..][1..];
  }

  // ---------------------------------------------------------------------
  // The loops
  // ---------------------------------------------------------------------

  lemma {:induction false} SayFeeds(p: Pipe, ms: seq<Msg>, clock: Clock)
    requires Feeding(p)
    ensures Feeding(Say(p, ms, clock))
    decreases ms
  {
    if ms != [] {
      SayOneFeeds(p, ms[0], clock);
      SayFeeds(SayOne(p, ms[0], clock), ms[1..], clock);
    }
  }

  lemma {:induction false} ReadFeeds(p: Pipe, lines: seq<string>, clock: Clock)
    requires Feeding(p)
    ensures Feeding(Read(p, lines, clock))
    decreases lines
  {
    if lines != [] {
      ReadLineFeeds(p, lines[0], clock);
      ReadFeeds(ReadLine(p, lines[0], clock), lines[1..], clock);
    }
  }

  lemma {:induction false} DispatchFeeds(p: Pipe)
    requires Feeding(p)
    ensures Feeding(Dispatch(p))
    decreases |p.rx|
  {
    if p.rx != [] {
      DispatchHeadFeeds(p);
      DispatchFeeds(DispatchHead(p));
    }
  }

  lemma ReleaseFeeds(p: Pipe, stamp: int -> string)
    requires Feeding(p)
    ensures Feeding(ReleaseAll(p, stamp))
  {
    forall q: Pipe, s: string | Feeding(q) && q.to != [] ensures Feeding(ReleaseHead(q, s)) {
      ReleaseHeadFeeds(q, s);
    }
    ReleaseAllRule(p, stamp, Feeding);
  }

  lemma {:induction false} DetachFeeds(p: Pipe)
    requires Feeding(p)
    ensures Feeding(DetachAll(p))
    decreases |p.tx|
  {
    if p.tx != [] {
      assert p.tx[0] in p.tx && forall x <- p.tx[1..] :: x in p.tx;
      Untouched(p, DetachHead(p));
      DetachFeeds(DetachHead(p));
    }
  }

  lemma FlushFeeds(p: Pipe, k: nat)
    requires Feeding(p)
    ensures Feeding(FlushClient(p, k))
  {
    forall q: Pipe | Feeding(q) && q.connected && q.tx != [] ensures Feeding(FlushHead(q)) {
      assert forall x <- q.tx[1..] :: x in q.tx;
      Untouched(q, FlushHead(q));
    }
    FlushClientRule(p, k, Feeding);
  }

  lemma CopiesFeed(p: Pipe, q: seq<LineData>)
    requires Feeding(p) && Copies(q)
    ensures Feeding(Offer(p, q))
  {
    OfferFeeds(p, q, Offer(p, q));
  }

  lemma PassCopiesFeeds(p: Pipe, t: PassTexts, clock: Clock)
    requires Feeding(p)
    ensures Feeding(PassInactive(PassHistory(p, t.context, clock), t.inactive, t.memory, clock))
  {
    var q := if p.contextLines > 0 then RecallHistory(p.history, p.contextLines) else [];
    RecalledCopies(p.history, p.contextLines);
    if q != [] {
      SayOneFeeds(p, t.context, clock);
      CopiesFeed(SayOne(p, t.context, clock), q);
    }
    var p1 := PassHistory(p, t.context, clock);
    if p1.inactive != [] {
      SayOneFeeds(p1, t.inactive, clock);
      DuplicatesAreCopies(p1.inactive, t.memory);
      CopiesFeed(SayOne(p1, t.inactive, clock), Duplicates(p1.inactive, t.memory));
    }
  }

  lemma WarnFeeds(p: Pipe, t: PassTexts, clock: Clock)
    requires Feeding(p)
    ensures Feeding(WarnBuffered(WarnInactive(p, t.lostInactive, clock), t.lostBuffered, clock))
  {
    var p1 := WarnInactive(p, t.lostInactive, clock);
    if p.droppedInactive > 0 {
      SayOneFeeds(p, t.lostInactive, clock);
      Untouched(SayOne(p, t.lostInactive, clock), p1);
    }
    if p1.droppedBuffered > 0 {
      SayOneFeeds(p1, t.lostBuffered, clock);
      Untouched(SayOne(p1, t.lostBuffered, clock), WarnBuffered(p1, t.lostBuffered, clock));
    }
  }

  lemma PassAllFeeds(p: Pipe, t: PassTexts, clock: Clock)
    requires Feeding(p)
    ensures Feeding(RecallAndPass(p, t, clock))
  {
    PassCopiesFeeds(p, t, clock);
    var p1 := PassInactive(PassHistory(p, t.context, clock), t.inactive, t.memory, clock);
    var p2 := p1;
    if p1.buffered != [] {
      SayOneFeeds(p1, t.buffered, clock);
      p2 := PassBuffered(SayOne(p1, t.buffered, clock));
      OfferFeeds(SayOne(p1, t.buffered, clock), p1.buffered, p2);
    }
    SayOneFeeds(p2, t.end, clock);
    WarnFeeds(SayOne(p2, t.end, clock), t, clock);
  }

  // ---------------------------------------------------------------------
  // Passes and runs
  // ---------------------------------------------------------------------

  /** No line of the client turns logging off. */
  predicate StaysOn(acts: seq<ClientAct>) {
    forall a <- acts :: a.ActSet? ==> a.logging
  }

  lemma {:induction false} NetActsFeed(p: Pipe, acts: seq<NetAct>, clock: Clock)
    requires Feeding(p)
    ensures Feeding(DoNetActs(p, acts, clock))
    decreases acts
  {
    if acts != [] {
      match acts[0] {
        case NetRead(lines) => ReadFeeds(p, lines, clock);
        case NetSay(ms) => SayFeeds(p, ms, clock);
        case NetLost(ms) =>
          SayFeeds(p, ms, clock);
          Untouched(Say(p, ms, clock), DoNetAct(p, acts[0], clock));
      }
      NetActsFeed(DoNetAct(p, acts[0], clock), acts[1..], clock);
    }
  }

  lemma NetFeeds(p: Pipe, net: Net, clock: Clock)
    requires Feeding(p)
    ensures Feeding(DoNet(p, net, clock))
  {
    match net {
      case Idle =>
      case Promote(before, texts, after) =>
        if !p.connected {
          var p1 := p.(connected := true);
          Untouched(p, p1);
          SayFeeds(p1, before, clock);
          PassAllFeeds(Say(p1, before, clock), texts, clock);
          SayFeeds(RecallAndPass(Say(p1, before, clock), texts, clock), after, clock);
        }
      case Traffic(acts) => NetActsFeed(p, acts, clock);
    }
  }

  lemma ActFeeds(p: Pipe, a: ClientAct, clock: Clock)
    requires Feeding(p) && (a.ActSet? ==> a.logging)
    ensures Feeding(DoAct(p, a, clock))
  {
    var p1 := ToHistory(p);
    Untouched(p, p1);
    match a {
      case ActSay(ms) => SayFeeds(p, ms, clock);
      case ActForget(m) =>
        Untouched(p, Forget(p));
        SayOneFeeds(Forget(p), m, clock);
      case ActRecall(count, m) =>
        SayOneFeeds(p1, m, clock);
        RecalledCopies(p1.history, count);
        CopiesFeed(SayOne(p1, m, clock), RecallHistory(p1.history, count));
      case ActSearch(params, none, header, footer) =>
        var found := Results(Inspected(p1.history, Ordered(params)), params.search, clock);
        SayOneFeeds(p1, none, clock);
        SayOneFeeds(p1, header, clock);
        ResultsCopies(Inspected(p1.history, Ordered(params)), params.search, clock);
        CopiesFeed(SayOne(p1, header, clock), found);
        SayOneFeeds(Offer(SayOne(p1, header, clock), found), footer, clock);
      case ActSet(logging, contextLines) => Untouched(p, DoAct(p, a, clock));
    }
  }

  lemma {:induction false} ActsFeed(p: Pipe, acts: seq<ClientAct>, clock: Clock)
    requires Feeding(p) && StaysOn(acts)
    ensures Feeding(DoActs(p, acts, clock))
    decreases acts
  {
    if acts != [] {
      assert acts[0] in acts && forall a <- acts[1..] :: a in acts;
      ActFeeds(p, acts[0], clock);
      ActsFeed(DoAct(p, acts[0], clock), acts[1..], clock);
    }
  }

  lemma SendFeeds(p: Pipe, i: PassInput)
    requires Feeding(p)
    ensures Feeding(Send(p, i))
  {
    ReleaseFeeds(p, i.stamp);
    var p0 := ReleaseAll(p, i.stamp);
    DetachFeeds(p0);
    var p1 := Detach(p0);
    var p2 := p1.(log := Logger.FlushLog(p1.log, p1.logging, i.clock.day, i.logChoice));
    FlushLogSubmitted(p1.log, p1.logging, i.clock.day, i.logChoice);
    Untouched(p1, p2);
    SayFeeds(p2, i.logMsgs, i.clock);
    FlushFeeds(Say(p2, i.logMsgs, i.clock), i.flushed);
  }

  lemma TrimFeeds(p: Pipe, limit: nat, logLimit: nat)
    requires Feeding(p)
    ensures Feeding(Trim(p, limit, logLimit))
  {
    var h, n, b := TrimExact(p, limit, logLimit);
    TrimLogSubmitted(p.log, logLimit);
    assert forall l <- p.buffered[b..] :: l in p.buffered;
    Untouched(p, Trim(p, limit, logLimit));
  }

  lemma PassFeeds(p: Pipe, i: PassInput)
    requires Feeding(p) && StaysOn(i.acts)
    ensures Feeding(Pass(p, i))
  {
    NetFeeds(p, i.net, i.before);
    var p1 := DoNet(p, i.net, i.before);
    SayFeeds(p1, i.tick, i.clock);
    DispatchFeeds(Say(p1, i.tick, i.clock));
    ActsFeed(Dispatch(Say(p1, i.tick, i.clock)), i.acts, i.clock);
    SendFeeds(Arrive(p, i), i);
    TrimFeeds(Send(Arrive(p, i), i), i.limit, i.logLimit);
    var p2 := Depart(Arrive(p, i), i);
    var p3 := if i.activated then ToHistory(p2) else p2;
    Untouched(p2, p3);
    SayFeeds(p3, i.flagMsgs, i.clock);
    Untouched(Say(p3, i.flagMsgs, i.clock), Pass(p, i));
  }

  lemma {:induction false} RunFeeds(p: Pipe, inputs: seq<PassInput>)
    requires Feeding(p) && forall i <- inputs :: StaysOn(i.acts)
    ensures Feeding(Run(p, inputs))
    decreases inputs
  {
    if inputs != [] {
      assert inputs[0] in inputs && forall i <- inputs[1..] :: i in inputs;
      PassFeeds(p, inputs[0]);
      RunFeeds(Pass(p, inputs[0]), inputs[1..]);
    }
  }

  /** The regular server lines, one by one and in order, are what was logged of them. */
  predicate AllLogged(submitted: seq<LineData>, sent: seq<Key>) {
    var logged := WireLines(submitted);
    |logged| == |sent| && forall i :: 0 <= i < |sent| ==> IsLogOf(logged[i], sent[i])
  }

  /** While logging stays on: between the passes of any run, the log has been given every
      regular line that the server sent, once each and in the order in which they were sent,
      whatever happened to the clients in the meantime. */
  lemma EveryLineLogged(start: Pipe, inputs: seq<PassInput>)
    requires IsStart(start) && start.logging && forall i <- inputs :: StaysOn(i.acts)
    ensures AllLogged(Run(start, inputs).log.submitted, PipelineTheorems.RegularKeys(PipelineTheorems.Heard(inputs), 0))
  {
    RunFeeds(start, inputs);
    var p := Run(start, inputs);
    PipelineTheorems.ReachedIsBoundary(p, inputs);
    FreshWithinKeys(p.to);
    assert Waiting(p) == [];
  }
}
