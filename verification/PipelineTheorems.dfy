/** What holds of every run of the main loop. */
module PipelineTheorems {
  import Sequences
  import opened Lines
  import Logger
  import opened Pipeline
  import opened PipelineInvariant
  import opened PipelineRun

  // ---------------------------------------------------------------------
  // The lines the server sent
  // ---------------------------------------------------------------------

  function HeardInActs(acts: seq<NetAct>): seq<string> {
    if acts == [] then [] else (if acts[0].NetRead? then acts[0].lines else []) + HeardInActs(acts[1..])
  }

  function HeardIn(net: Net): seq<string> {
    if net.Traffic? then HeardInActs(net.acts) else []
  }

  /** All lines that the server sent in a run. */
  function Heard(inputs: seq<PassInput>): seq<string> {
    if inputs == [] then [] else HeardIn(inputs[0].net) + Heard(inputs[1..])
  }

  /** The regular ones among lines that are numbered from `from`. */
  function RegularKeys(lines: seq<string>, from: nat): seq<Key> {
    if lines == [] then []
    else (if IsMcp(lines[0]) then [] else [Key(from, lines[0])]) + RegularKeys(lines[1..], from + 1)
  }

  lemma {:induction false} RegularKeysConcat(a: seq<string>, b: seq<string>, from: nat)
    ensures RegularKeys(a + b, from) == RegularKeys(a, from) + RegularKeys(b, from + |a|)
  {
    if a == [] {
      assert a + b == b;
    } else {
      assert (a + b)[1..] == a[1..] + b;
      RegularKeysConcat(a[1..], b, from + 1);
    }
  }

  /** After `lines` more lines were heard. */
  predicate Hears(p: Pipe, p': Pipe, lines: seq<string>) {
    && p'.past.received == p.past.received + |lines|
    && p'.past.sent == p.past.sent + RegularKeys(lines, p.past.received)
  }

  lemma HearsThen(p: Pipe, q: Pipe, r: Pipe, a: seq<string>, b: seq<string>)
    requires Hears(p, q, a) && Hears(q, r, b)
    ensures Hears(p, r, a + b)
  {
    RegularKeysConcat(a, b, p.past.received);
    Sequences.Assoc(p.past.sent, RegularKeys(a, p.past.received), RegularKeys(b, p.past.received + |a|));
  }

  lemma {:induction false} ReadHears(p: Pipe, lines: seq<string>, clock: Clock)
    ensures Hears(p, Read(p, lines, clock), lines)
    decreases lines
  {
    if lines != [] {
      var q := ReadLine(p, lines[0], clock);
      var l := NewLine(lines[0], clock, Wire(p.past.received));
      assert Keys([l]) == RegularKeys([lines[0]], p.past.received);
      ReadHears(q, lines[1..], clock);
      HearsThen(p, q, Read(q, lines[1..], clock), [lines[0]], lines[1..]);
      assert [lines[0]] + lines[1..] == lines;
    }
  }

  lemma {:induction false} SayHears(p: Pipe, ms: seq<Msg>, clock: Clock)
    ensures Hears(p, Say(p, ms, clock), [])
    decreases ms
  {
    if ms != [] {
      SayHears(SayOne(p, ms[0], clock), ms[1..], clock);
    }
  }

  lemma {:induction false} DispatchHears(p: Pipe)
    ensures Hears(p, Dispatch(p), [])
    decreases |p.rx|
  {
    if p.rx != [] {
      DispatchHears(DispatchHead(p));
    }
  }

  lemma {:induction false} NetActsHear(p: Pipe, acts: seq<NetAct>, clock: Clock)
    ensures Hears(p, DoNetActs(p, acts, clock), HeardInActs(acts))
    decreases acts
  {
    if acts != [] {
      var q := DoNetAct(p, acts[0], clock);
      match acts[0] {
        case NetRead(lines) => ReadHears(p, lines, clock);
        case NetSay(ms) => SayHears(p, ms, clock);
        case NetLost(ms) => SayHears(p, ms, clock);
      }
      NetActsHear(q, acts[1..], clock);
      HearsThen(p, q, DoNetActs(q, acts[1..], clock),
                if acts[0].NetRead? then acts[0].lines else [], HeardInActs(acts[1..]));
    }
  }

  /** The same lines were heard. */
  predicate SameHeard(p: Pipe, q: Pipe) {
    p.past.received == q.past.received && p.past.sent == q.past.sent
  }

  lemma CopiesNotHeard(p: Pipe, t: PassTexts, clock: Clock)
    ensures SameHeard(p, PassInactive(PassHistory(p, t.context, clock), t.inactive, t.memory, clock))
  {
    var p1 := PassHistory(p, t.context, clock);
    assert SameHeard(p, p1);
    assert SameHeard(p1, PassInactive(p1, t.inactive, t.memory, clock));
  }

  lemma WarningsNotHeard(p: Pipe, t: PassTexts, clock: Clock)
    ensures SameHeard(p, WarnBuffered(WarnInactive(SayOne(p, t.end, clock), t.lostInactive, clock), t.lostBuffered, clock))
  {
    var p1 := WarnInactive(SayOne(p, t.end, clock), t.lostInactive, clock);
    assert SameHeard(p, p1);
    assert SameHeard(p1, WarnBuffered(p1, t.lostBuffered, clock));
  }

  lemma PassAllHears(p: Pipe, t: PassTexts, clock: Clock)
    ensures SameHeard(p, RecallAndPass(p, t, clock))
  {
    var p1 := PassInactive(PassHistory(p, t.context, clock), t.inactive, t.memory, clock);
    CopiesNotHeard(p, t, clock);
    if p1.buffered != [] {
      WarningsNotHeard(PassBuffered(SayOne(p1, t.buffered, clock)), t, clock);
    } else {
      WarningsNotHeard(p1, t, clock);
    }
  }

  lemma PromoteHears(p: Pipe, before: seq<Msg>, texts: PassTexts, after: seq<Msg>, clock: Clock)
    ensures Hears(p, Say(RecallAndPass(Say(p, before, clock), texts, clock), after, clock), [])
  {
    SayHears(p, before, clock);
    PassAllHears(Say(p, before, clock), texts, clock);
    SayHears(RecallAndPass(Say(p, before, clock), texts, clock), after, clock);
  }

  lemma NetHears(p: Pipe, net: Net, clock: Clock)
    ensures Hears(p, DoNet(p, net, clock), HeardIn(net))
  {
    match net {
      case Idle =>
      case Promote(before, texts, after) => PromoteHears(p.(connected := true), before, texts, after, clock);
      case Traffic(acts) => NetActsHear(p, acts, clock);
    }
  }

  lemma {:induction false} ActsHear(p: Pipe, acts: seq<ClientAct>, clock: Clock)
    ensures Hears(p, DoActs(p, acts, clock), [])
    decreases acts
  {
    if acts != [] {
      if acts[0].ActSay? {
        SayHears(p, acts[0].ms, clock);
      }
      ActsHear(DoAct(p, acts[0], clock), acts[1..], clock);
    }
  }

  lemma {:induction false} ReleaseHears(p: Pipe, stamp: int -> string)
    ensures Hears(p, ReleaseAll(p, stamp), [])
    decreases |p.to|
  {
    if p.to != [] {
      ReleaseHears(ReleaseHead(p, stamp(p.to[0].time)), stamp);
    }
  }

  lemma {:induction false} DetachHears(p: Pipe)
    ensures Hears(p, DetachAll(p), [])
    decreases |p.tx|
  {
    if p.tx != [] {
      DetachHears(DetachHead(p));
    }
  }

  lemma {:induction false} FlushHears(p: Pipe, k: nat)
    ensures Hears(p, FlushClient(p, k), [])
    decreases k
  {
    if p.connected && k > 0 && p.tx != [] {
      FlushHears(FlushHead(p), k - 1);
    }
  }

  lemma SendHears(p: Pipe, i: PassInput)
    ensures Hears(p, Send(p, i), [])
  {
    ReleaseHears(p, i.stamp);
    DetachHears(ReleaseAll(p, i.stamp));
    var p1 := Detach(ReleaseAll(p, i.stamp));
    var p2 := p1.(log := Logger.FlushLog(p1.log, p1.logging, i.clock.day, i.logChoice));
    SayHears(p2, i.logMsgs, i.clock);
    FlushHears(Say(p2, i.logMsgs, i.clock), i.flushed);
  }

  lemma PassHears(p: Pipe, i: PassInput)
    ensures Hears(p, Pass(p, i), HeardIn(i.net))
  {
    var p1 := DoNet(p, i.net, i.before);
    NetHears(p, i.net, i.before);
    SayHears(p1, i.tick, i.clock);
    var p2 := Say(p1, i.tick, i.clock);
    DispatchHears(p2);
    ActsHear(Dispatch(p2), i.acts, i.clock);
    SendHears(Arrive(p, i), i);
    var h, n, b := TrimExact(Send(Arrive(p, i), i), i.limit, i.logLimit);
    var p3 := Depart(Arrive(p, i), i);
    SayHears(if i.activated then ToHistory(p3) else p3, i.flagMsgs, i.clock);
  }

  lemma {:induction false} RunHears(p: Pipe, inputs: seq<PassInput>)
    ensures Hears(p, Run(p, inputs), Heard(inputs))
    decreases inputs
  {
    if inputs != [] {
      var q := Pass(p, inputs[0]);
      PassHears(p, inputs[0]);
      RunHears(q, inputs[1..]);
      HearsThen(p, q, Run(q, inputs[1..]), HeardIn(inputs[0].net), Heard(inputs[1..]));
    }
  }

  // ---------------------------------------------------------------------
  // The theorems
  // ---------------------------------------------------------------------

  /** A state between two passes of a run. */
  ghost predicate Reached(p: Pipe, inputs: seq<PassInput>) {
    exists start :: IsStart(start) && p == Run(start, inputs)
  }

  lemma RunFrom(start: Pipe, inputs: seq<PassInput>)
    requires Boundary(start) && start.past.received == 0 && start.past.sent == []
    ensures Boundary(Run(start, inputs)) && Run(start, inputs).past.sent == RegularKeys(Heard(inputs), 0)
  {
    RunKeeps(start, inputs);
    RunHears(start, inputs);
  }

  lemma ReachedIsBoundary(p: Pipe, inputs: seq<PassInput>)
    requires Reached(p, inputs)
    ensures Boundary(p) && p.past.sent == RegularKeys(Heard(inputs), 0)
  {
    var start :| IsStart(start) && p == Run(start, inputs);
    StartIsBoundary(start);
    RunFrom(start, inputs);
  }

  /** Between the passes of any run, the regular server lines in the queues, from history to
      the newest, are the last ones of all that the server sent: whole, in order, each once.
      Lines for the client wait either for a client or for the socket, never both. */
  lemma ServerLinesInOrder(p: Pipe, inputs: seq<PassInput>)
    requires Reached(p, inputs)
    ensures IsSuffix(Keys(p.history + p.inactive + p.tx + p.buffered + p.to + p.rx),
                     RegularKeys(Heard(inputs), 0))
    ensures p.tx == [] || p.buffered == []
  {
    ReachedIsBoundary(p, inputs);
    OrderAsQueues(p);
  }

  lemma OrderAsQueues(p: Pipe)
    requires p.tx == [] || p.buffered == []
    ensures Keys(p.history + p.inactive + p.tx + p.buffered + p.to + p.rx) == Order(p)
  {
    KeysConcat(p.history + p.inactive + p.tx + p.buffered + p.to, p.rx);
    KeysConcat(p.history + p.inactive + p.tx + p.buffered, p.to);
    KeysConcat(p.history + p.inactive + p.tx, p.buffered);
    KeysConcat(p.history + p.inactive, p.tx);
    KeysConcat(p.history, p.inactive);
    Swap(Keys(p.history) + Keys(p.inactive), Keys(p.tx), Keys(p.buffered));
  }

  lemma Swap<T>(a: seq<T>, b: seq<T>, c: seq<T>)
    requires b == [] || c == []
    ensures a + b + c == a + c + b
  {
  }

  /** No pass forgets the history or ends above the budget. */
  ghost predicate Lossless(p: Pipe, inputs: seq<PassInput>)
    decreases inputs
  {
    inputs == [] ||
      var i := inputs[0];
      && (forall a <- i.acts :: !a.ActForget?)
      && WithinBudget(Send(Arrive(p, i), i), i.limit)
      && Lossless(Pass(p, i), inputs[1..])
  }

  lemma {:induction false} RunLosesNone(p: Pipe, inputs: seq<PassInput>)
    requires Boundary(p) && Lossless(p, inputs)
    ensures Lost(Run(p, inputs)) == Lost(p)
    decreases inputs
  {
    if inputs != [] {
      PassKeeps(p, inputs[0]);
      RunLosesNone(Pass(p, inputs[0]), inputs[1..]);
    }
  }

  /** After a run of such passes the queues hold all regular lines that the server sent. */
  lemma NothingLost(start: Pipe, inputs: seq<PassInput>)
    requires IsStart(start) && Lossless(start, inputs)
    ensures var p := Run(start, inputs);
            Keys(p.history + p.inactive + p.tx + p.buffered + p.to + p.rx) == RegularKeys(Heard(inputs), 0)
  {
    StartIsBoundary(start);
    AllKept(start, inputs);
  }

  lemma AllKept(start: Pipe, inputs: seq<PassInput>)
    requires Boundary(start) && start.past.received == 0 && start.past.sent == [] && Lossless(start, inputs)
    ensures var p := Run(start, inputs);
            Keys(p.history + p.inactive + p.tx + p.buffered + p.to + p.rx) == RegularKeys(Heard(inputs), 0)
  {
    RunLosesNone(start, inputs);
    RunFrom(start, inputs);
    WholeQueues(Run(start, inputs));
  }

  lemma WholeQueues(p: Pipe)
    requires Boundary(p) && Lost(p) == 0
    ensures Keys(p.history + p.inactive + p.tx + p.buffered + p.to + p.rx) == p.past.sent
  {
    OrderAsQueues(p);
    WholeSuffix(Order(p), p.past.sent);
  }

  lemma WholeSuffix<T>(a: seq<T>, b: seq<T>)
    requires IsSuffix(a, b) && |a| == |b|
    ensures a == b
  {
  }

  /** No line but a copy is in two places, and copies never get into the history. */
  lemma EachLineOnce(p: Pipe, inputs: seq<PassInput>)
    requires Reached(p, inputs)
    ensures forall id <- AllIds(p) :: id.Copy? || AllIds(p)[id] == 1
    ensures forall l <- p.history + p.inactive :: !l.id.Copy? && !l.flags.noHist
  {
    ReachedIsBoundary(p, inputs);
    forall l <- p.history + p.inactive ensures !l.id.Copy? && !l.flags.noHist {
      assert l in p.history || l in p.inactive;
      assert LineOk(p.past, l);
    }
  }

  lemma {:induction false} NeverLogged(rs: seq<Release>, id: LineId)
    requires forall r <- rs :: r.line.id == id ==> !Loggable(r)
    ensures multiset(LoggedIds(rs))[id] == 0
  {
    if rs != [] {
      NeverLogged(rs[..|rs| - 1], id);
    }
  }

  lemma {:induction false} LoggedAtFirst(rs: seq<Release>, i: nat)
    requires i < |rs| && First(rs, i)
    requires forall j, k :: 0 <= j < k < |rs| && rs[j].line.id == rs[k].line.id ==> !Loggable(rs[k])
    ensures multiset(LoggedIds(rs))[rs[i].line.id] == if Loggable(rs[i]) then 1 else 0
  {
    var n := |rs| - 1;
    if i == n {
      NeverLogged(rs[..n], rs[i].line.id);
    } else {
      LoggedAtFirst(rs[..n], i);
      assert rs[n].line.id == rs[i].line.id ==> !Loggable(rs[n]);
    }
  }

  /** Over any run, however often a line leaves client_toqueue: it is logged exactly once if
      logging was on and the line not flagged LINE_DONTLOG the first time, and never
      otherwise.  A regular server line is not flagged then, and a copy always is. */
  lemma LoggedOnce(p: Pipe, inputs: seq<PassInput>, i: nat)
    requires Reached(p, inputs) && i < |p.past.released| && First(p.past.released, i)
    ensures var r := p.past.released[i];
            && multiset(Ids(p.log.submitted))[r.line.id] == (if r.logging && !r.line.flags.dontLog then 1 else 0)
            && (IsRegular(r.line) ==> !r.line.flags.dontLog)
            && (r.line.id.Copy? ==> r.line.flags.dontLog)
  {
    ReachedIsBoundary(p, inputs);
    LoggedAtFirst(p.past.released, i);
    assert p.past.released[i] in p.past.released;
  }

  /** The files hold what was logged: each day's file with its share of the buffer is made
      of the lines of that day, each cut where flush_buffer cuts it; what is left of the logged
      lines is in the order in which they were logged; losses are counted. */
  lemma LogOfRun(p: Pipe, inputs: seq<PassInput>, day: int)
    requires Reached(p, inputs)
    ensures Logger.FileExact(p.log, day)
    ensures Sequences.Subseq(p.log.handed + p.log.current + p.log.queue, p.log.submitted)
    ensures |p.log.submitted| == |p.log.handed| + |p.log.current| + |p.log.queue| + p.log.dropped + p.log.reported
  {
    ReachedIsBoundary(p, inputs);
  }
}
