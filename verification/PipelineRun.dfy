/** Passes of the main loop (mooproxy.c: mainloop) and whole runs of it. */
module PipelineRun {
  import opened Lines
  import Codec
  import opened Recall
  import opened Logger
  import opened Pipeline
  import opened PipelineInvariant

  // ---------------------------------------------------------------------
  // One pass
  // ---------------------------------------------------------------------

  /** What the select() part of wait_for_network may do with the lines for the client. */
  datatype NetAct =
    | NetRead(lines: seq<string>)       // the lines that a read from the server completes
    | NetSay(ms: seq<Msg>)              // messages about connections, and MCP lines
    | NetLost(ms: seq<Msg>)             // the client is gone

  /** wait_for_network: it may promote a connection to client, or see to the sockets, or
      return at once. */
  datatype Net =
    | Idle
    | Promote(before: seq<Msg>, texts: PassTexts, after: seq<Msg>)
    | Traffic(acts: seq<NetAct>)

  /** What the lines of the client do to the lines for the client. */
  datatype ClientAct =
    | ActSay(ms: seq<Msg>)
    | ActForget(m: Msg)
    | ActRecall(count: int, m: Msg)
    | ActSearch(params: Params, none: Msg, header: Msg, footer: Msg)
    | ActSet(logging: bool, contextLines: int)

  /** All that a pass does not decide itself. */
  datatype PassInput = PassInput(
    before: Clock, net: Net, clock: Clock, tick: seq<Msg>, acts: seq<ClientAct>,
    stamp: int -> string, logChoice: LogChoice, logMsgs: seq<Msg>, flushed: nat,
    limit: nat, logLimit: nat, activated: bool, flagMsgs: seq<Msg>, quit: bool)

  function DoNetAct(p: Pipe, a: NetAct, clock: Clock): Pipe {
    match a
    case NetRead(lines) => Read(p, lines, clock)
    case NetSay(ms) => Say(p, ms, clock)
    case NetLost(ms) => Say(p, ms, clock).(connected := false)
  }

  function DoNetActs(p: Pipe, acts: seq<NetAct>, clock: Clock): Pipe
    decreases acts
  {
    if acts == [] then p else DoNetActs(DoNetAct(p, acts[0], clock), acts[1..], clock)
  }

  function DoNet(p: Pipe, net: Net, clock: Clock): Pipe {
    match net
    case Idle => p
    case Promote(before, texts, after) =>
      if p.connected then p
      else Say(RecallAndPass(Say(p.(connected := true), before, clock), texts, clock), after, clock)
    case Traffic(acts) => DoNetActs(p, acts, clock)
  }

  ghost function DoAct(p: Pipe, a: ClientAct, clock: Clock): Pipe {
    match a
    case ActSay(ms) => Say(p, ms, clock)
    case ActForget(m) => SayOne(Forget(p), m, clock)
    case ActRecall(count, m) =>
      var p1 := ToHistory(p);
      Offer(SayOne(p1, m, clock), RecallHistory(p1.history, count))
    case ActSearch(params, none, header, footer) =>
      var p1 := ToHistory(p);
      var found := Results(Inspected(p1.history, Ordered(params)), params.search, clock);
      if p1.history == [] then SayOne(p1, none, clock)
      else SayOne(Offer(SayOne(p1, header, clock), found), footer, clock)
    case ActSet(logging, contextLines) => p.(logging := logging, contextLines := contextLines)
  }

  ghost function DoActs(p: Pipe, acts: seq<ClientAct>, clock: Clock): Pipe
    decreases acts
  {
    if acts == [] then p else DoActs(DoAct(p, acts[0], clock), acts[1..], clock)
  }

  /** From the network to client_toqueue. */
  ghost function Arrive(p: Pipe, i: PassInput): Pipe {
    DoActs(Dispatch(Say(DoNet(p, i.net, i.before), i.tick, i.clock)), i.acts, i.clock)
  }

  /** From client_toqueue to the flushing of the buffers. */
  function Send(p: Pipe, i: PassInput): Pipe {
    FlushOut(Detach(ReleaseAll(p, i.stamp)), i)
  }

  /** The log and the client are given what they take. */
  function FlushOut(p: Pipe, i: PassInput): Pipe {
    var p1 := Say(p.(log := FlushLog(p.log, p.logging, i.clock.day, i.logChoice)), i.logMsgs, i.clock);
    FlushClient(p1, i.flushed)
  }

  /** From client_toqueue on. */
  function Depart(p: Pipe, i: PassInput): Pipe {
    Trim(Send(p, i), i.limit, i.logLimit)
  }

  /** handle_flags. */
  function HandleFlags(p: Pipe, i: PassInput): Pipe {
    var p1 := Say(if i.activated then ToHistory(p) else p, i.flagMsgs, i.clock);
    if i.quit then p1.(connected := false) else p1
  }

  ghost function Pass(p: Pipe, i: PassInput): Pipe {
    HandleFlags(Depart(Arrive(p, i), i), i)
  }

  ghost function Run(p: Pipe, inputs: seq<PassInput>): Pipe
    decreases inputs
  {
    if inputs == [] then p else Run(Pass(p, inputs[0]), inputs[1..])
  }

  /** A new world: no client, empty queues, any options. */
  predicate IsStart(p: Pipe) {
    && !p.connected
    && p.rx == p.to == p.tx == p.buffered == p.inactive == p.history == []
    && p.log == EMPTY_LOG && p.past == Past(0, 0, [], [])
  }

  // ---------------------------------------------------------------------
  // What holds between passes
  // ---------------------------------------------------------------------

  /** A client that is attached has been passed all buffered lines, and lines wait for it
      in one of the two queues only. */
  predicate Settled(p: Pipe) {
    (p.connected ==> p.buffered == []) && (p.tx == [] || p.buffered == [])
  }

  ghost predicate Busy(p: Pipe) {
    Inv(p) && LogInv(p.log) && Settled(p)
  }

  ghost predicate Boundary(p: Pipe) {
    Busy(p) && p.rx == [] && Keys(p.to) == []
  }

  /** Only client_toqueue (by lines that are not from the server) has changed. */
  predicate OnlySaid(p: Pipe, p': Pipe) {
    && p' == p.(to := p'.to, past := p'.past)
    && p'.past == p.past.(made := p'.past.made)
    && Keys(p'.to) == Keys(p.to)
  }

  lemma {:induction false} SayKeeps(p: Pipe, ms: seq<Msg>, clock: Clock)
    requires Inv(p)
    ensures Inv(Say(p, ms, clock)) && OnlySaid(p, Say(p, ms, clock)) && Lost(Say(p, ms, clock)) == Lost(p)
    decreases ms
  {
    if ms != [] {
      SayOneKeeps(p, ms[0], clock);
      SayKeeps(SayOne(p, ms[0], clock), ms[1..], clock);
    }
  }

  lemma {:induction false} ReadKeeps(p: Pipe, lines: seq<string>, clock: Clock)
    requires Inv(p)
    ensures var p' := Read(p, lines, clock); Inv(p') && Lost(p') == Lost(p) && p' == p.(rx := p'.rx, past := p'.past)
    decreases lines
  {
    if lines != [] {
      ReadLineKeeps(p, lines[0], clock);
      ReadKeeps(ReadLine(p, lines[0], clock), lines[1..], clock);
    }
  }

  lemma {:induction false} DispatchKeeps(p: Pipe)
    requires Inv(p)
    ensures var p' := Dispatch(p); Inv(p') && Lost(p') == Lost(p) && p' == p.(rx := [], to := p'.to)
    decreases |p.rx|
  {
    if p.rx != [] {
      DispatchHeadKeeps(p);
      DispatchKeeps(DispatchHead(p));
    }
  }

  lemma RecalledCopies(h: seq<LineData>, count: int)
    ensures Copies(RecallHistory(h, count))
  {
  }

  lemma {:induction false} ResultsCopies(ls: seq<LineData>, search: Codec.Option<string>, clock: Clock)
    ensures Copies(Results(ls, search, clock))
  {
    if ls != [] {
      ResultsCopies(ls[1..], search, clock);
    }
  }

  lemma WarnInactiveKeeps(p: Pipe, m: Msg, clock: Clock)
    requires Inv(p)
    ensures var p' := WarnInactive(p, m, clock); Inv(p') && Lost(p') == Lost(p) && OnlySaid(p.(droppedInactive := 0), p')
  {
    if p.droppedInactive > 0 {
      SayOneKeeps(p, m, clock);
      Undropped(SayOne(p, m, clock));
    }
  }

  lemma WarnBufferedKeeps(p: Pipe, m: Msg, clock: Clock)
    requires Inv(p)
    ensures var p' := WarnBuffered(p, m, clock); Inv(p') && Lost(p') == Lost(p) && OnlySaid(p.(droppedBuffered := 0), p')
  {
    if p.droppedBuffered > 0 {
      SayOneKeeps(p, m, clock);
      Undropped(SayOne(p, m, clock));
    }
  }

  /** The promoted client is passed everything. */
  lemma RecallAndPassKeeps(p: Pipe, t: PassTexts, clock: Clock)
    requires Inv(p) && Keys(p.to) == [] && (p.tx == [] || p.buffered == [])
    ensures var p' := RecallAndPass(p, t, clock);
            && Inv(p') && Lost(p') == Lost(p) && p'.buffered == []
            && p' == p.(to := p'.to, past := p'.past, buffered := [], droppedInactive := 0, droppedBuffered := 0)
            && p'.past == p.past.(made := p'.past.made)
  {
    PassHistoryKeeps(p, t.context, clock);
    PassInactiveKeeps(PassHistory(p, t.context, clock), t.inactive, t.memory, clock);
    var p1 := PassInactive(PassHistory(p, t.context, clock), t.inactive, t.memory, clock);
    if p1.buffered != [] {
      SayOneKeeps(p1, t.buffered, clock);
      PassBufferedKeeps(SayOne(p1, t.buffered, clock));
    }
    var p2 := if p1.buffered != [] then PassBuffered(SayOne(p1, t.buffered, clock)) else p1;
    SayOneKeeps(p2, t.end, clock);
    var p3 := SayOne(p2, t.end, clock);
    WarnInactiveKeeps(p3, t.lostInactive, clock);
    WarnBufferedKeeps(WarnInactive(p3, t.lostInactive, clock), t.lostBuffered, clock);
  }

  lemma Undropped(p: Pipe)
    requires Inv(p)
    ensures Inv(p.(droppedInactive := 0)) && Inv(p.(droppedBuffered := 0))
    ensures Lost(p.(droppedInactive := 0)) == Lost(p.(droppedBuffered := 0)) == Lost(p)
  {
  }

  lemma Connection(p: Pipe, connected: bool)
    requires Inv(p)
    ensures Inv(p.(connected := connected)) && Lost(p.(connected := connected)) == Lost(p)
  {
  }

  lemma PassHistoryKeeps(p: Pipe, m: Msg, clock: Clock)
    requires Inv(p)
    ensures var p' := PassHistory(p, m, clock); Inv(p') && OnlySaid(p, p') && Lost(p') == Lost(p)
  {
    var q := if p.contextLines > 0 then RecallHistory(p.history, p.contextLines) else [];
    RecalledCopies(p.history, p.contextLines);
    if q != [] {
      SayOneKeeps(p, m, clock);
      OfferKeeps(SayOne(p, m, clock), q);
    }
  }

  lemma PassInactiveKeeps(p: Pipe, m: Msg, memory: nat -> string, clock: Clock)
    requires Inv(p)
    ensures var p' := PassInactive(p, m, memory, clock); Inv(p') && OnlySaid(p, p') && Lost(p') == Lost(p)
  {
    if p.inactive != [] {
      SayOneKeeps(p, m, clock);
      DuplicatesAreCopies(p.inactive, memory);
      OfferKeeps(SayOne(p, m, clock), Duplicates(p.inactive, memory));
    }
  }

  lemma NetActKeeps(p: Pipe, a: NetAct, clock: Clock)
    requires Busy(p)
    ensures Busy(DoNetAct(p, a, clock)) && Lost(DoNetAct(p, a, clock)) == Lost(p)
  {
    match a {
      case NetRead(lines) => ReadKeeps(p, lines, clock);
      case NetSay(ms) => SayKeeps(p, ms, clock);
      case NetLost(ms) =>
        SayKeeps(p, ms, clock);
        Connection(Say(p, ms, clock), false);
    }
  }

  lemma {:induction false} NetActsKeep(p: Pipe, acts: seq<NetAct>, clock: Clock)
    requires Busy(p)
    ensures Busy(DoNetActs(p, acts, clock)) && Lost(DoNetActs(p, acts, clock)) == Lost(p)
    decreases acts
  {
    if acts != [] {
      NetActKeeps(p, acts[0], clock);
      NetActsKeep(DoNetAct(p, acts[0], clock), acts[1..], clock);
    }
  }

  lemma NetKeeps(p: Pipe, net: Net, clock: Clock)
    requires Boundary(p)
    ensures Busy(DoNet(p, net, clock)) && Lost(DoNet(p, net, clock)) == Lost(p)
  {
    match net {
      case Idle =>
      case Promote(before, texts, after) =>
        if !p.connected {
          Connection(p, true);
          var p1 := p.(connected := true);
          SayKeeps(p1, before, clock);
          var p2 := Say(p1, before, clock);
          RecallAndPassKeeps(p2, texts, clock);
          SayKeeps(RecallAndPass(p2, texts, clock), after, clock);
        }
      case Traffic(acts) => NetActsKeep(p, acts, clock);
    }
  }

  lemma ForgetKeeps(p: Pipe)
    requires Inv(p)
    ensures Inv(Forget(p)) && Lost(Forget(p)) >= Lost(p)
  {
    ToHistoryKeeps(p);
    var p1 := ToHistory(p);
    DropHistoryKeeps(p1, |p1.history|);
    assert p1.history[|p1.history|..] == [];
  }

  /** /forget forgets the history and the lines that a client may have seen, and no others. */
  lemma ForgetExact(p: Pipe, m: Msg, clock: Clock)
    ensures var p' := DoAct(p, ActForget(m), clock);
            && p'.history == p'.inactive == [] && p'.buffered == p.buffered && p'.tx == p.tx && p'.rx == p.rx
            && |p'.to| == |p.to| + 1 && p.to <= p'.to
            && Lost(p') == Lost(p) + |Keys(p.history)| + |Keys(p.inactive)|
  {
    var l := OwnLine(m, clock, p.past.made);
    Append(p.to, l);
    KeysOfOne(l);
  }

  /** What a client is known to have seen is history from then on, and a client that should quit
      is gone. */
  lemma FlagsExact(p: Pipe, i: PassInput)
    ensures var q, p' := Depart(Arrive(p, i), i), Pass(p, i);
            && (i.activated ==> p'.history == q.history + q.inactive && p'.inactive == [])
            && (!i.activated ==> p'.history == q.history && p'.inactive == q.inactive)
            && p'.connected == (q.connected && !i.quit) && p'.tx == q.tx && p'.buffered == q.buffered
  {
    var q := Depart(Arrive(p, i), i);
    SaysOnly(if i.activated then ToHistory(q) else q, i.flagMsgs, i.clock);
  }

  lemma {:induction false} SaysOnly(p: Pipe, ms: seq<Msg>, clock: Clock)
    ensures var p' := Say(p, ms, clock); p' == p.(to := p'.to, past := p'.past) && p.to <= p'.to
    decreases ms
  {
    if ms != [] {
      SaysOnly(SayOne(p, ms[0], clock), ms[1..], clock);
    }
  }

  lemma ActKeeps(p: Pipe, a: ClientAct, clock: Clock)
    requires Busy(p) && p.rx == []
    ensures Busy(DoAct(p, a, clock)) && DoAct(p, a, clock).rx == []
    ensures Lost(DoAct(p, a, clock)) >= Lost(p)
    ensures !a.ActForget? ==> Lost(DoAct(p, a, clock)) == Lost(p)
  {
    match a {
      case ActSay(ms) => SayKeeps(p, ms, clock);
      case ActForget(m) =>
        ForgetKeeps(p);
        SayOneKeeps(Forget(p), m, clock);
      case ActRecall(count, m) => RecallKeeps(p, count, m, clock);
      case ActSearch(params, none, header, footer) => SearchKeeps(p, params, none, header, footer, clock);
      case ActSet(logging, contextLines) => Options(p, logging, contextLines);
    }
  }

  lemma RecallKeeps(p: Pipe, count: int, m: Msg, clock: Clock)
    requires Busy(p) && p.rx == []
    ensures var p' := DoAct(p, ActRecall(count, m), clock); Busy(p') && p'.rx == [] && Lost(p') == Lost(p)
  {
    ToHistoryKeeps(p);
    var p1 := ToHistory(p);
    RecalledCopies(p1.history, count);
    SayCopiesKeep(p1, m, RecallHistory(p1.history, count), clock);
  }

  lemma SearchKeeps(p: Pipe, params: Params, none: Msg, header: Msg, footer: Msg, clock: Clock)
    requires Busy(p) && p.rx == []
    ensures var p' := DoAct(p, ActSearch(params, none, header, footer), clock);
            Busy(p') && p'.rx == [] && Lost(p') == Lost(p)
  {
    ToHistoryKeeps(p);
    var p1 := ToHistory(p);
    var lines := Inspected(p1.history, Ordered(params));
    if p1.history == [] {
      SayOneKeeps(p1, none, clock);
    } else {
      ResultsCopies(lines, params.search, clock);
      ShowKeeps(p1, Results(lines, params.search, clock), header, footer, clock);
    }
  }

  lemma SayCopiesKeep(p: Pipe, m: Msg, copies: seq<LineData>, clock: Clock)
    requires Inv(p) && Copies(copies)
    ensures var p' := Offer(SayOne(p, m, clock), copies); Inv(p') && Lost(p') == Lost(p)
  {
    SayOneKeeps(p, m, clock);
    OfferKeeps(SayOne(p, m, clock), copies);
  }

  lemma ShowKeeps(p: Pipe, found: seq<LineData>, header: Msg, footer: Msg, clock: Clock)
    requires Inv(p) && Copies(found)
    ensures var p' := SayOne(Offer(SayOne(p, header, clock), found), footer, clock); Inv(p') && Lost(p') == Lost(p)
  {
    SayCopiesKeep(p, header, found, clock);
    SayOneKeeps(Offer(SayOne(p, header, clock), found), footer, clock);
  }

  lemma Options(p: Pipe, logging: bool, contextLines: int)
    requires Inv(p)
    ensures Inv(p.(logging := logging, contextLines := contextLines))
    ensures Lost(p.(logging := logging, contextLines := contextLines)) == Lost(p)
  {
  }

  lemma {:induction false} ActsKeep(p: Pipe, acts: seq<ClientAct>, clock: Clock)
    requires Busy(p) && p.rx == []
    ensures Busy(DoActs(p, acts, clock)) && DoActs(p, acts, clock).rx == []
    ensures Lost(DoActs(p, acts, clock)) >= Lost(p)
    ensures (forall a <- acts :: !a.ActForget?) ==> Lost(DoActs(p, acts, clock)) == Lost(p)
    decreases acts
  {
    if acts != [] {
      ActKeeps(p, acts[0], clock);
      ActsKeep(DoAct(p, acts[0], clock), acts[1..], clock);
    }
  }

  lemma ArriveKeeps(p: Pipe, i: PassInput)
    requires Boundary(p)
    ensures Busy(Arrive(p, i)) && Arrive(p, i).rx == []
    ensures Lost(Arrive(p, i)) >= Lost(p)
    ensures (forall a <- i.acts :: !a.ActForget?) ==> Lost(Arrive(p, i)) == Lost(p)
  {
    NetKeeps(p, i.net, i.before);
    var p1 := DoNet(p, i.net, i.before);
    SayKeeps(p1, i.tick, i.clock);
    var p2 := Say(p1, i.tick, i.clock);
    DispatchKeeps(p2);
    ActsKeep(Dispatch(p2), i.acts, i.clock);
  }

  /** What every turn of a loop keeps, the loop keeps. */
  lemma {:induction false} ReleaseAllRule(p: Pipe, stamp: int -> string, keep: Pipe -> bool)
    requires keep(p) && forall q: Pipe, s: string :: keep(q) && q.to != [] ==> keep(ReleaseHead(q, s))
    ensures keep(ReleaseAll(p, stamp)) && ReleaseAll(p, stamp).to == []
    decreases |p.to|
  {
    if p.to != [] {
      ReleaseAllRule(ReleaseHead(p, stamp(p.to[0].time)), stamp, keep);
    }
  }

  lemma {:induction false} FlushClientRule(p: Pipe, k: nat, keep: Pipe -> bool)
    requires keep(p) && forall q: Pipe :: keep(q) && q.connected && q.tx != [] ==> keep(FlushHead(q))
    ensures keep(FlushClient(p, k))
    decreases k
  {
    if p.connected && k > 0 && p.tx != [] {
      FlushClientRule(FlushHead(p), k - 1, keep);
    }
  }

  lemma ReleaseAllKeeps(p: Pipe, stamp: int -> string)
    requires Inv(p) && LogInv(p.log)
    ensures var p' := ReleaseAll(p, stamp);
            && Inv(p') && Lost(p') == Lost(p) && LogInv(p'.log) && p'.to == []
            && p' == p.(to := [], tx := p'.tx, log := p'.log, past := p'.past)
  {
    var keep := (q: Pipe) =>
      && Inv(q) && Lost(q) == Lost(p) && LogInv(q.log)
      && q == p.(to := q.to, tx := q.tx, log := q.log, past := q.past);
    forall q: Pipe, s: string | keep(q) && q.to != [] ensures keep(ReleaseHead(q, s)) {
      ReleaseHeadKeeps(q, s);
      SubmitKeeps(q.log, q.to[0], s);
    }
    ReleaseAllRule(p, stamp, keep);
  }

  lemma {:induction false} DetachAllKeeps(p: Pipe)
    requires Inv(p)
    ensures var p' := DetachAll(p); Inv(p') && Lost(p') == Lost(p) && p' == p.(tx := [], buffered := p'.buffered)
    decreases |p.tx|
  {
    if p.tx != [] {
      DetachHeadKeeps(p);
      DetachAllKeeps(DetachHead(p));
    }
  }

  lemma FlushClientKeeps(p: Pipe, k: nat)
    requires Inv(p) && Settled(p)
    ensures var p' := FlushClient(p, k); Inv(p') && Lost(p') == Lost(p) && Settled(p') && FlushedFrom(p', p)
  {
    var keep := (q: Pipe) => Inv(q) && Lost(q) == Lost(p) && Settled(q) && FlushedFrom(q, p);
    forall q: Pipe | keep(q) && q.connected && q.tx != [] ensures keep(FlushHead(q)) {
      FlushHeadKeeps(q);
    }
    FlushClientRule(p, k, keep);
  }

  /** Nothing but these two queues differs. */
  predicate FlushedFrom(p': Pipe, p: Pipe) {
    p' == p.(tx := p'.tx, inactive := p'.inactive)
  }

  lemma TailOfTail(s: seq<LineData>, k: nat)
    requires k < |s|
    ensures s[1..][k..] == s[k + 1..]
    ensures k > 0 ==> s[1..][k - 1..] == s[k..]
  {
  }

  lemma {:induction false} TrimHistoryExact(p: Pipe, limit: nat) returns (k: nat)
    ensures k <= |p.history| && TrimHistory(p, limit) == p.(history := p.history[k..])
    ensures var rest := TotalCost(p.buffered) + TotalCost(p.inactive);
            && (k == |p.history| || rest + TotalCost(p.history[k..]) <= limit)
            && (k > 0 ==> rest + TotalCost(p.history[k - 1..]) > limit)
    decreases |p.history|
  {
    k := 0;
    assert p.history[0..] == p.history;
    if TotalCost(p.buffered) + TotalCost(p.inactive) + TotalCost(p.history) > limit && p.history != [] {
      var p1 := p.(history := p.history[1..]);
      k := TrimHistoryExact(p1, limit);
      TailOfTail(p.history, k);
      k := k + 1;
    }
  }

  lemma {:induction false} TrimInactiveExact(p: Pipe, limit: nat) returns (k: nat)
    ensures k <= |p.inactive|
    ensures TrimInactive(p, limit) == p.(inactive := p.inactive[k..], droppedInactive := p.droppedInactive + k)
    ensures var rest := TotalCost(p.buffered);
            && (k == |p.inactive| || rest + TotalCost(p.inactive[k..]) <= limit)
            && (k > 0 ==> rest + TotalCost(p.inactive[k - 1..]) > limit)
    decreases |p.inactive|
  {
    k := 0;
    assert p.inactive[0..] == p.inactive;
    if TotalCost(p.buffered) + TotalCost(p.inactive) > limit && p.inactive != [] {
      var p1 := p.(inactive := p.inactive[1..], droppedInactive := p.droppedInactive + 1);
      k := TrimInactiveExact(p1, limit);
      TailOfTail(p.inactive, k);
      k := k + 1;
    }
  }

  lemma {:induction false} TrimBufferedExact(p: Pipe, limit: nat) returns (k: nat)
    ensures k <= |p.buffered|
    ensures TrimBuffered(p, limit) == p.(buffered := p.buffered[k..], droppedBuffered := p.droppedBuffered + k)
    ensures k == |p.buffered| || TotalCost(p.buffered[k..]) <= limit
    ensures k > 0 ==> TotalCost(p.buffered[k - 1..]) > limit
    decreases |p.buffered|
  {
    k := 0;
    assert p.buffered[0..] == p.buffered;
    if TotalCost(p.buffered) > limit && p.buffered != [] {
      var p1 := p.(buffered := p.buffered[1..], droppedBuffered := p.droppedBuffered + 1);
      k := TrimBufferedExact(p1, limit);
      TailOfTail(p.buffered, k);
      k := k + 1;
    }
  }

  /** Trimming is exact: the shortest oldest part of the history goes, then, only if the
      history is empty, of the inactive lines, then, only if both are empty, of the
      buffered lines; each inactive or buffered line that is lost is counted; the budget
      holds afterwards. */
  lemma TrimExact(p: Pipe, limit: nat, logLimit: nat) returns (h: nat, i: nat, b: nat)
    ensures h <= |p.history| && i <= |p.inactive| && b <= |p.buffered|
    ensures Trim(p, limit, logLimit)
         == p.(history := p.history[h..], inactive := p.inactive[i..], buffered := p.buffered[b..],
               droppedInactive := p.droppedInactive + i, droppedBuffered := p.droppedBuffered + b,
               log := TrimLog(p.log, logLimit))
    ensures TotalCost(p.history[h..]) + TotalCost(p.inactive[i..]) + TotalCost(p.buffered[b..]) <= limit
    ensures h > 0 ==>
              TotalCost(p.history[h - 1..]) + TotalCost(p.inactive) + TotalCost(p.buffered) > limit
    ensures i > 0 ==> h == |p.history| && TotalCost(p.inactive[i - 1..]) + TotalCost(p.buffered) > limit
    ensures b > 0 ==> h == |p.history| && i == |p.inactive| && TotalCost(p.buffered[b - 1..]) > limit
  {
    h := TrimHistoryExact(p, limit);
    var p1 := TrimHistory(p, limit);
    i := TrimInactiveExact(p1, limit);
    var p2 := TrimInactive(p1, limit);
    b := TrimBufferedExact(p2, limit);
    TailCosts(p.history, h);
    TailCosts(p.inactive, i);
    TailCosts(p.buffered, b);
  }

  lemma TailCosts(s: seq<LineData>, k: nat)
    requires k <= |s|
    ensures TotalCost(s[k..]) <= TotalCost(s)
    ensures k > 0 ==> TotalCost(s[k - 1..]) <= TotalCost(s)
    ensures k == |s| ==> TotalCost(s[k..]) == 0
    ensures k == 0 ==> s[k..] == s
  {
    CostTail(s, k);
    if k > 0 {
      CostTail(s, k - 1);
    }
  }

  lemma CostTail(s: seq<LineData>, k: nat)
    requires k <= |s|
    ensures TotalCost(s[k..]) <= TotalCost(s)
  {
    assert s == s[..k] + s[k..];
    TotalCostConcat(s[..k], s[k..]);
  }

  lemma TrimLogSubmitted(l: Log, limit: nat)
    ensures TrimLog(l, limit).submitted == l.submitted
  {
    var q, c := TrimLogExact(l, limit);
  }

  lemma TrimHistoryKeeps(p: Pipe, limit: nat)
    requires Inv(p)
    ensures Inv(TrimHistory(p, limit)) && Lost(TrimHistory(p, limit)) >= Lost(p)
  {
    var h := TrimHistoryExact(p, limit);
    DropHistoryKeeps(p, h);
  }

  lemma TrimInactiveKeeps(p: Pipe, limit: nat)
    requires Inv(p) && (p.history == [] || TotalCost(p.buffered) + TotalCost(p.inactive) <= limit)
    ensures Inv(TrimInactive(p, limit)) && Lost(TrimInactive(p, limit)) >= Lost(p)
  {
    if p.history == [] {
      var i := TrimInactiveExact(p, limit);
      DropInactiveKeeps(p, i, p.droppedInactive + i);
    }
  }

  lemma TrimBufferedKeeps(p: Pipe, limit: nat)
    requires Inv(p) && (p.history == p.inactive == [] || TotalCost(p.buffered) <= limit)
    ensures Inv(TrimBuffered(p, limit)) && Lost(TrimBuffered(p, limit)) >= Lost(p)
  {
    if p.history == p.inactive == [] {
      var b := TrimBufferedExact(p, limit);
      DropBufferedKeeps(p, b, p.droppedBuffered + b);
    }
  }

  predicate WithinBudget(p: Pipe, limit: nat) {
    TotalCost(p.history) + TotalCost(p.inactive) + TotalCost(p.buffered) <= limit
  }

  lemma TrimLinesKeeps(p: Pipe, limit: nat)
    requires Inv(p)
    ensures Inv(TrimLines(p, limit)) && Lost(TrimLines(p, limit)) >= Lost(p) && TrimLines(p, limit).log == p.log
  {
    var h := TrimHistoryExact(p, limit);
    TrimHistoryKeeps(p, limit);
    var p1 := TrimHistory(p, limit);
    var i := TrimInactiveExact(p1, limit);
    TrimInactiveKeeps(p1, limit);
    var b := TrimBufferedExact(TrimInactive(p1, limit), limit);
    TrimBufferedKeeps(TrimInactive(p1, limit), limit);
  }

  lemma TrimKeeps(p: Pipe, limit: nat, logLimit: nat)
    requires Busy(p)
    ensures var p' := Trim(p, limit, logLimit);
            Busy(p') && p'.rx == p.rx && p'.to == p.to && Lost(p') >= Lost(p)
    ensures WithinBudget(p, limit) ==> Lost(Trim(p, limit, logLimit)) == Lost(p)
  {
    var h, i, b := TrimExact(p, limit, logLimit);
    TrimLinesKeeps(p, limit);
    TrimLogKeeps(p.log, logLimit);
    TrimLogSubmitted(p.log, logLimit);
    LogReplaced(TrimLines(p, limit), TrimLog(p.log, logLimit));
    if WithinBudget(p, limit) {
      assert TrimLines(p, limit) == p;
    }
  }

  lemma LogReplaced(p: Pipe, log: Log)
    requires Inv(p) && log.submitted == p.log.submitted
    ensures Inv(p.(log := log)) && Lost(p.(log := log)) == Lost(p)
  {
  }

  lemma {:induction false} MoveTodaySubmitted(l: Log)
    ensures MoveToday(l).submitted == l.submitted
    decreases |l.queue|
  {
    if l.queue != [] && l.queue[0].day == l.day {
      MoveTodaySubmitted(l.(current := l.current + [l.queue[0]], queue := l.queue[1..]));
    }
  }

  lemma FlushLogSubmitted(l: Log, logging: bool, today: int, c: LogChoice)
    ensures FlushLog(l, logging, today, c).submitted == l.submitted
  {
    MoveTodaySubmitted(l);
  }

  lemma DetachKeeps(p: Pipe)
    requires Inv(p) && (p.connected ==> p.buffered == [])
    ensures var p' := Detach(p);
            Inv(p') && Lost(p') == Lost(p) && Settled(p') && p' == p.(tx := p'.tx, buffered := p'.buffered)
  {
    if !p.connected {
      DetachAllKeeps(p);
    }
  }

  lemma FlushKeeps(p: Pipe, i: PassInput)
    requires Boundary(p)
    ensures Boundary(FlushOut(p, i)) && Lost(FlushOut(p, i)) == Lost(p)
  {
    var log := FlushLog(p.log, p.logging, i.clock.day, i.logChoice);
    FlushLogKeeps(p.log, p.logging, i.clock.day, i.logChoice);
    FlushLogSubmitted(p.log, p.logging, i.clock.day, i.logChoice);
    LogReplaced(p, log);
    SayKeeps(p.(log := log), i.logMsgs, i.clock);
    var p2 := Say(p.(log := log), i.logMsgs, i.clock);
    FlushClientKeeps(p2, i.flushed);
  }

  lemma SendKeeps(p: Pipe, i: PassInput)
    requires Busy(p) && p.rx == []
    ensures Boundary(Send(p, i)) && Lost(Send(p, i)) == Lost(p)
  {
    ReleaseAllKeeps(p, i.stamp);
    var p0 := ReleaseAll(p, i.stamp);
    DetachKeeps(p0);
    FlushKeeps(Detach(p0), i);
  }

  lemma DepartKeeps(p: Pipe, i: PassInput)
    requires Busy(p) && p.rx == []
    ensures Boundary(Depart(p, i)) && Lost(Depart(p, i)) >= Lost(p)
    ensures WithinBudget(Send(p, i), i.limit) ==> Lost(Depart(p, i)) == Lost(p)
  {
    SendKeeps(p, i);
    TrimKeeps(Send(p, i), i.limit, i.logLimit);
  }

  lemma HandleFlagsKeeps(p: Pipe, i: PassInput)
    requires Boundary(p)
    ensures Boundary(HandleFlags(p, i)) && Lost(HandleFlags(p, i)) == Lost(p)
  {
    ToHistoryKeeps(p);
    var p0 := if i.activated then ToHistory(p) else p;
    SayKeeps(p0, i.flagMsgs, i.clock);
    Connection(Say(p0, i.flagMsgs, i.clock), false);
  }

  /** Every pass keeps what holds between passes.  Server lines are lost by trimming and by
      /forget only: a pass without /forget that ends within the budget loses none. */
  lemma PassKeeps(p: Pipe, i: PassInput)
    requires Boundary(p)
    ensures Boundary(Pass(p, i)) && Lost(Pass(p, i)) >= Lost(p)
    ensures (forall a <- i.acts :: !a.ActForget?) && WithinBudget(Send(Arrive(p, i), i), i.limit)
            ==> Lost(Pass(p, i)) == Lost(p)
  {
    ArriveKeeps(p, i);
    DepartKeeps(Arrive(p, i), i);
    HandleFlagsKeeps(Depart(Arrive(p, i), i), i);
  }

  lemma {:induction false} RunKeeps(p: Pipe, inputs: seq<PassInput>)
    requires Boundary(p)
    ensures Boundary(Run(p, inputs)) && Lost(Run(p, inputs)) >= Lost(p)
    decreases inputs
  {
    if inputs != [] {
      PassKeeps(p, inputs[0]);
      RunKeeps(Pass(p, inputs[0]), inputs[1..]);
    }
  }

  lemma StartIsBoundary(p: Pipe)
    requires IsStart(p)
    ensures Boundary(p)
  {
    forall d: int ensures FileExact(EMPTY_LOG, d) {
    }
  }
}
