/** The main loop itself (mooproxy.c: mainloop): any number of its passes on a world are a
    run of `PipelineRun`, so that all that holds of runs holds of the world. */
module MainLoop {
  import opened Sequences
  import opened Lines
  import Text
  import opened Codec
  import Flush
  import Logger
  import opened Pipeline
  import PipelineInvariant
  import opened PipelineRun
  import opened PipelineTheorems
  import opened PipelineLog
  import opened PipelineClient
  import opened Worlds

  /** What select() reports. */
  datatype SockEvent =
    | ServerSends(data: string)
    | ServerLost(ms: seq<Msg>)
    | Notice(ms: seq<Msg>)
    | ClientLost(ms: seq<Msg>)

  /** What wait_for_network finds to do. */
  datatype NetInput =
    | Nothing
    | Login(before: seq<Msg>, texts: PassTexts, after: seq<Msg>)
    | Sockets(events: seq<SockEvent>)

  /** All that a pass gets from outside. */
  datatype LoopInput = LoopInput(
    before: Clock, net: NetInput, clock: Clock, tick: seq<Msg>, acts: seq<ClientAct>, stamp: int -> string,
    logMsgs: seq<Msg>, activated: bool, flagMsgs: seq<Msg>, quit: bool)

  // ---------------------------------------------------------------------
  // What the server sends
  // ---------------------------------------------------------------------

  /** A read() takes what fits in the buffer; a partial line is lost with its connection. */
  function Hear(s: Split, e: SockEvent): Split {
    match e
    case ServerSends(data) => Feed(s, FirstN(data, if |s.rest| < NET_BBUFFER_LEN then NET_BBUFFER_LEN - |s.rest| else 0))
    case ServerLost(_) => Split(s.lines, "")
    case _ => s
  }

  function HearAll(s: Split, events: seq<SockEvent>): Split
    decreases events
  {
    if events == [] then s else HearAll(Hear(s, events[0]), events[1..])
  }

  function HearNet(s: Split, net: NetInput): Split {
    if net.Sockets? then HearAll(s, net.events) else s
  }

  /** The lines in the bytes that the server sends in a run, and what is pending. */
  function ServerStream(s: Split, inputs: seq<LoopInput>): Split
    decreases inputs
  {
    if inputs == [] then s else ServerStream(HearNet(s, inputs[0].net), inputs[1..])
  }

  /** What is read after the server connection was lost does not continue what was pending. */
  lemma NewConnection(s: Split, ms: seq<Msg>, data: string)
    ensures Hear(Hear(s, ServerLost(ms)), ServerSends(data))
         == Split(s.lines + Feed(NOTHING, FirstN(data, NET_BBUFFER_LEN)).lines, Feed(NOTHING, FirstN(data, NET_BBUFFER_LEN)).rest)
  {
    FeedAfter(s.lines, NOTHING, FirstN(data, NET_BBUFFER_LEN));
    EmptyEnds(s.lines);
  }

  lemma HearAfter(lines: seq<string>, s: Split, e: SockEvent)
    ensures Hear(Split(lines + s.lines, s.rest), e) == Split(lines + Hear(s, e).lines, Hear(s, e).rest)
  {
    if e.ServerSends? {
      FeedAfter(lines, s, FirstN(e.data, if |s.rest| < NET_BBUFFER_LEN then NET_BBUFFER_LEN - |s.rest| else 0));
    }
  }

  lemma {:induction false} HearAllAfter(lines: seq<string>, s: Split, events: seq<SockEvent>)
    ensures HearAll(Split(lines + s.lines, s.rest), events)
         == Split(lines + HearAll(s, events).lines, HearAll(s, events).rest)
    decreases events
  {
    if events != [] {
      HearAfter(lines, s, events[0]);
      HearAllAfter(lines, Hear(s, events[0]), events[1..]);
    }
  }

  lemma {:induction false} HearSnoc(s: Split, events: seq<SockEvent>, e: SockEvent)
    ensures HearAll(s, events + [e]) == Hear(HearAll(s, events), e)
    decreases events
  {
    if events == [] {
      assert events + [e] == [e] && [e][1..] == [];
    } else {
      ConcatStep(events, [e]);
      HearSnoc(Hear(s, events[0]), events[1..], e);
    }
  }

  lemma {:induction false} StreamSnoc(s: Split, inputs: seq<LoopInput>, i: LoopInput)
    ensures ServerStream(s, inputs + [i]) == HearNet(ServerStream(s, inputs), i.net)
    decreases inputs
  {
    if inputs == [] {
      assert inputs + [i] == [i] && [i][1..] == [];
    } else {
      ConcatStep(inputs, [i]);
      StreamSnoc(HearNet(s, inputs[0].net), inputs[1..], i);
    }
  }

  lemma {:induction false} HeardActsSnoc(acts: seq<NetAct>, a: NetAct)
    ensures HeardInActs(acts + [a]) == HeardInActs(acts) + HeardInActs([a])
  {
    if acts == [] {
      assert acts + [a] == [a];
    } else {
      ConcatStep(acts, [a]);
      HeardActsSnoc(acts[1..], a);
      Assoc(if acts[0].NetRead? then acts[0].lines else [], HeardInActs(acts[1..]), HeardInActs([a]));
    }
  }

  lemma {:induction false} HeardSnoc(passes: seq<PassInput>, pass: PassInput)
    ensures Heard(passes + [pass]) == Heard(passes) + HeardIn(pass.net)
  {
    if passes == [] {
      assert passes + [pass] == [pass] && [pass][1..] == [];
      EmptyEnds(HeardIn(pass.net));
    } else {
      ConcatStep(passes, [pass]);
      HeardSnoc(passes[1..], pass);
      Assoc(HeardIn(passes[0].net), Heard(passes[1..]), HeardIn(pass.net));
    }
  }

  // ---------------------------------------------------------------------
  // A pass
  // ---------------------------------------------------------------------

  /** Texts that come from the command line of a client are C strings. */
  predicate CleanAct(a: ClientAct) {
    a.ActSearch? && a.params.search.Some? ==> Text.IsCString(a.params.search.value)
  }

  predicate CleanActs(acts: seq<ClientAct>) {
    forall a <- acts :: CleanAct(a)
  }

  /** A read() from the server takes what fits in the buffer. */
  method ReceiveData(w: World, data: string, clock: Clock) returns (ghost a: NetAct)
    requires w.Valid()
    modifies w, w.serverRxbuffer
    ensures w.Valid() && w.Abs() == DoNetAct(old(w.Abs()), a, clock) && w.clientFd == old(w.clientFd)
    ensures Hear(Split([], old(w.Pending())), ServerSends(data)) == Split(HeardInActs([a]), w.Pending())
  {
    var d := FirstN(data, NET_BBUFFER_LEN - w.serverRxfull);
    if d == "" {
      a := NetSay([]);
    } else {
      ghost var lines := w.HandleServerFd(d, clock);
      a := NetRead(lines);
      assert [a][1..] == [];
      EmptyEnds(lines);
    }
  }

  /** One socket. */
  method HandleSocket(w: World, e: SockEvent, clock: Clock) returns (ghost a: NetAct)
    requires w.Valid()
    modifies w, w.serverRxbuffer
    ensures w.Valid() && w.Abs() == DoNetAct(old(w.Abs()), a, clock)
    ensures w.clientFd == old(w.clientFd) || w.clientFd == null
    ensures Hear(Split([], old(w.Pending())), e) == Split(HeardInActs([a]), w.Pending())
  {
    match e {
      case ServerSends(data) =>
        a := ReceiveData(w, data, clock);
      case ServerLost(ms) =>
        w.MsgsClient(ms, clock);
        w.ForgetPending();
        a := NetSay(ms);
      case Notice(ms) =>
        w.MsgsClient(ms, clock);
        a := NetSay(ms);
      case ClientLost(ms) =>
        w.MsgsClient(ms, clock);
        w.DisconnectClient();
        a := NetLost(ms);
    }
  }

  lemma {:induction false} NetActsSnoc(p: Pipe, acts: seq<NetAct>, a: NetAct, clock: Clock)
    ensures DoNetActs(p, acts + [a], clock) == DoNetAct(DoNetActs(p, acts, clock), a, clock)
    decreases acts
  {
    if acts == [] {
      assert acts + [a] == [a] && [a][1..] == [];
    } else {
      ConcatStep(acts, [a]);
      NetActsSnoc(DoNetAct(p, acts[0], clock), acts[1..], a, clock);
    }
  }

  method HandleSockets(w: World, events: seq<SockEvent>, clock: Clock) returns (ghost acts: seq<NetAct>)
    requires w.Valid()
    modifies w, w.serverRxbuffer
    ensures w.Valid() && w.Abs() == DoNetActs(old(w.Abs()), acts, clock)
    ensures w.clientFd == old(w.clientFd) || w.clientFd == null
    ensures HearAll(Split([], old(w.Pending())), events) == Split(HeardInActs(acts), w.Pending())
  {
    acts := [];
    ghost var s := Split([], w.Pending());
    for i := 0 to |events|
      invariant w.Valid() && w.Abs() == DoNetActs(old(w.Abs()), acts, clock)
      invariant w.clientFd == old(w.clientFd) || w.clientFd == null
      invariant HearAll(s, events[..i]) == Split(HeardInActs(acts), w.Pending())
    {
      ghost var pending := w.Pending();
      ghost var a := HandleSocket(w, events[i], clock);
      NetActsSnoc(old(w.Abs()), acts, a, clock);
      HeardActsSnoc(acts, a);
      SliceSplit(events, i, i + 1);
      assert events[i..i + 1] == [events[i]];
      HearSnoc(s, events[..i], events[i]);
      HearAfter(HeardInActs(acts), Split([], pending), events[i]);
      EmptyEnds(HeardInActs(acts));
      acts := acts + [a];
    }
    assert events[..|events|] == events;
  }

  /** wait_for_network, as far as it concerns the lines for the client. */
  method WaitForNetwork(w: World, net: NetInput, clock: Clock) returns (ghost n: Net)
    requires w.Valid()
    modifies w, w.serverRxbuffer
    ensures w.Valid() && w.Abs() == DoNet(old(w.Abs()), n, clock)
    ensures w.clientFd == old(w.clientFd) || w.clientFd == null || fresh(w.clientFd)
    ensures HearNet(Split([], old(w.Pending())), net) == Split(HeardIn(n), w.Pending())
    ensures n.Promote? <==> net.Login?
    ensures net.Login? && !old(w.clientConnected) && AllOld(old(w.bufferedLines), old(w.past.made)) ==>
              && w.clientConnected && w.bufferedLines == [] && old(w.clientToqueue) <= w.clientToqueue
              && Shows(Others(w.clientToqueue[|old(w.clientToqueue)|..], old(w.past.made)),
                       old(w.historyLines), old(w.contextLines), old(w.inactiveLines), old(w.bufferedLines))
  {
    match net {
      case Nothing =>
        n := Idle;
      case Login(before, texts, after) =>
        var fd := new Flush.Fd();
        ghost var p := w.Abs();
        w.PromoteClient(fd, before, texts, after, clock);
        n := Promote(before, texts, after);
        if !p.connected && AllOld(p.buffered, p.past.made) {
          PromotionShows(p, before, texts, after, clock);
        }
      case Sockets(events) =>
        ghost var acts := HandleSockets(w, events, clock);
        n := Traffic(acts);
    }
  }

  /** A line of the client that concerns the lines for the client. */
  method DoClientAct(w: World, a: ClientAct, clock: Clock)
    requires w.Valid() && CleanAct(a)
    modifies w
    ensures w.Valid() && w.Abs() == DoAct(old(w.Abs()), a, clock)
    ensures w.clientFd == old(w.clientFd) && w.serverRxfull == old(w.serverRxfull)
  {
    match a {
      case ActSay(ms) => w.MsgsClient(ms, clock);
      case ActForget(m) => w.CommandForget(m, clock);
      case ActRecall(count, m) => w.CommandRecall(count, m, clock);
      case ActSearch(params, none, header, footer) => w.CommandSearch(params, none, header, footer, clock);
      case ActSet(logging, contextLines) => w.SetOptions(logging, contextLines);
    }
  }

  method DoClientActs(w: World, acts: seq<ClientAct>, clock: Clock)
    requires w.Valid() && CleanActs(acts)
    modifies w
    ensures w.Valid() && w.Abs() == DoActs(old(w.Abs()), acts, clock)
    ensures w.clientFd == old(w.clientFd) && w.serverRxfull == old(w.serverRxfull)
  {
    var i := 0;
    assert acts[0..] == acts;
    while i < |acts|
      invariant i <= |acts| && w.Valid() && w.clientFd == old(w.clientFd) && w.serverRxfull == old(w.serverRxfull)
      invariant DoActs(w.Abs(), acts[i..], clock) == DoActs(old(w.Abs()), acts, clock)
    {
      assert acts[i] in acts && acts[i..][1..] == acts[i + 1..];
      DoClientAct(w, acts[i], clock);
      i := i + 1;
    }
  }

  /** What has arrived in client_toqueue. */
  ghost function Arrived(p: Pipe, n: Net, i: LoopInput): Pipe {
    DoActs(Dispatch(Say(DoNet(p, n, i.before), i.tick, i.clock)), i.acts, i.clock)
  }

  /** The main loop from the network to client_toqueue. */
  method StartPass(w: World, i: LoopInput) returns (ghost n: Net)
    requires w.Valid() && CleanActs(i.acts)
    modifies w, w.serverRxbuffer
    ensures w.Valid() && w.Abs() == Arrived(old(w.Abs()), n, i)
    ensures w.clientFd == old(w.clientFd) || w.clientFd == null || fresh(w.clientFd)
    ensures HearNet(Split([], old(w.Pending())), i.net) == Split(HeardIn(n), w.Pending())
    ensures n.Promote? <==> i.net.Login?
  {
    n := WaitForNetwork(w, i.net, i.before);
    w.MsgsClient(i.tick, i.clock);
    w.DispatchServerLines();
    DoClientActs(w, i.acts, i.clock);
  }

  /** What the second half of a pass needs to know. */
  function RestOf(i: LoopInput, limit: nat, logLimit: nat): PassInput {
    PassInput(i.before, Idle, i.clock, i.tick, i.acts, i.stamp, Logger.LogChoice(true, 0, 0), i.logMsgs, 0,
              limit, logLimit, i.activated, i.flagMsgs, i.quit)
  }

  /** The two halves make a pass. */
  lemma PassMade(p: Pipe, n: Net, i: LoopInput, taken: PassInput)
    requires taken == RestOf(i, taken.limit, taken.logLimit).(logChoice := taken.logChoice, flushed := taken.flushed)
    ensures Pass(p, taken.(net := n)) == HandleFlags(Depart(Arrived(p, n, i), taken), taken)
  {
    var q := Arrived(p, n, i);
    assert Arrive(p, taken.(net := n)) == q;
    assert Send(q, taken.(net := n)) == Send(q, taken);
  }

  /** The main loop from client_toqueue to the end of a pass. */
  method EndPass(w: World, i: LoopInput) returns (ghost taken: PassInput)
    requires w.Valid()
    modifies w, w.book, w.book.logBuffer, w.book.logFd, w.clientTxbuffer, w.clientFd
    ensures w.Valid() && w.Abs() == HandleFlags(Depart(old(w.Abs()), taken), taken)
    ensures w.clientFd == old(w.clientFd) || w.clientFd == null
    ensures w.book.logFd == old(w.book.logFd) || w.book.logFd == null || fresh(w.book.logFd)
    ensures w.serverRxfull == old(w.serverRxfull)
    ensures taken == RestOf(i, taken.limit, taken.logLimit).(logChoice := taken.logChoice, flushed := taken.flushed)
  {
    taken := w.FinishPass(RestOf(i, w.bufferSize * 1024, w.logbufferSize * 1024));
  }

  /** The two halves. */
  method MakePass(w: World, i: LoopInput) returns (ghost pass: PassInput)
    requires w.Valid() && CleanActs(i.acts)
    modifies w, w.serverRxbuffer, w.book, w.book.logBuffer, w.book.logFd, w.clientTxbuffer, w.clientFd
    ensures w.Valid() && w.Abs() == Pass(old(w.Abs()), pass) && pass.acts == i.acts
    ensures w.clientFd == old(w.clientFd) || w.clientFd == null || fresh(w.clientFd)
    ensures w.book.logFd == old(w.book.logFd) || w.book.logFd == null || fresh(w.book.logFd)
    ensures HearNet(Split([], old(w.Pending())), i.net) == Split(HeardIn(pass.net), w.Pending())
    ensures pass.net.Promote? <==> i.net.Login?
  {
    ghost var p := w.Abs();
    ghost var n := StartPass(w, i);
    ghost var taken := EndPass(w, i);
    pass := taken.(net := n);
    PassMade(p, n, i, taken);
  }

  /** One pass.  A client that attaches is shown all that there is to show. */
  method OnePass(w: World, i: LoopInput) returns (ghost pass: PassInput)
    requires w.Valid() && CleanActs(i.acts)
    modifies w, w.serverRxbuffer, w.book, w.book.logBuffer, w.book.logFd, w.clientTxbuffer, w.clientFd
    ensures w.Valid() && w.Abs() == Pass(old(w.Abs()), pass) && pass.acts == i.acts
    ensures w.clientFd == old(w.clientFd) || w.clientFd == null || fresh(w.clientFd)
    ensures w.book.logFd == old(w.book.logFd) || w.book.logFd == null || fresh(w.book.logFd)
    ensures HearNet(Split([], old(w.Pending())), i.net) == Split(HeardIn(pass.net), w.Pending())
    ensures pass.net.Promote? <==> i.net.Login?
    ensures i.net.Login? && !old(w.clientConnected) && AllOld(old(w.bufferedLines), old(w.past.made)) ==>
              LoginShown(old(w.clientToqueue), old(w.clientTxqueue), old(w.past.made), old(w.historyLines),
                         old(w.contextLines), old(w.inactiveLines), old(w.bufferedLines), w.clientTxqueue)
  {
    ghost var p := w.Abs();
    pass := MakePass(w, i);
    if i.net.Login? && !p.connected && AllOld(p.buffered, p.past.made) {
      LoginPass(p, pass);
    }
  }

  /** The run that k passes have made. */
  ghost predicate RunSoFar(inputs: seq<LoopInput>, k: nat, start: Pipe, passes: seq<PassInput>, p: Pipe, pending: string)
    requires k <= |inputs|
  {
    && |passes| == k && p == PipelineRun.Run(start, passes)
    && ServerStream(NOTHING, inputs[..k]) == Split(Heard(passes), pending)
    && forall n :: 0 <= n < k ==> passes[n].acts == inputs[n].acts && (passes[n].net.Promote? <==> inputs[n].net.Login?)
  }

  /** The passes of the main loop on a new world. */
  method Passes(w: World, inputs: seq<LoopInput>) returns (ghost passes: seq<PassInput>)
    requires w.Valid() && w.clientFd == null && w.book.logFd == null && w.serverRxfull == 0
    requires forall i <- inputs :: CleanActs(i.acts)
    modifies w, w.serverRxbuffer, w.book, w.book.logBuffer, w.clientTxbuffer
    ensures w.Valid() && RunSoFar(inputs, |inputs|, old(w.Abs()), passes, w.Abs(), w.Pending())
  {
    passes := [];
    assert w.Pending() == "";
    for k := 0 to |inputs|
      invariant w.Valid() && RunSoFar(inputs, k, old(w.Abs()), passes, w.Abs(), w.Pending())
      invariant (w.clientFd == null || fresh(w.clientFd)) && (w.book.logFd == null || fresh(w.book.logFd))
    {
      assert inputs[k] in inputs;
      ghost var p, pending := w.Abs(), w.Pending();
      ghost var pass := OnePass(w, inputs[k]);
      OneMore(inputs, k, old(w.Abs()), passes, p, pass, pending, w.Pending());
      passes := passes + [pass];
    }
  }

  /** The main loop.  Whatever its passes get from outside: between them, the regular server
      lines in the queues are the last ones of all the lines in the bytes that the server
      sent, whole, in order and each once; they are all of them if no pass forgets the history
      or exceeds the budget; and while logging stays on the log has been given all of them. */
  method Loop(inputs: seq<LoopInput>) returns (w: World, ghost start: Pipe, ghost passes: seq<PassInput>)
    requires forall i <- inputs :: CleanActs(i.acts)
    ensures w.Valid() && |passes| == |inputs| && IsStart(start) && w.Abs() == PipelineRun.Run(start, passes)
    ensures ServerStream(NOTHING, inputs) == Split(Heard(passes), w.Pending())
    ensures PipelineInvariant.IsSuffix(Keys(w.historyLines + w.inactiveLines + w.clientTxqueue + w.bufferedLines
                          + w.clientToqueue + w.serverRxqueue),
                     RegularKeys(ServerStream(NOTHING, inputs).lines, 0))
    ensures Lossless(start, passes) ==>
              Keys(w.historyLines + w.inactiveLines + w.clientTxqueue + w.bufferedLines
                   + w.clientToqueue + w.serverRxqueue)
              == RegularKeys(ServerStream(NOTHING, inputs).lines, 0)
    ensures (forall i <- inputs :: StaysOn(i.acts)) ==>
              AllLogged(w.book.submitted, RegularKeys(ServerStream(NOTHING, inputs).lines, 0))
    ensures forall k :: 0 <= k < |inputs| && inputs[k].net.Login? ==> WelcomedIn(start, passes, k)
  {
    w := new World();
    start := w.Abs();
    passes := Passes(w, inputs);
    assert inputs[..|inputs|] == inputs;
    ServerLinesInOrder(w.Abs(), passes);
    if Lossless(start, passes) {
      NothingLost(start, passes);
    }
    if forall i <- inputs :: StaysOn(i.acts) {
      forall pass <- passes ensures StaysOn(pass.acts) {
        var k :| 0 <= k < |passes| && passes[k] == pass;
        assert inputs[k] in inputs;
      }
      EveryLineLogged(start, passes);
    }
    forall k | 0 <= k < |inputs| && inputs[k].net.Login? ensures WelcomedIn(start, passes, k) {
      if !PipelineRun.Run(start, passes[..k]).connected {
        LoginsShown(start, passes, k);
      }
    }
  }

  /** If no client was attached before pass k, the one that attaches in it is shown all that there
      is to show. */
  ghost predicate WelcomedIn(start: Pipe, passes: seq<PassInput>, k: nat)
    requires k < |passes|
  {
    var p := PipelineRun.Run(start, passes[..k]);
    !p.connected ==>
      LoginShown(p.to, p.tx, p.past.made, p.history, p.contextLines, p.inactive, p.buffered,
                 PipelineRun.Run(start, passes[..k + 1]).tx)
  }

  lemma HeardMore(inputs: seq<LoopInput>, k: nat, passes: seq<PassInput>, pass: PassInput, before: string, after: string)
    requires k < |inputs| && ServerStream(NOTHING, inputs[..k]) == Split(Heard(passes), before)
    requires HearNet(Split([], before), inputs[k].net) == Split(HeardIn(pass.net), after)
    ensures ServerStream(NOTHING, inputs[..k + 1]) == Split(Heard(passes + [pass]), after)
  {
    SliceSplit(inputs, k, k + 1);
    assert inputs[k..k + 1] == [inputs[k]];
    StreamSnoc(NOTHING, inputs[..k], inputs[k]);
    HeardSnoc(passes, pass);
    EmptyEnds(Heard(passes));
    if inputs[k].net.Sockets? {
      HearAllAfter(Heard(passes), Split([], before), inputs[k].net.events);
    }
  }

  lemma OneMore(inputs: seq<LoopInput>, k: nat, start: Pipe, passes: seq<PassInput>, p: Pipe,
                pass: PassInput, before: string, after: string)
    requires k < |inputs| && RunSoFar(inputs, k, start, passes, p, before) && pass.acts == inputs[k].acts
    requires pass.net.Promote? <==> inputs[k].net.Login?
    requires HearNet(Split([], before), inputs[k].net) == Split(HeardIn(pass.net), after)
    ensures RunSoFar(inputs, k + 1, start, passes + [pass], Pass(p, pass), after)
  {
    HeardMore(inputs, k, passes, pass, before, after);
    RunSnoc(start, passes, pass);
  }
}
