/** The client side of a world and the functions of mooproxy.c, world.c and network.c that
    move its lines, against the steps of `Pipeline`.  A queue is a field of type seq; what
    the pointers of a real queue do is in `Lines`. */
module Worlds {
  import Sequences
  import opened Lines
  import Text
  import opened Codec
  import opened Flush
  import opened Recall
  import Logger
  import LogBooks
  import opened Pipeline
  import PipelineInvariant
  import opened PipelineRun
  import PipelineClient

  class World {
    var clientConnected: bool          // client_status == ST_CONNECTED
    var clientFd: Fd?
    var logging: bool
    var contextLines: int
    var bufferSize: nat                // in KiB
    var logbufferSize: nat             // in KiB

    var serverRxqueue: seq<LineData>
    var clientToqueue: seq<LineData>
    var clientTxqueue: seq<LineData>
    var bufferedLines: seq<LineData>
    var inactiveLines: seq<LineData>
    var historyLines: seq<LineData>
    var droppedInactiveLines: nat
    var droppedBufferedLines: nat

    const serverRxbuffer: array<char>
    var serverRxfull: nat
    const clientTxbuffer: array<char>
    var clientTxfull: nat
    var ace: Wrap                      // ace_prestr and ace_poststr

    const book: LogBooks.LogBook
    var past: Past                     // not in the source: what has happened so far

    ghost predicate Valid()
      reads this, book, serverRxbuffer
    {
      && book.Valid()
      && serverRxbuffer != clientTxbuffer && serverRxbuffer != book.logBuffer && clientTxbuffer != book.logBuffer
      && serverRxbuffer.Length == clientTxbuffer.Length == NET_BBUFFER_ALLOC
      && serverRxfull < NET_BBUFFER_LEN && '\n' !in serverRxbuffer[..serverRxfull]
      && clientTxfull <= NET_BBUFFER_ALLOC
      && (clientFd != null <==> clientConnected)
      && ace.networkNl && FitsSlack(ace)
    }

    ghost function Abs(): Pipe
      reads this, book, book.logBuffer
      requires book.Valid()
    {
      Pipe(clientConnected, logging, contextLines, serverRxqueue, clientToqueue, clientTxqueue, bufferedLines,
           inactiveLines, historyLines, droppedInactiveLines, droppedBufferedLines, book.Abs(), past)
    }

    constructor ()
      ensures Valid() && fresh(book) && fresh(book.logBuffer) && fresh(serverRxbuffer) && fresh(clientTxbuffer)
      ensures IsStart(Abs()) && logging && serverRxfull == 0 && clientFd == null && book.logFd == null
    {
      clientConnected, clientFd := false, null;
      logging, contextLines, bufferSize, logbufferSize := true, 100, 4096, 4096;
      serverRxqueue, clientToqueue, clientTxqueue := [], [], [];
      bufferedLines, inactiveLines, historyLines := [], [], [];
      droppedInactiveLines, droppedBufferedLines := 0, 0;
      serverRxbuffer := new char[NET_BBUFFER_ALLOC](_ => '\0');
      clientTxbuffer := new char[NET_BBUFFER_ALLOC](_ => '\0');
      serverRxfull, clientTxfull := 0, 0;
      ace := NETWORK;
      book := new LogBooks.LogBook();
      past := Past(0, 0, [], []);
    }

    /** world_msg_client, with the flags the line is given afterwards. */
    method MsgClient(m: Msg, clock: Clock)
      requires Valid()
      modifies this`clientToqueue, this`past
      ensures Valid() && Abs() == SayOne(old(Abs()), m, clock)
    {
      var line := LineData(m.str, clock.day, clock.time, m.flags, Own(past.made));
      clientToqueue := clientToqueue + [line];
      past := past.(made := past.made + 1);
    }

    method MsgsClient(ms: seq<Msg>, clock: Clock)
      requires Valid()
      modifies this`clientToqueue, this`past
      ensures Valid() && Abs() == Say(old(Abs()), ms, clock)
    {
      var i := 0;
      assert ms[0..] == ms;
      while i < |ms|
        invariant i <= |ms| && Valid()
        invariant Say(Abs(), ms[i..], clock) == Say(old(Abs()), ms, clock)
      {
        MsgClient(ms[i], clock);
        i := i + 1;
      }
    }

    /** The lines of a read are those that were read one by one. */
    lemma {:induction false} StampIsRead(p: Pipe, lines: seq<string>, clock: Clock)
      ensures var p' := Read(p, lines, clock);
              var s := Stamp(lines, clock, p.past.received);
              p' == p.(rx := p.rx + s,
                       past := p.past.(received := p.past.received + |lines|, sent := p.past.sent + Keys(s)))
      decreases lines
    {
      var s := Stamp(lines, clock, p.past.received);
      if lines == [] {
        assert p.rx + s == p.rx && p.past.sent + [] == p.past.sent;
      } else {
        var q := ReadLine(p, lines[0], clock);
        StampIsRead(q, lines[1..], clock);
        var l, rest := NewLine(lines[0], clock, Wire(p.past.received)), Stamp(lines[1..], clock, q.past.received);
        assert s == [l] + rest;
        PipelineInvariant.KeysConcat([l], rest);
        Sequences.Assoc(p.rx, [l], rest);
        Sequences.Assoc(p.past.sent, Keys([l]), Keys(rest));
      }
    }

    /** Lines from the server are queued. */
    method QueueFromServer(queue: seq<LineData>, ghost lines: seq<string>, clock: Clock)
      requires Valid() && queue == Stamp(lines, clock, past.received)
      modifies this`serverRxqueue, this`past
      ensures Valid() && Abs() == Read(old(Abs()), lines, clock)
    {
      StampIsRead(Abs(), lines, clock);
      serverRxqueue := serverRxqueue + queue;
      past := past.(received := past.received + |queue|, sent := past.sent + Keys(queue));
    }

    /** handle_server_fd when data arrives: any that fits in what is left of the buffer. */
    method HandleServerFd(data: string, clock: Clock) returns (ghost lines: seq<string>)
      requires Valid() && 0 < |data| <= NET_BBUFFER_LEN - serverRxfull
      modifies this`serverRxfull, this`serverRxqueue, this`past, serverRxbuffer
      ensures Valid() && Abs() == Read(old(Abs()), lines, clock)
      ensures Feed(Split([], old(Pending())), data) == Split(lines, Pending())
    {
      lines := Feed(Split([], Pending()), data).lines;
      var full, queue := ReceiveLines(serverRxbuffer, serverRxfull, data, [], clock, past.received);
      serverRxfull := full;
      assert queue == Stamp(lines, clock, past.received);
      QueueFromServer(queue, lines, clock);
    }

    /** The part of world_disconnect_server that concerns the lines: what is pending is lost. */
    method ForgetPending()
      requires Valid()
      modifies this`serverRxfull
      ensures Valid() && Abs() == old(Abs()) && serverRxfull == 0
    {
      serverRxfull := 0;
      assert serverRxbuffer[..0] == "";
    }

    /** What is pending from the server. */
    ghost function Pending(): string
      reads this, serverRxbuffer
      requires serverRxfull <= serverRxbuffer.Length
    {
      serverRxbuffer[..serverRxfull]
    }

    /** From server_rxqueue to client_toqueue; MCP lines are marked. */
    method DispatchServerLines()
      requires Valid()
      modifies this`serverRxqueue, this`clientToqueue
      ensures Valid() && Abs() == Dispatch(old(Abs()))
    {
      while serverRxqueue != []
        invariant Valid() && Dispatch(Abs()) == Dispatch(old(Abs()))
        decreases |serverRxqueue|
      {
        var line := serverRxqueue[0];
        serverRxqueue := serverRxqueue[1..];
        if IsMcp(line.str) {
          line := line.(flags := LINE_MCP);
        }
        clientToqueue := clientToqueue + [line];
      }
    }

    /** world_inactive_to_history. */
    method InactiveToHistory()
      requires Valid()
      modifies this`historyLines, this`inactiveLines
      ensures Valid() && Abs() == ToHistory(old(Abs()))
    {
      historyLines := historyLines + inactiveLines;
      inactiveLines := [];
    }

    /** command_forget. */
    method CommandForget(m: Msg, clock: Clock)
      requires Valid()
      modifies this`historyLines, this`inactiveLines, this`clientToqueue, this`past
      ensures Valid() && Abs() == DoAct(old(Abs()), ActForget(m), clock)
    {
      InactiveToHistory();
      historyLines := [];
      MsgClient(m, clock);
    }

    /** command_recall with a number. */
    method CommandRecall(count: int, m: Msg, clock: Clock)
      requires Valid()
      modifies this`historyLines, this`inactiveLines, this`clientToqueue, this`past
      ensures Valid() && Abs() == DoAct(old(Abs()), ActRecall(count, m), clock)
    {
      InactiveToHistory();
      var queue := WorldRecallHistory(historyLines, count);
      MsgClient(m, clock);
      clientToqueue := clientToqueue + queue;
    }

    /** command_recall with options, and world_recall_command. */
    method CommandSearch(params: Params, none: Msg, header: Msg, footer: Msg, clock: Clock)
      requires Valid() && (params.search.Some? ==> Text.IsCString(params.search.value))
      modifies this`historyLines, this`inactiveLines, this`clientToqueue, this`past
      ensures Valid() && Abs() == DoAct(old(Abs()), ActSearch(params, none, header, footer), clock)
    {
      InactiveToHistory();
      if historyLines == [] {
        MsgClient(none, clock);
      } else {
        var p := params;
        if p.from > p.to {
          p := p.(from := p.to, to := p.from);
        }
        ShowFound(p, header, footer, clock);
      }
    }

    /** The lines found, between two messages. */
    method ShowFound(p: Params, header: Msg, footer: Msg, clock: Clock)
      requires Valid() && (p.search.Some? ==> Text.IsCString(p.search.value))
      modifies this`clientToqueue, this`past
      ensures Valid()
      ensures var found := Results(Inspected(historyLines, p), p.search, clock);
              Abs() == SayOne(Offer(SayOne(old(Abs()), header, clock), found), footer, clock)
    {
      MsgClient(header, clock);
      var tally := SearchAndRecall(historyLines, p, clock);
      clientToqueue := clientToqueue + tally.out;
      MsgClient(footer, clock);
    }

    /** The options that matter to the lines for the client. */
    method SetOptions(newLogging: bool, newContextLines: int)
      requires Valid()
      modifies this`logging, this`contextLines
      ensures Valid() && Abs() == old(Abs()).(logging := newLogging, contextLines := newContextLines)
    {
      logging := newLogging;
      contextLines := newContextLines;
    }

    /** Copies of the inactive lines, flagged so that they never get to the history. */
    method DuplicateInactive(memory: nat -> string) returns (copies: seq<LineData>)
      ensures copies == Duplicates(inactiveLines, memory)
    {
      copies := [];
      var i := 0;
      while i < |inactiveLines|
        invariant i <= |inactiveLines| && copies == Duplicates(inactiveLines, memory)[..i]
      {
        var recalled := inactiveLines[i].(str := DupText(inactiveLines[i].str, memory(i)));
        copies := copies + [recalled.(flags := LINE_RECALLED, id := Copy)];
        i := i + 1;
      }
    }

    /** The context lines of world_recall_and_pass. */
    method PassContext(m: Msg, clock: Clock)
      requires Valid()
      modifies this`clientToqueue, this`past
      ensures Valid() && Abs() == PassHistory(old(Abs()), m, clock)
    {
      if contextLines > 0 {
        var queue := WorldRecallHistory(historyLines, contextLines);
        if queue != [] {
          MsgClient(m, clock);
          clientToqueue := clientToqueue + queue;
        }
      }
    }

    /** The possibly new lines of world_recall_and_pass. */
    method PassPossiblyNew(m: Msg, memory: nat -> string, clock: Clock)
      requires Valid()
      modifies this`clientToqueue, this`past
      ensures Valid() && Abs() == PassInactive(old(Abs()), m, memory, clock)
    {
      if inactiveLines != [] {
        MsgClient(m, clock);
        var copies := DuplicateInactive(memory);
        clientToqueue := clientToqueue + copies;
      }
    }

    /** The certainly new lines. */
    method PassCertainlyNew(m: Msg, clock: Clock)
      requires Valid()
      modifies this`clientToqueue, this`past, this`bufferedLines
      ensures Valid()
      ensures Abs() == if old(Abs()).buffered != [] then PassBuffered(SayOne(old(Abs()), m, clock)) else old(Abs())
    {
      if bufferedLines != [] {
        MsgClient(m, clock);
        clientToqueue := clientToqueue + bufferedLines;
        bufferedLines := [];
      }
    }

    method WarnAboutDropped(t: PassTexts, clock: Clock)
      requires Valid()
      modifies this`clientToqueue, this`past, this`droppedInactiveLines, this`droppedBufferedLines
      ensures Valid()
      ensures Abs() == WarnBuffered(WarnInactive(old(Abs()), t.lostInactive, clock), t.lostBuffered, clock)
    {
      if droppedInactiveLines > 0 {
        MsgClient(t.lostInactive, clock);
        droppedInactiveLines := 0;
      }
      if droppedBufferedLines > 0 {
        MsgClient(t.lostBuffered, clock);
        droppedBufferedLines := 0;
      }
    }

    /** world_recall_and_pass. */
    method RecallAndPassLines(t: PassTexts, clock: Clock)
      requires Valid()
      modifies this`clientToqueue, this`past, this`bufferedLines, this`droppedInactiveLines, this`droppedBufferedLines
      ensures Valid() && Abs() == RecallAndPass(old(Abs()), t, clock)
    {
      PassContext(t.context, clock);
      PassPossiblyNew(t.inactive, t.memory, clock);
      PassCertainlyNew(t.buffered, clock);
      MsgClient(t.end, clock);
      WarnAboutDropped(t, clock);
    }

    /** The part of promote_auth_connection that concerns the lines for the client. */
    method PromoteClient(fd: Fd, before: seq<Msg>, t: PassTexts, after: seq<Msg>, clock: Clock)
      requires Valid()
      modifies this`clientConnected, this`clientFd, this`clientToqueue, this`past, this`bufferedLines,
               this`droppedInactiveLines, this`droppedBufferedLines
      ensures Valid() && Abs() == DoNet(old(Abs()), Promote(before, t, after), clock)
      ensures clientFd == old(clientFd) || clientFd == fd
    {
      if clientConnected {
        return;
      }
      AttachClient(fd);
      WelcomeClient(before, t, after, clock);
    }

    method AttachClient(fd: Fd)
      requires Valid() && !clientConnected
      modifies this`clientConnected, this`clientFd
      ensures Valid() && Abs() == old(Abs()).(connected := true) && clientFd == fd
    {
      clientConnected, clientFd := true, fd;
    }

    method WelcomeClient(before: seq<Msg>, t: PassTexts, after: seq<Msg>, clock: Clock)
      requires Valid()
      modifies this`clientToqueue, this`past, this`bufferedLines, this`droppedInactiveLines, this`droppedBufferedLines
      ensures Valid() && Abs() == Say(RecallAndPass(Say(old(Abs()), before, clock), t, clock), after, clock)
    {
      MsgsClient(before, clock);
      RecallAndPassLines(t, clock);
      MsgsClient(after, clock);
    }

    /** world_disconnect_client. */
    method DisconnectClient()
      requires Valid()
      modifies this`clientConnected, this`clientFd, this`clientTxfull, this`ace
      ensures Valid() && Abs() == old(Abs()).(connected := false) && clientFd == null
    {
      ace := NETWORK;
      clientFd := null;
      clientTxfull := 0;
      clientConnected := false;
    }

    /** From client_toqueue to client_txqueue; the log gets its copy. */
    method ProcessToqueue(stamp: int -> string)
      requires Valid()
      modifies this`clientToqueue, this`clientTxqueue, this`past, book
      ensures Valid() && book.logFd == old(book.logFd)
      ensures Abs() == ReleaseAll(old(Abs()), stamp)
    {
      while clientToqueue != []
        invariant Valid() && book.logFd == old(book.logFd)
        invariant ReleaseAll(Abs(), stamp) == ReleaseAll(old(Abs()), stamp)
        decreases |clientToqueue|
      {
        ProcessOne(stamp);
      }
    }

    method ProcessOne(stamp: int -> string)
      requires Valid() && clientToqueue != []
      modifies this`clientToqueue, this`clientTxqueue, this`past, book
      ensures Valid() && book.logFd == old(book.logFd)
      ensures Abs() == ReleaseHead(old(Abs()), stamp(old(clientToqueue[0]).time))
    {
      var line := clientToqueue[0];
      clientToqueue := clientToqueue[1..];
      past := past.(released := past.released + [Release(line, logging)]);
      if logging && !line.flags.dontLog {
        book.LogLine(line, stamp(line.time));
      }
      // A buffered line passes here again.
      line := line.(flags := line.flags.(dontLog := true));
      if !line.flags.logOnly {
        clientTxqueue := clientTxqueue + [line];
      }
    }

    /** Without a client, what it would get is buffered. */
    method MoveToBuffer()
      requires Valid()
      modifies this`clientTxqueue, this`bufferedLines
      ensures Valid() && Abs() == Detach(old(Abs()))
    {
      if clientConnected {
        return;
      }
      while clientTxqueue != []
        invariant Valid() && DetachAll(Abs()) == DetachAll(old(Abs()))
        decreases |clientTxqueue|
      {
        var line := clientTxqueue[0];
        clientTxqueue := clientTxqueue[1..];
        if !line.flags.dontBuf {
          bufferedLines := bufferedLines + [line];
        }
      }
    }

    /** What flush_buffer does to the queues is to take lines one by one. */
    /** world_flush_client_txbuf: k lines are taken, and what the client has got is, with what
        is in the buffer, what it was before and the encoding of these lines. */
    method FlushClientTxbuf() returns (ghost k: nat)
      requires Valid()
      modifies this`clientTxfull, this`clientTxqueue, this`inactiveLines, clientTxbuffer, clientFd
      ensures Valid() && Abs() == FlushClient(old(Abs()), k) && k <= old(|clientTxqueue|)
      ensures clientFd == null ==> k == 0
      ensures clientFd != null ==>
                clientFd.accepted + clientTxbuffer[..clientTxfull]
                == Taken(old(clientFd.accepted + clientTxbuffer[..clientTxfull]), old(clientTxqueue), k, ace)
    {
      k := 0;
      if clientFd == null {
        return;
      }
      var result, full, popped, hist :=
        FlushBuffer(clientFd, clientTxbuffer, clientTxfull, clientTxqueue, true, inactiveLines, ace);
      k := popped;
      LinesTaken(full, popped, hist);
    }

    /** What flush_buffer leaves. */
    method LinesTaken(full: nat, popped: nat, hist: seq<LineData>)
      requires Valid() && clientConnected && full <= NET_BBUFFER_ALLOC && popped <= |clientTxqueue|
      requires hist == inactiveLines + Kept(clientTxqueue[..popped])
      modifies this`clientTxfull, this`clientTxqueue, this`inactiveLines
      ensures Valid() && clientTxfull == full && Abs() == FlushClient(old(Abs()), popped)
    {
      PipelineClient.FlushClientGives(Abs(), popped);
      clientTxfull := full;
      clientTxqueue := clientTxqueue[popped..];
      inactiveLines := hist;
    }

    /** world_trim_dynamic_queues. */
    method TrimDynamicQueues()
      requires Valid()
      modifies this`historyLines, this`inactiveLines, this`bufferedLines, this`droppedInactiveLines,
               this`droppedBufferedLines, book
      ensures Valid() && book.logFd == old(book.logFd)
      ensures Abs() == Trim(old(Abs()), bufferSize * 1024, logbufferSize * 1024)
    {
      TrimClientQueues();
      book.TrimLogQueues(logbufferSize * 1024);
    }

    method TrimClientQueues()
      requires Valid()
      modifies this`historyLines, this`inactiveLines, this`bufferedLines, this`droppedInactiveLines,
               this`droppedBufferedLines
      ensures Valid() && Abs() == TrimLines(old(Abs()), bufferSize * 1024)
    {
      TrimHistoryLines(bufferSize * 1024);
      TrimInactiveLines(bufferSize * 1024);
      TrimBufferedLines(bufferSize * 1024);
    }

    method TrimHistoryLines(limit: nat)
      requires Valid()
      modifies this`historyLines
      ensures Valid() && Abs() == TrimHistory(old(Abs()), limit)
    {
      while TotalCost(bufferedLines) + TotalCost(inactiveLines) + TotalCost(historyLines) > limit && historyLines != []
        invariant Valid() && TrimHistory(Abs(), limit) == TrimHistory(old(Abs()), limit)
        decreases |historyLines|
      {
        historyLines := historyLines[1..];
      }
    }

    method TrimInactiveLines(limit: nat)
      requires Valid()
      modifies this`inactiveLines, this`droppedInactiveLines
      ensures Valid() && Abs() == TrimInactive(old(Abs()), limit)
    {
      while TotalCost(bufferedLines) + TotalCost(inactiveLines) > limit && inactiveLines != []
        invariant Valid() && TrimInactive(Abs(), limit) == TrimInactive(old(Abs()), limit)
        decreases |inactiveLines|
      {
        inactiveLines := inactiveLines[1..];
        droppedInactiveLines := droppedInactiveLines + 1;
      }
    }

    method TrimBufferedLines(limit: nat)
      requires Valid()
      modifies this`bufferedLines, this`droppedBufferedLines
      ensures Valid() && Abs() == TrimBuffered(old(Abs()), limit)
    {
      while TotalCost(bufferedLines) > limit && bufferedLines != []
        invariant Valid() && TrimBuffered(Abs(), limit) == TrimBuffered(old(Abs()), limit)
        decreases |bufferedLines|
      {
        bufferedLines := bufferedLines[1..];
        droppedBufferedLines := droppedBufferedLines + 1;
      }
    }

    /** handle_flags, as far as it concerns the lines for the client. */
    method DoFlags(activated: bool, flagMsgs: seq<Msg>, quit: bool, clock: Clock, ghost i: PassInput)
      requires Valid() && i.activated == activated && i.flagMsgs == flagMsgs && i.quit == quit && i.clock == clock
      modifies this
      ensures Valid() && Abs() == HandleFlags(old(Abs()), i)
      ensures (clientFd == old(clientFd) || clientFd == null) && serverRxfull == old(serverRxfull)
    {
      if activated {
        InactiveToHistory();
      }
      MsgsClient(flagMsgs, clock);
      if quit {
        DisconnectClient();
      }
    }

    /** The lines in client_toqueue go where they belong. */
    method ReleaseLines(stamp: int -> string)
      requires Valid()
      modifies this`clientToqueue, this`clientTxqueue, this`bufferedLines, this`past, book
      ensures Valid() && book.logFd == old(book.logFd)
      ensures Abs() == Detach(ReleaseAll(old(Abs()), stamp))
    {
      ProcessToqueue(stamp);
      MoveToBuffer();
    }

    /** The buffers of the log and the client are flushed. */
    method FlushLines(i: PassInput) returns (ghost taken: PassInput)
      requires Valid()
      modifies this`clientToqueue, this`clientTxqueue, this`inactiveLines, this`clientTxfull, this`past,
               book, book.logBuffer, book.logFd, clientTxbuffer, clientFd
      ensures Valid() && (book.logFd == old(book.logFd) || book.logFd == null || fresh(book.logFd))
      ensures taken == i.(logChoice := taken.logChoice, flushed := taken.flushed)
      ensures Abs() == FlushOut(old(Abs()), taken)
    {
      ghost var choice := book.FlushClientLogqueue(logging, i.clock.day);
      MsgsClient(i.logMsgs, i.clock);
      ghost var k := FlushClientTxbuf();
      taken := i.(logChoice := choice, flushed := k);
    }

    /** The main loop from client_toqueue to the flushing of the buffers. */
    method SendLines(i: PassInput) returns (ghost taken: PassInput)
      requires Valid()
      modifies this, book, book.logBuffer, book.logFd, clientTxbuffer, clientFd
      ensures Valid() && taken == i.(logChoice := taken.logChoice, flushed := taken.flushed)
      ensures bufferSize == old(bufferSize) && logbufferSize == old(logbufferSize) && clientFd == old(clientFd)
      ensures serverRxfull == old(serverRxfull)
      ensures book.logFd == old(book.logFd) || book.logFd == null || fresh(book.logFd)
      ensures Abs() == Send(old(Abs()), taken)
    {
      ReleaseLines(i.stamp);
      taken := FlushLines(i);
    }

    /** The main loop from client_toqueue to the end of a pass. */
    method FinishPass(i: PassInput) returns (ghost taken: PassInput)
      requires Valid() && i.limit == bufferSize * 1024 && i.logLimit == logbufferSize * 1024
      modifies this, book, book.logBuffer, book.logFd, clientTxbuffer, clientFd
      ensures Valid() && taken == i.(logChoice := taken.logChoice, flushed := taken.flushed)
      ensures (clientFd == old(clientFd) || clientFd == null) && serverRxfull == old(serverRxfull)
      ensures book.logFd == old(book.logFd) || book.logFd == null || fresh(book.logFd)
      ensures Abs() == HandleFlags(Depart(old(Abs()), taken), taken)
    {
      taken := SendLines(i);
      TrimDynamicQueues();
      DoFlags(i.activated, i.flagMsgs, i.quit, i.clock, taken);
    }
  }
}
