/** The path of a line from the server to the history (mooproxy.c: mainloop, handle_flags;
    world.c; network.c): rx -> to -> tx -> inactive -> history, or -> buffered while no
    client is attached.  The queues are values here; `Worlds` has the code. */
module Pipeline {
  import opened Lines
  import opened Text
  import Recall
  import Logger

  /** A regular server line, by its number among all lines read from the server. */
  datatype Key = Key(n: nat, str: string)

  /** A line as it left client_toqueue, and whether the option logging was on then. */
  datatype Release = Release(line: LineData, logging: bool)

  /** A line is to be logged if logging is on and the line is not flagged LINE_DONTLOG. */
  predicate Loggable(r: Release) {
    r.logging && !r.line.flags.dontLog
  }

  /** What has happened so far. */
  datatype Past = Past(
    received: nat,               // the number of lines read from the server
    made: nat,                   // the number of lines mooproxy wrote itself
    sent: seq<Key>,              // the regular lines read from the server
    released: seq<Release>)      // the lines that left client_toqueue

  datatype Pipe = Pipe(
    connected: bool,             // client_status == ST_CONNECTED
    logging: bool,
    contextLines: int,
    rx: seq<LineData>,           // server_rxqueue
    to: seq<LineData>,           // client_toqueue
    tx: seq<LineData>,           // client_txqueue
    buffered: seq<LineData>,     // buffered_lines
    inactive: seq<LineData>,     // inactive_lines
    history: seq<LineData>,      // history_lines
    droppedInactive: nat,
    droppedBuffered: nat,
    log: Logger.Log,
    past: Past)

  /** world_is_mcp. */
  predicate IsMcp(s: string) {
    |s| >= 3 && s[0] == '#' && s[1] == '$' && s[2] == '#'
  }

  predicate IsRegular(l: LineData) {
    l.id.Wire? && !IsMcp(l.str)
  }

  function Keys(q: seq<LineData>): seq<Key> {
    if q == [] then []
    else (if IsRegular(q[0]) then [Key(q[0].id.n, q[0].str)] else []) + Keys(q[1..])
  }

  function LoggedIds(rs: seq<Release>): seq<LineId> {
    if rs == [] then []
    else LoggedIds(rs[..|rs| - 1]) + (if Loggable(rs[|rs| - 1]) then [rs[|rs| - 1].line.id] else [])
  }

  // ---------------------------------------------------------------------
  // The steps
  // ---------------------------------------------------------------------

  /** A line from the server is put in server_rxqueue. */
  function ReadLine(p: Pipe, str: string, clock: Clock): Pipe {
    var l := NewLine(str, clock, Wire(p.past.received));
    p.(rx := p.rx + [l], past := p.past.(received := p.past.received + 1, sent := p.past.sent + Keys([l])))
  }

  function Read(p: Pipe, lines: seq<string>, clock: Clock): Pipe
    decreases lines
  {
    if lines == [] then p else Read(ReadLine(p, lines[0], clock), lines[1..], clock)
  }

  /** A line of mooproxy for the client, with the flags it ends up with. */
  datatype Msg = Msg(str: string, flags: Flags)

  function OwnLine(m: Msg, clock: Clock, n: nat): LineData {
    LineData(m.str, clock.day, clock.time, m.flags, Own(n))
  }

  /** world_msg_client and the like. */
  function SayOne(p: Pipe, m: Msg, clock: Clock): Pipe {
    p.(to := p.to + [OwnLine(m, clock, p.past.made)], past := p.past.(made := p.past.made + 1))
  }

  function Say(p: Pipe, ms: seq<Msg>, clock: Clock): Pipe
    decreases ms
  {
    if ms == [] then p else Say(SayOne(p, ms[0], clock), ms[1..], clock)
  }

  /** A line as it leaves server_rxqueue: MCP lines get their flags. */
  function Dispatched(l: LineData): LineData {
    if IsMcp(l.str) then l.(flags := LINE_MCP) else l
  }

  /** One turn of the dispatch of server lines. */
  function DispatchHead(p: Pipe): Pipe
    requires p.rx != []
  {
    p.(rx := p.rx[1..], to := p.to + [Dispatched(p.rx[0])])
  }

  function Dispatch(p: Pipe): Pipe
    decreases |p.rx|
  {
    if p.rx == [] then p else Dispatch(DispatchHead(p))
  }

  /** Copies of lines for the client. */
  function Offer(p: Pipe, copies: seq<LineData>): Pipe {
    p.(to := p.to + copies)
  }

  /** world_inactive_to_history. */
  function ToHistory(p: Pipe): Pipe {
    p.(history := p.history + p.inactive, inactive := [])
  }

  /** The /forget command. */
  function Forget(p: Pipe): Pipe {
    ToHistory(p).(history := [])
  }

  /** The text that line_dup makes: up to a NUL it is the original, and behind that it is what
      was in the memory that it gets. */
  function DupText(s: string, memory: string): string {
    var n := |CString(s)|;
    if n >= |s| then s else s[..n] + "\0" + seq(|s| - n - 1, i requires 0 <= i => At(memory, i))
  }

  /** line_dup, flagged as a recalled line. */
  function Duplicate(l: LineData, memory: string): LineData {
    l.(str := DupText(l.str, memory), flags := LINE_RECALLED, id := Copy)
  }

  function Duplicates(q: seq<LineData>, memory: nat -> string): seq<LineData> {
    seq(|q|, i requires 0 <= i < |q| => Duplicate(q[i], memory(i)))
  }

  lemma {:induction false} CStringIs(s: string)
    ensures |CString(s)| <= |s| && CString(s) == s[..|CString(s)|] && IsCString(CString(s))
    ensures |CString(s)| < |s| ==> s[|CString(s)|] == '\0'
  {
    if s != "" && s[0] != '\0' {
      CStringIs(s[1..]);
      assert s[..|CString(s)|] == [s[0]] + s[1..][..|CString(s[1..])|];
    }
  }

  /** The copy is exact, whatever was in memory, exactly if a NUL is nowhere in the text but
      perhaps at its end. */
  lemma DuplicateExact(s: string)
    ensures (forall memory: string :: DupText(s, memory) == s) <==> s == "" || IsCString(s[..|s| - 1])
  {
    CStringIs(s);
    var n := |CString(s)|;
    if n + 1 < |s| {
      var memory := [if s[n + 1] == 'x' then 'y' else 'x'];
      assert DupText(s, memory)[n + 1] == memory[0];
      assert s[..|s| - 1][n] == '\0';
    } else {
      if n < |s| {
        assert s == s[..n] + "\0";
        assert forall memory: string :: DupText(s, memory) == s[..n] + "\0" + [];
        assert s[..|s| - 1] == CString(s);
      } else if s != "" {
        assert forall c <- s[..|s| - 1] :: c in s;
      }
    }
  }

  /** The announcements of world_recall_and_pass. */
  datatype PassTexts = PassTexts(context: Msg, inactive: Msg, buffered: Msg, end: Msg,
                                 lostInactive: Msg, lostBuffered: Msg,
                                 memory: nat -> string)   // what line_dup finds

  /** The context lines of world_recall_and_pass. */
  function PassHistory(p: Pipe, m: Msg, clock: Clock): Pipe {
    var q := if p.contextLines > 0 then Recall.RecallHistory(p.history, p.contextLines) else [];
    if q != [] then Offer(SayOne(p, m, clock), q) else p
  }

  /** The possibly new lines. */
  function PassInactive(p: Pipe, m: Msg, memory: nat -> string, clock: Clock): Pipe {
    if p.inactive != [] then Offer(SayOne(p, m, clock), Duplicates(p.inactive, memory)) else p
  }

  /** The certainly new lines. */
  function PassBuffered(p: Pipe): Pipe {
    p.(to := p.to + p.buffered, buffered := [])
  }

  /** The warnings about lines that were dropped. */
  function WarnInactive(p: Pipe, m: Msg, clock: Clock): Pipe {
    if p.droppedInactive > 0 then SayOne(p, m, clock).(droppedInactive := 0) else p
  }

  function WarnBuffered(p: Pipe, m: Msg, clock: Clock): Pipe {
    if p.droppedBuffered > 0 then SayOne(p, m, clock).(droppedBuffered := 0) else p
  }

  /** world_recall_and_pass. */
  function RecallAndPass(p: Pipe, t: PassTexts, clock: Clock): Pipe {
    var p1 := PassInactive(PassHistory(p, t.context, clock), t.inactive, t.memory, clock);
    var p2 := if p1.buffered != [] then PassBuffered(SayOne(p1, t.buffered, clock)) else p1;
    WarnBuffered(WarnInactive(SayOne(p2, t.end, clock), t.lostInactive, clock), t.lostBuffered, clock)
  }

  /** One turn of the loop from client_toqueue to client_txqueue. */
  function ReleaseHead(p: Pipe, stamp: string): Pipe
    requires p.to != []
  {
    var l := p.to[0];
    var logged := p.logging && !l.flags.dontLog;
    p.(to := p.to[1..],
       log := if logged then Logger.Submit(p.log, l, stamp) else p.log,
       tx := if l.flags.logOnly then p.tx else p.tx + [l.(flags := l.flags.(dontLog := true))],
       past := p.past.(released := p.past.released + [Release(l, p.logging)]))
  }

  /** The loop, given the timestamp of a time. */
  function ReleaseAll(p: Pipe, stamp: int -> string): Pipe
    decreases |p.to|
  {
    if p.to == [] then p else ReleaseAll(ReleaseHead(p, stamp(p.to[0].time)), stamp)
  }

  /** One turn of the loop from client_txqueue to buffered_lines. */
  function DetachHead(p: Pipe): Pipe
    requires p.tx != []
  {
    var l := p.tx[0];
    p.(tx := p.tx[1..], buffered := if l.flags.dontBuf then p.buffered else p.buffered + [l])
  }

  function DetachAll(p: Pipe): Pipe
    decreases |p.tx|
  {
    if p.tx == [] then p else DetachAll(DetachHead(p))
  }

  /** Only while no client is attached. */
  function Detach(p: Pipe): Pipe {
    if p.connected then p else DetachAll(p)
  }

  /** flush_buffer takes a line from client_txqueue. */
  function FlushHead(p: Pipe): Pipe
    requires p.tx != []
  {
    var l := p.tx[0];
    p.(tx := p.tx[1..], inactive := if l.flags.noHist then p.inactive else p.inactive + [l])
  }

  /** world_flush_client_txbuf when flush_buffer takes (at most) k lines. */
  function FlushClient(p: Pipe, k: nat): Pipe
    decreases k
  {
    if !p.connected || k == 0 || p.tx == [] then p else FlushClient(FlushHead(p), k - 1)
  }

  /** The loops of world_trim_dynamic_queues for the lines of the client. */
  function TrimHistory(p: Pipe, limit: nat): Pipe
    decreases |p.history|
  {
    if TotalCost(p.buffered) + TotalCost(p.inactive) + TotalCost(p.history) > limit && p.history != []
    then TrimHistory(p.(history := p.history[1..]), limit) else p
  }

  function TrimInactive(p: Pipe, limit: nat): Pipe
    decreases |p.inactive|
  {
    if TotalCost(p.buffered) + TotalCost(p.inactive) > limit && p.inactive != []
    then TrimInactive(p.(inactive := p.inactive[1..], droppedInactive := p.droppedInactive + 1), limit) else p
  }

  function TrimBuffered(p: Pipe, limit: nat): Pipe
    decreases |p.buffered|
  {
    if TotalCost(p.buffered) > limit && p.buffered != []
    then TrimBuffered(p.(buffered := p.buffered[1..], droppedBuffered := p.droppedBuffered + 1), limit) else p
  }

  function TrimLines(p: Pipe, limit: nat): Pipe {
    TrimBuffered(TrimInactive(TrimHistory(p, limit), limit), limit)
  }

  /** world_trim_dynamic_queues. */
  function Trim(p: Pipe, limit: nat, logLimit: nat): Pipe {
    var p1 := TrimLines(p, limit);
    p1.(log := Logger.TrimLog(p1.log, logLimit))
  }
}
