/** The log router (log.c; the log part of world_trim_dynamic_queues).

    Lines to be logged wait in `queue`; those of the current day move to `current`,
    from there through the buffer to the file of that day. */
module Logger {
  import opened Sequences
  import opened Lines
  import opened Text
  import opened Codec
  import opened Flush

  datatype Log = Log(
    queue: seq<LineData>,        // log_queue
    current: seq<LineData>,      // log_current
    buffer: string,              // log_buffer[..log_bfull]
    fd: Option<int>,             // log_fd: the day of the file that is open
    day: int,                    // log_currentday
    failing: bool,               // log_lasterror != NULL
    dropped: nat,                // dropped_loggable_lines
    // What has happened so far.
    files: map<int, string>,     // the bytes in the file of each day
    submitted: seq<LineData>,    // the lines given to the log
    handed: seq<LineData>,       // the lines given to the buffer
    reported: nat)               // the dropped lines the user has been told of

  const EMPTY_LOG := Log([], [], "", None, 0, false, 0, map[], [], [], 0)

  function File(l: Log, day: int): string {
    if day in l.files then l.files[day] else ""
  }

  // ---------------------------------------------------------------------
  // The operations
  // ---------------------------------------------------------------------

  /** The line that is logged for a line: escape sequences stripped, the timestamp (if
      any) in front, and the flags, time and day of the original. */
  function LogLine(line: LineData, stamp: string): LineData {
    line.(str := stamp + NoAnsi(CString(line.str)))
  }

  /** world_log_line. */
  function Submit(l: Log, line: LineData, stamp: string): Log {
    l.(queue := l.queue + [LogLine(line, stamp)], submitted := l.submitted + [LogLine(line, stamp)])
  }

  /** log_deinit. */
  function CloseLog(l: Log): Log {
    if l.buffer != "" then l else l.(fd := None)
  }

  /** log_init when no file is open, for the file of the first line that waits. */
  function OpenLog(l: Log, ok: bool): Log
    requires l.current != []
  {
    if ok then l.(fd := Some(l.current[0].day)) else l.(failing := true)
  }

  /** Move lines of the current day. */
  function MoveToday(l: Log): Log
    decreases |l.queue|
  {
    if l.queue == [] || l.queue[0].day != l.day then l
    else MoveToday(l.(current := l.current + [l.queue[0]], queue := l.queue[1..]))
  }

  /** What write(2) and open(2) do in one pass: whether a file can be opened, how many
      lines flush_buffer pops and how many bytes the file takes. */
  datatype LogChoice = LogChoice(openOk: bool, popped: nat, accepted: nat)

  function Min(a: nat, b: nat): nat {
    if a < b then a else b
  }

  /** log_write, given what flush_buffer does. */
  function WriteLog(l: Log, c: LogChoice): Log {
    if l.fd.None? then l
    else
      var k := Min(c.popped, |l.current|);
      var bytes := l.buffer + EncodeAll(l.current[..k], UNIX);
      var n := Min(c.accepted, |bytes|);
      l.(current := l.current[k..], handed := l.handed + l.current[..k],
         buffer := bytes[n..], failing := l.failing || n < |bytes|,
         files := l.files[l.fd.value := File(l, l.fd.value) + bytes[..n]])
  }

  /** world_flush_client_logqueue. */
  function FlushLog(l: Log, logging: bool, today: int, c: LogChoice): Log {
    if l.queue == [] && l.current == [] && l.buffer == "" then
      var l1 := if l.fd.Some? && (!logging || l.day != today) then CloseLog(l) else l;
      if l1.failing then l1.(failing := false, dropped := 0, reported := l1.reported + l1.dropped) else l1
    else if l.queue != [] && l.current == [] && l.buffer == "" && l.queue[0].day != l.day then
      CloseLog(l).(day := l.queue[0].day)
    else
      var l1 := MoveToday(l);
      var l2 := if l1.fd.None? && l1.current != [] then OpenLog(l1, c.openOk) else l1;
      WriteLog(l2, c)
  }

  /** The first loop of the trimming of the logs: the newest lines of the queue. */
  function TrimQueue(l: Log, limit: int): Log
    decreases |l.queue|
  {
    if TotalCost(l.queue) + TotalCost(l.current) > limit && l.queue != []
    then TrimQueue(l.(queue := l.queue[..|l.queue| - 1], dropped := l.dropped + 1), limit)
    else l
  }

  /** The second loop: the newest lines of the current day. */
  function TrimCurrent(l: Log, limit: int): Log
    decreases |l.current|
  {
    if TotalCost(l.current) > limit && l.current != []
    then TrimCurrent(l.(current := l.current[..|l.current| - 1], dropped := l.dropped + 1), limit)
    else l
  }

  function TrimLog(l: Log, limit: int): Log {
    TrimCurrent(TrimQueue(l, limit), limit)
  }

  // ---------------------------------------------------------------------
  // What every operation keeps
  // ---------------------------------------------------------------------

  function OfDay(ls: seq<LineData>, day: int): seq<LineData> {
    if ls == [] then [] else (if ls[0].day == day then [ls[0]] else []) + OfDay(ls[1..], day)
  }

  /** The lines that have not been lost. */
  function Alive(l: Log): seq<LineData> {
    l.handed + l.current + l.queue
  }

  /** The bytes on their way to the file of a day. */
  function Underway(l: Log, day: int): string {
    File(l, day) + (if day == l.day then l.buffer else "")
  }

  ghost predicate FileExact(l: Log, day: int) {
    Underway(l, day) == EncodeAll(OfDay(l.handed, day), UNIX)
  }

  ghost predicate Routed(l: Log) {
    && (forall x <- l.current :: x.day == l.day)
    && (l.fd.Some? ==> l.fd.value == l.day)
    && (l.buffer != "" ==> l.fd.Some?)
    && (forall day: int :: FileExact(l, day))
  }

  ghost predicate Accounted(l: Log) {
    && Subseq(Alive(l), l.submitted)
    && |l.submitted| == |Alive(l)| + l.dropped + l.reported
  }

  ghost predicate LogInv(l: Log) {
    Routed(l) && Accounted(l)
  }

  // --- facts about days

  lemma {:induction false} OfDayConcat(a: seq<LineData>, b: seq<LineData>, day: int)
    ensures OfDay(a + b, day) == OfDay(a, day) + OfDay(b, day)
  {
    if a == [] {
      EmptyEnds(b);
      EmptyEnds(OfDay(b, day));
    } else {
      ConcatStep(a, b);
      OfDayConcat(a[1..], b, day);
      Assoc(if a[0].day == day then [a[0]] else [], OfDay(a[1..], day), OfDay(b, day));
    }
  }

  lemma OfDaySnoc(a: seq<LineData>, x: LineData, day: int)
    ensures OfDay(a + [x], day) == if x.day == day then OfDay(a, day) + [x] else OfDay(a, day)
  {
    OfDayConcat(a, [x], day);
    assert [x][1..] == [];
  }

  lemma {:induction false} OfDayAll(a: seq<LineData>, day: int)
    ensures (forall x <- a :: x.day == day) ==> OfDay(a, day) == a
    ensures (forall x <- a :: x.day != day) ==> OfDay(a, day) == []
  {
    if a != [] {
      OfDayAll(a[1..], day);
      assert a == [a[0]] + a[1..];
    }
  }

  lemma {:induction false} SubseqOfDay(a: seq<LineData>, b: seq<LineData>, day: int)
    requires Subseq(a, b)
    ensures Subseq(OfDay(a, day), OfDay(b, day))
    decreases b
  {
    if a != [] {
      var i, j := |a| - 1, |b| - 1;
      assert a == a[..i] + [a[i]] && b == b[..j] + [b[j]];
      OfDaySnoc(a[..i], a[i], day);
      OfDaySnoc(b[..j], b[j], day);
      if a[i] == b[j] && Subseq(a[..i], b[..j]) {
        SubseqOfDay(a[..i], b[..j], day);
        if a[i].day == day {
          SubseqSnoc(OfDay(a[..i], day), OfDay(b[..j], day), a[i]);
        }
      } else {
        SubseqOfDay(a, b[..j], day);
        var x := OfDay(b[..j], day);
        if b[j].day == day {
          assert (x + [b[j]])[..|x|] == x;
        }
      }
    }
  }

  // --- lines that do not fit

  /** The bytes of lines that are not cut. */
  function Uncut(ls: seq<LineData>): string {
    if ls == [] then "" else ls[0].str + "\n" + Uncut(ls[1..])
  }

  /** A line is in its file as it was logged exactly if it fits in the buffer. */
  lemma EncodeWhole(s: string)
    ensures Encode(s, UNIX) == Cut(s) + "\n"
    ensures Encode(s, UNIX) == s + "\n" <==> |s| <= NET_BBUFFER_LEN
  {
    assert "" + Cut(s) + "\n" + "" == Cut(s) + "\n";
  }

  lemma {:induction false} UncutLonger(ls: seq<LineData>)
    ensures |EncodeAll(ls, UNIX)| <= |Uncut(ls)|
  {
    if ls != [] {
      EncodeWhole(ls[0].str);
      UncutLonger(ls[1..]);
    }
  }

  lemma {:induction false} AllWhole(ls: seq<LineData>)
    ensures EncodeAll(ls, UNIX) == Uncut(ls) <==> forall x <- ls :: |x.str| <= NET_BBUFFER_LEN
  {
    if ls != [] {
      EncodeWhole(ls[0].str);
      UncutLonger(ls[1..]);
      AllWhole(ls[1..]);
      assert ls == [ls[0]] + ls[1..];
      if EncodeAll(ls, UNIX) == Uncut(ls) {
        assert |ls[0].str| <= NET_BBUFFER_LEN;
        SameTail(ls[0].str + "\n", EncodeAll(ls[1..], UNIX), Uncut(ls[1..]));
      }
    }
  }

  lemma SameTail(a: string, b: string, c: string)
    requires a + b == a + c
    ensures b == c
  {
    assert (a + b)[|a|..] == b && (a + c)[|a|..] == c;
  }

  /** A line of the server and what is logged for it: it is whole in its file exactly if it
      fits in the buffer with its timestamp.  So it always is without timestamps; with them,
      a line whose text leaves no room for one loses as many characters at its end. */
  lemma LoggedWhole(line: LineData, stamp: string)
    ensures var text := NoAnsi(CString(line.str));
            && (Encode(LogLine(line, stamp).str, UNIX) == stamp + text + "\n" <==> |stamp| + |text| <= NET_BBUFFER_LEN)
            && (|line.str| <= NET_BBUFFER_LEN ==> |text| <= NET_BBUFFER_LEN)
            && (|stamp| <= NET_BBUFFER_LEN < |stamp| + |text| ==>
                  Encode(LogLine(line, stamp).str, UNIX) == stamp + text[..NET_BBUFFER_LEN - |stamp|] + "\n")
  {
    var text := NoAnsi(CString(line.str));
    EncodeWhole(stamp + text);
    CStringShorter(line.str);
    NoAnsiPrintable(CString(line.str));
    if |stamp| <= NET_BBUFFER_LEN < |stamp| + |text| {
      assert (stamp + text)[..NET_BBUFFER_LEN] == stamp + text[..NET_BBUFFER_LEN - |stamp|];
    }
  }

  lemma {:induction false} CStringShorter(s: string)
    ensures |CString(s)| <= |s| && (IsCString(s) ==> CString(s) == s)
  {
    if s != "" && s[0] != '\0' {
      CStringShorter(s[1..]);
      assert s == [s[0]] + s[1..];
    }
  }

  /** LOG_TIMESTAMP_FORMAT has eleven characters. */
  const LOG_TIMESTAMP_LENGTH: nat := 11

  /** The server can send such lines: those that fill its receive buffer. */
  lemma FullLine(s: string)
    requires |s| == NET_BBUFFER_LEN && '\n' !in s && Chop(s) == s
    ensures Feed(NOTHING, s) == Split([s], "")
  {
    FeedFull(NOTHING, s);
    EmptyEnds(s);
    EmptyEnds([s]);
  }

  lemma FullLineCut(line: LineData, stamp: string)
    requires |line.str| == NET_BBUFFER_LEN && |stamp| == LOG_TIMESTAMP_LENGTH && forall c <- line.str :: Printable(c)
    ensures Encode(LogLine(line, stamp).str, UNIX)
         == stamp + line.str[..NET_BBUFFER_LEN - LOG_TIMESTAMP_LENGTH] + "\n"
  {
    var s := line.str;
    assert IsCString(s);
    CStringShorter(s);
    NoAnsiPrintable(s);
    LoggedWhole(line, stamp);
  }

  function Xs(n: nat): string {
    seq(n, _ => 'x')
  }

  /** For instance 65536 times an x: the file lacks the last eleven of them. */
  lemma LongLineCut(line: LineData, stamp: string)
    requires line.str == Xs(NET_BBUFFER_LEN) && |stamp| == LOG_TIMESTAMP_LENGTH
    ensures Feed(NOTHING, line.str) == Split([line.str], "")
    ensures Encode(LogLine(line, stamp).str, UNIX) == stamp + Xs(NET_BBUFFER_LEN - LOG_TIMESTAMP_LENGTH) + "\n"
  {
    var s := line.str;
    assert forall c <- s :: c == 'x';
    FullLine(s);
    FullLineCut(line, stamp);
    assert s[..NET_BBUFFER_LEN - LOG_TIMESTAMP_LENGTH] == Xs(NET_BBUFFER_LEN - LOG_TIMESTAMP_LENGTH);
  }

  // --- the operations

  lemma FilesUnchanged(l: Log, l': Log)
    requires Routed(l)
    requires l'.files == l.files && l'.buffer == l.buffer && l'.handed == l.handed
    requires l'.day == l.day || l.buffer == ""
    ensures forall day: int :: FileExact(l', day)
  {
    forall day: int ensures FileExact(l', day) {
      assert FileExact(l, day);
    }
  }

  lemma SubmitKeeps(l: Log, line: LineData, stamp: string)
    requires LogInv(l)
    ensures LogInv(Submit(l, line, stamp))
  {
    var x := LogLine(line, stamp);
    var l' := Submit(l, line, stamp);
    SubseqSnoc(Alive(l), l.submitted, x);
    assert Alive(l') == Alive(l) + [x];
    FilesUnchanged(l, l');
  }

  lemma {:induction false} MoveTodayKeeps(l: Log)
    requires LogInv(l)
    ensures LogInv(MoveToday(l))
    decreases |l.queue|
  {
    if l.queue != [] && l.queue[0].day == l.day {
      var l' := l.(current := l.current + [l.queue[0]], queue := l.queue[1..]);
      assert Alive(l') == Alive(l);
      FilesUnchanged(l, l');
      MoveTodayKeeps(l');
    }
  }

  lemma WriteFile(l: Log, l': Log, ls: seq<LineData>, n: nat, day: int)
    requires Routed(l) && l.fd.Some? && (forall x <- ls :: x.day == l.day)
    requires n <= |l.buffer + EncodeAll(ls, UNIX)|
    requires var bytes := l.buffer + EncodeAll(ls, UNIX);
             && l'.day == l.day && l'.handed == l.handed + ls && l'.buffer == bytes[n..]
             && l'.files == l.files[l.day := File(l, l.day) + bytes[..n]]
    ensures FileExact(l', day)
  {
    assert FileExact(l, day);
    OfDayConcat(l.handed, ls, day);
    OfDayAll(ls, day);
    if day == l.day {
      var bytes := l.buffer + EncodeAll(ls, UNIX);
      assert bytes == bytes[..n] + bytes[n..];
      EncodeAllConcat(OfDay(l.handed, day), ls, UNIX);
      Assoc(File(l, day), bytes[..n], bytes[n..]);
      Assoc(File(l, day), l.buffer, EncodeAll(ls, UNIX));
    } else {
      assert OfDay(l.handed, day) + [] == OfDay(l.handed, day);
    }
  }

  /** Lines that are handed on are not lost. */
  lemma HandedOn(l: Log, l': Log, k: nat)
    requires k <= |l.current| && l'.queue == l.queue
    requires l'.handed == l.handed + l.current[..k] && l'.current == l.current[k..]
    ensures Alive(l') == Alive(l)
  {
    SplitAt(l.current, k);
    Assoc(l.handed, l.current[..k], l.current[k..]);
  }

  lemma PartOfDay(ls: seq<LineData>, k: nat, day: int)
    requires k <= |ls| && forall x <- ls :: x.day == day
    ensures forall x <- ls[..k] :: x.day == day
    ensures forall x <- ls[k..] :: x.day == day
  {
  }

  /** Only lines of the current day reach the buffer, so only its file changes. */
  lemma WriteLogKeeps(l: Log, c: LogChoice)
    requires LogInv(l)
    ensures LogInv(WriteLog(l, c))
  {
    if l.fd.Some? {
      var k := Min(c.popped, |l.current|);
      var ls := l.current[..k];
      var n := Min(c.accepted, |l.buffer + EncodeAll(ls, UNIX)|);
      var l' := WriteLog(l, c);
      PartOfDay(l.current, k, l.day);
      HandedOn(l, l', k);
      forall day: int ensures FileExact(l', day) {
        WriteFile(l, l', ls, n, day);
      }
    }
  }

  lemma OpenLogKeeps(l: Log, ok: bool)
    requires LogInv(l) && l.fd.None? && l.current != []
    ensures LogInv(OpenLog(l, ok))
  {
    assert l.current[0] in l.current;
    assert Alive(OpenLog(l, ok)) == Alive(l);
    FilesUnchanged(l, OpenLog(l, ok));
  }

  /** With nothing in the buffer no file ends inside a line, so that closing the
      file, or going on to another day, changes nothing. */
  lemma SwitchDayKeeps(l: Log, l': Log)
    requires LogInv(l) && l.buffer == "" && l.current == []
    requires l' == l.(fd := None, day := l'.day) || l' == l
             || l' == l.(fd := l'.fd, failing := false, dropped := 0, reported := l.reported + l.dropped)
    requires l'.fd == l.fd || l'.fd.None?
    ensures LogInv(l')
  {
    assert Alive(l') == Alive(l);
    FilesUnchanged(l, l');
  }

  lemma FlushLogKeeps(l: Log, logging: bool, today: int, c: LogChoice)
    requires LogInv(l)
    ensures LogInv(FlushLog(l, logging, today, c))
  {
    if l.current == [] && l.buffer == "" && (l.queue == [] || l.queue[0].day != l.day) {
      SwitchDayKeeps(l, FlushLog(l, logging, today, c));
    } else {
      MoveTodayKeeps(l);
      var l1 := MoveToday(l);
      if l1.fd.None? && l1.current != [] {
        OpenLogKeeps(l1, c.openOk);
        WriteLogKeeps(OpenLog(l1, c.openOk), c);
      } else {
        WriteLogKeeps(l1, c);
      }
    }
  }

  /** The newest of the lines that have not been lost goes. */
  lemma DropNewest(l: Log, l': Log)
    requires LogInv(l)
    requires || (l.queue != [] && l' == l.(queue := l.queue[..|l.queue| - 1], dropped := l.dropped + 1))
             || (l.queue == [] && l.current != []
                 && l' == l.(current := l.current[..|l.current| - 1], dropped := l.dropped + 1))
    ensures LogInv(l')
  {
    assert Alive(l)[..|Alive(l)| - 1] == Alive(l');
    SubseqInit(Alive(l), l.submitted);
    FilesUnchanged(l, l');
  }

  lemma {:induction false} TrimQueueKeeps(l: Log, limit: int)
    requires LogInv(l)
    ensures LogInv(TrimQueue(l, limit))
    decreases |l.queue|
  {
    if TotalCost(l.queue) + TotalCost(l.current) > limit && l.queue != [] {
      var l' := l.(queue := l.queue[..|l.queue| - 1], dropped := l.dropped + 1);
      DropNewest(l, l');
      TrimQueueKeeps(l', limit);
    }
  }

  lemma {:induction false} TrimCurrentKeeps(l: Log, limit: int)
    requires LogInv(l) && (l.queue == [] || TotalCost(l.current) <= limit)
    ensures LogInv(TrimCurrent(l, limit))
    decreases |l.current|
  {
    if TotalCost(l.current) > limit && l.current != [] {
      var l' := l.(current := l.current[..|l.current| - 1], dropped := l.dropped + 1);
      DropNewest(l, l');
      TrimCurrentKeeps(l', limit);
    }
  }

  lemma {:induction false} TrimQueueExact(l: Log, limit: int) returns (k: nat)
    ensures k <= |l.queue|
    ensures TrimQueue(l, limit) == l.(queue := l.queue[..k], dropped := l.dropped + (|l.queue| - k))
    ensures k == 0 || TotalCost(l.queue[..k]) + TotalCost(l.current) <= limit
    ensures k < |l.queue| ==> TotalCost(l.queue[..k + 1]) + TotalCost(l.current) > limit
    decreases |l.queue|
  {
    k := |l.queue|;
    assert l.queue[..k] == l.queue;
    if TotalCost(l.queue) + TotalCost(l.current) > limit && l.queue != [] {
      var l' := l.(queue := l.queue[..k - 1], dropped := l.dropped + 1);
      var n := k - 1;
      k := TrimQueueExact(l', limit);
      TakeTake(l.queue, n, k);
      if k < n {
        TakeTake(l.queue, n, k + 1);
      }
    }
  }

  lemma {:induction false} TrimCurrentExact(l: Log, limit: int) returns (k: nat)
    ensures k <= |l.current|
    ensures TrimCurrent(l, limit) == l.(current := l.current[..k], dropped := l.dropped + (|l.current| - k))
    ensures k == 0 || TotalCost(l.current[..k]) <= limit
    ensures k < |l.current| ==> TotalCost(l.current[..k + 1]) > limit
    decreases |l.current|
  {
    k := |l.current|;
    assert l.current[..k] == l.current;
    if TotalCost(l.current) > limit && l.current != [] {
      var l' := l.(current := l.current[..k - 1], dropped := l.dropped + 1);
      var n := k - 1;
      k := TrimCurrentExact(l', limit);
      TakeTake(l.current, n, k);
      if k < n {
        TakeTake(l.current, n, k + 1);
      }
    }
  }

  /** Trimming is exact: the shortest newest part of the queue goes, then, only if the
      queue is empty, the shortest newest part of the current day; each lost line is
      counted; the budget holds afterwards. */
  lemma TrimLogExact(l: Log, limit: nat) returns (q: nat, c: nat)
    ensures q <= |l.queue| && c <= |l.current|
    ensures TrimLog(l, limit)
         == l.(queue := l.queue[..q], current := l.current[..c],
               dropped := l.dropped + (|l.queue| - q) + (|l.current| - c))
    ensures TotalCost(l.queue[..q]) + TotalCost(l.current[..c]) <= limit
    ensures q < |l.queue| ==> TotalCost(l.queue[..q + 1]) + TotalCost(l.current) > limit
    ensures c < |l.current| ==> q == 0 && TotalCost(l.current[..c + 1]) > limit
  {
    q := TrimQueueExact(l, limit);
    var l1 := TrimQueue(l, limit);
    c := TrimCurrentExact(l1, limit);
    assert l.queue[..q] == [] || q > 0;
    if c < |l.current| {
      CostPrefix(l.current, c + 1);
    } else {
      assert l.current[..c] == l.current;
    }
  }

  lemma CostPrefix(s: seq<LineData>, k: nat)
    requires k <= |s|
    ensures TotalCost(s[..k]) <= TotalCost(s)
  {
    assert s == s[..k] + s[k..];
    TotalCostConcat(s[..k], s[k..]);
  }

  lemma TrimLogKeeps(l: Log, limit: nat)
    requires LogInv(l)
    ensures LogInv(TrimLog(l, limit))
  {
    TrimQueueKeeps(l, limit);
    var q := TrimQueueExact(l, limit);
    TrimCurrentKeeps(TrimQueue(l, limit), limit);
  }

  // ---------------------------------------------------------------------
  // Whole runs
  // ---------------------------------------------------------------------

  datatype LogStep =
    | LogSubmit(line: LineData, stamp: string)
    | LogFlush(logging: bool, today: int, choice: LogChoice)
    | LogTrim(limit: nat)

  function DoLog(l: Log, s: LogStep): Log {
    match s
    case LogSubmit(line, stamp) => Submit(l, line, stamp)
    case LogFlush(logging, today, choice) => FlushLog(l, logging, today, choice)
    case LogTrim(limit) => TrimLog(l, limit)
  }

  function RunLog(l: Log, steps: seq<LogStep>): Log
    decreases steps
  {
    if steps == [] then l else RunLog(DoLog(l, steps[0]), steps[1..])
  }

  lemma {:induction false} RunLogKeeps(l: Log, steps: seq<LogStep>)
    requires LogInv(l)
    ensures LogInv(RunLog(l, steps))
    decreases steps
  {
    if steps != [] {
      match steps[0] {
        case LogSubmit(line, stamp) => SubmitKeeps(l, line, stamp);
        case LogFlush(logging, today, choice) => FlushLogKeeps(l, logging, today, choice);
        case LogTrim(limit) => TrimLogKeeps(l, limit);
      }
      RunLogKeeps(DoLog(l, steps[0]), steps[1..]);
    }
  }

  lemma EmptyLogKept()
    ensures LogInv(EMPTY_LOG)
  {
    forall day: int ensures FileExact(EMPTY_LOG, day) {
    }
  }

  /** After any run: the file of each day, with what is in the buffer for it, is made of
      lines of that day, in the order in which they were submitted; an open file is
      the file of the current day, and so are the lines that wait for it; a day that is
      over has no part of a line; a file has its lines as they were logged exactly if each fits
      in the buffer; and no line is lost without being counted. */
  lemma LogRouting(steps: seq<LogStep>, day: int) returns (lines: seq<LineData>)
    ensures var l := RunLog(EMPTY_LOG, steps);
            && Underway(l, day) == EncodeAll(lines, UNIX)
            && (Underway(l, day) == Uncut(lines) <==> forall x <- lines :: |x.str| <= NET_BBUFFER_LEN)
            && (day != l.day || l.fd.None? ==> File(l, day) == EncodeAll(lines, UNIX))
            && Subseq(lines, OfDay(l.submitted, day))
            && (l.fd.Some? ==> l.fd.value == l.day)
            && (forall x <- l.current :: x.day == l.day)
            && |l.submitted| == |l.handed| + |l.current| + |l.queue| + l.dropped + l.reported
  {
    EmptyLogKept();
    RunLogKeeps(EMPTY_LOG, steps);
    var l := RunLog(EMPTY_LOG, steps);
    lines := OfDay(l.handed, day);
    AllWhole(lines);
    assert FileExact(l, day);
    assert Alive(l)[..|l.handed|] == l.handed;
    SubseqPrefix(Alive(l), |l.handed|, l.submitted);
    SubseqOfDay(l.handed, l.submitted, day);
  }
}
