/** The log fields of a world and the functions of log.c on them, against the
    operations of `Logger`. */
module LogBooks {
  import Sequences
  import opened Lines
  import Text
  import opened Codec
  import opened Flush
  import opened Logger
  import LogProgress

  class LogBook {
    var logQueue: seq<LineData>
    var logCurrent: seq<LineData>
    const logBuffer: array<char>
    var logBfull: nat
    var logFd: Fd?
    var logCurrentDay: int
    var logLastError: bool
    var droppedLoggableLines: nat

    ghost var fdDay: int
    ghost var files: map<int, string>
    ghost var submitted: seq<LineData>
    ghost var handed: seq<LineData>
    ghost var reported: nat

    ghost predicate Valid()
      reads this
    {
      logBuffer.Length == NET_BBUFFER_ALLOC && logBfull <= NET_BBUFFER_ALLOC
    }

    ghost function Abs(): Log
      reads this, logBuffer
      requires Valid()
    {
      Log(logQueue, logCurrent, logBuffer[..logBfull], if logFd == null then None else Some(fdDay),
          logCurrentDay, logLastError, droppedLoggableLines, files, submitted, handed, reported)
    }

    constructor ()
      ensures Valid() && fresh(logBuffer) && logFd == null
      ensures Abs() == EMPTY_LOG
    {
      logQueue, logCurrent := [], [];
      logBuffer := new char[NET_BBUFFER_ALLOC](_ => '\0');
      logBfull, logFd, logCurrentDay, logLastError, droppedLoggableLines := 0, null, 0, false, 0;
      fdDay, files, submitted, handed, reported := 0, map[], [], [], 0;
    }

    /** world_log_line. */
    method LogLine(line: LineData, stamp: string)
      requires Valid()
      modifies this
      ensures Valid() && logFd == old(logFd) && logBfull == old(logBfull)
      ensures Abs() == Submit(old(Abs()), line, stamp)
    {
      var str := Text.StrcpyNoansi(line.str);
      var newline := LineData(stamp + str, line.day, line.time, line.flags, line.id);
      logQueue := logQueue + [newline];
      submitted := submitted + [newline];
    }

    /** log_deinit. */
    method Deinit()
      requires Valid()
      modifies this
      ensures Valid() && (logFd == old(logFd) || logFd == null)
      ensures Abs() == CloseLog(old(Abs()))
    {
      if logBfull > 0 {
        return;
      }
      logFd := null;
      assert logBuffer[..0] == "";
    }

    /** log_init, when no log file is open; opening may fail. */
    method Init() returns (ghost ok: bool)
      requires Valid() && logFd == null && logCurrent != []
      modifies this
      ensures Valid() && (logFd == null || fresh(logFd))
      ensures Abs() == OpenLog(old(Abs()), ok)
    {
      var opened_: bool := *;
      ok := opened_;
      if !opened_ {
        logLastError := true;
        return;
      }
      logFd := new Fd();
      fdDay := logCurrent[0].day;
    }

    /** flush_buffer on the log file: `n` bytes of `bytes` go to the file. */
    method FlushFile(fd: Fd) returns (ok: bool, popped: nat, ghost bytes: string, ghost n: nat)
      requires Valid()
      modifies this`logBfull, logBuffer, fd
      ensures Valid() && popped <= |logCurrent|
      ensures bytes == old(logBuffer[..logBfull]) + EncodeAll(logCurrent[..popped], UNIX)
      ensures n <= |bytes| && logBuffer[..logBfull] == bytes[n..] && (ok <==> n == |bytes|)
    {
      ghost var before, waiting := fd.accepted, logBuffer[..logBfull];
      var result, full, k, _ := FlushBuffer(fd, logBuffer, logBfull, logCurrent, false, [], UNIX);
      ghost var encoded := EncodeAll(logCurrent[..k], UNIX);
      SplitAccepted(before, waiting, encoded, fd.accepted, logBuffer[..full]);
      bytes, n := waiting + encoded, |fd.accepted| - |before|;
      logBfull := full;
      ok, popped := result == Flushed, k;
    }

    /** log_write. */
    method WriteOutLog(ghost opened_: bool) returns (ghost choice: LogChoice)
      requires Valid()
      modifies this, logBuffer, logFd
      ensures Valid() && logFd == old(logFd) && choice.openOk == opened_
      ensures Abs() == WriteLog(old(Abs()), choice)
    {
      choice := LogChoice(opened_, 0, 0);
      if logFd == null {
        return;
      }
      ghost var bytes, n;
      var ok, popped;
      ok, popped, bytes, n := FlushFile(logFd);
      choice := LogChoice(opened_, popped, n);
      HandedOver(ok, popped, bytes, n);
    }

    /** `popped` lines have left the queue and `n` bytes have got to the file. */
    method HandedOver(ok: bool, popped: nat, ghost bytes: string, ghost n: nat)
      requires Valid() && popped <= |logCurrent| && n <= |bytes|
      modifies this`logCurrent, this`handed, this`files, this`logLastError
      ensures Valid()
      ensures var l := old(Abs());
              Abs() == l.(current := l.current[popped..], handed := l.handed + l.current[..popped],
                          failing := l.failing || !ok, files := l.files[fdDay := File(l, fdDay) + bytes[..n]])
    {
      files := files[fdDay := File(Abs(), fdDay) + bytes[..n]];
      handed := handed + logCurrent[..popped];
      logCurrent := logCurrent[popped..];
      if !ok {
        logLastError := true;
      }
    }

    /** What was accepted is a prefix of the bytes taken over, the buffer has the others. */
    lemma SplitAccepted(before: string, waiting: string, encoded: string, accepted: string, rest: string)
      requires before <= accepted && accepted + rest == before + waiting + encoded
      ensures var n := |accepted| - |before|; var bytes := waiting + encoded;
              n <= |bytes| && accepted == before + bytes[..n] && rest == bytes[n..]
    {
      var bytes := waiting + encoded;
      Sequences.Assoc(before, waiting, encoded);
      var n := |accepted| - |before|;
      assert (before + bytes)[|accepted|..] == bytes[n..];
      assert (accepted + rest)[|accepted|..] == rest;
      assert (before + bytes)[..|accepted|] == before + bytes[..n];
      assert (accepted + rest)[..|accepted|] == accepted;
    }

    /** The loop that moves lines of the current day. */
    method MoveLines()
      requires Valid()
      modifies this`logQueue, this`logCurrent
      ensures Valid() && Abs() == MoveToday(old(Abs()))
    {
      while logQueue != [] && logQueue[0].day == logCurrentDay
        invariant Valid() && MoveToday(Abs()) == MoveToday(old(Abs()))
        decreases |logQueue|
      {
        logCurrent := logCurrent + [logQueue[0]];
        logQueue := logQueue[1..];
      }
    }

    /** world_flush_client_logqueue.  If nothing waits for the open file afterwards, it has taken
        everything. */
    method FlushClientLogqueue(logging: bool, today: int) returns (ghost choice: LogChoice)
      requires Valid()
      modifies this, logBuffer, logFd
      ensures Valid() && (logFd == old(logFd) || logFd == null || fresh(logFd))
      ensures Abs() == FlushLog(old(Abs()), logging, today, choice)
      ensures logCurrent == [] && logBfull == 0 ==> LogProgress.TakesAll(old(Abs()), choice)
    {
      ghost var l := Abs();
      choice := FlushLines(logging, today);
      if logCurrent == [] && logBfull == 0 {
        ghost var all := LogChoice(true, |l.current| + |l.queue|, |l.buffer| + |EncodeAll(l.current + l.queue, UNIX)|);
        LogProgress.TookAll(l, logging, today, choice, all);
        choice := all;
      }
    }

    method FlushLines(logging: bool, today: int) returns (ghost choice: LogChoice)
      requires Valid()
      modifies this, logBuffer, logFd
      ensures Valid() && (logFd == old(logFd) || logFd == null || fresh(logFd))
      ensures Abs() == FlushLog(old(Abs()), logging, today, choice)
    {
      choice := LogChoice(true, 0, 0);
      assert logBuffer[..logBfull] == "" <==> logBfull == 0;
      if |logQueue| + |logCurrent| + logBfull == 0 {
        if logFd != null && (!logging || logCurrentDay != today) {
          Deinit();
        }
        // Everything has been written, so what went wrong is repaired.
        if logLastError {
          reported := reported + droppedLoggableLines;
          droppedLoggableLines := 0;
          logLastError := false;
        }
        return;
      }
      if |logQueue| > 0 {
        if |logCurrent| + logBfull == 0 && logQueue[0].day != logCurrentDay {
          Deinit();
          logCurrentDay := logQueue[0].day;
          return;
        }
        MoveLines();
      }
      ghost var ok := true;
      if logFd == null && |logCurrent| > 0 {
        ok := Init();
      }
      choice := WriteOutLog(ok);
    }

    /** The log part of world_trim_dynamic_queues. */
    method TrimLogQueues(limit: nat)
      requires Valid()
      modifies this`logQueue, this`logCurrent, this`droppedLoggableLines
      ensures Valid() && Abs() == TrimLog(old(Abs()), limit)
    {
      TrimWaiting(limit);
      TrimCurrentDay(limit);
    }

    method TrimWaiting(limit: nat)
      requires Valid()
      modifies this`logQueue, this`droppedLoggableLines
      ensures Valid() && Abs() == TrimQueue(old(Abs()), limit)
    {
      while TotalCost(logQueue) + TotalCost(logCurrent) > limit && logQueue != []
        invariant Valid() && TrimQueue(Abs(), limit) == TrimQueue(old(Abs()), limit)
        decreases |logQueue|
      {
        logQueue := logQueue[..|logQueue| - 1];
        droppedLoggableLines := droppedLoggableLines + 1;
      }
    }

    method TrimCurrentDay(limit: nat)
      requires Valid()
      modifies this`logCurrent, this`droppedLoggableLines
      ensures Valid() && Abs() == TrimCurrent(old(Abs()), limit)
    {
      while TotalCost(logCurrent) > limit && logCurrent != []
        invariant Valid() && TrimCurrent(Abs(), limit) == TrimCurrent(old(Abs()), limit)
        decreases |logCurrent|
      {
        logCurrent := logCurrent[..|logCurrent| - 1];
        droppedLoggableLines := droppedLoggableLines + 1;
      }
    }
  }
}
