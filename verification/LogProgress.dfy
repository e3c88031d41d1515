/** What is logged gets to the files, as long as they take it (log.c: world_flush_client_logqueue,
    log_write). */
module LogProgress {
  import opened Sequences
  import opened Codec
  import opened Flush
  import opened Logger

  /** The file can be opened and takes all that it is offered. */
  predicate TakesAll(l: Log, c: LogChoice) {
    && c.openOk && c.popped >= |l.current| + |l.queue|
    && c.accepted >= |l.buffer| + |EncodeAll(l.current + l.queue, UNIX)|
  }

  /** Lines and bytes that have not got to a file. */
  function Waiting(l: Log): nat {
    |l.queue| + |l.current| + |l.buffer|
  }

  predicate Idle(l: Log) {
    l.queue == [] && l.current == [] && l.buffer == ""
  }

  /** Nothing waits for the open file, and the next lines are for another day. */
  predicate DayOver(l: Log) {
    l.current == [] && l.buffer == "" && l.queue != [] && l.queue[0].day != l.day
  }

  lemma {:induction false} MoveTodaySplits(l: Log)
    ensures var l' := MoveToday(l);
            && l' == l.(current := l'.current, queue := l'.queue)
            && l'.current + l'.queue == l.current + l.queue && |l'.queue| <= |l.queue|
            && (l.queue != [] && l.queue[0].day == l.day ==> |l'.queue| < |l.queue|)
    decreases |l.queue|
  {
    if l.queue != [] && l.queue[0].day == l.day {
      var l1 := l.(current := l.current + [l.queue[0]], queue := l.queue[1..]);
      HeadTail(l.queue);
      Assoc(l.current, [l.queue[0]], l.queue[1..]);
      MoveTodaySplits(l1);
    }
  }

  /** A file that takes everything gets everything. */
  lemma WritesAll(l: Log, c: LogChoice)
    requires l.fd.Some? && c.popped >= |l.current| && c.accepted >= |l.buffer| + |EncodeAll(l.current, UNIX)|
    ensures var l' := WriteLog(l, c);
            && l'.current == [] && l'.buffer == "" && l'.queue == l.queue && l'.day == l.day && l'.fd == l.fd
            && l'.handed == l.handed + l.current
            && File(l', l.fd.value) == File(l, l.fd.value) + l.buffer + EncodeAll(l.current, UNIX)
  {
    assert l.current[..|l.current|] == l.current;
    var bytes := l.buffer + EncodeAll(l.current, UNIX);
    assert bytes[..|bytes|] == bytes;
    Assoc(File(l, l.fd.value), l.buffer, EncodeAll(l.current, UNIX));
  }

  /** The lines that the first lines of the queue join can be taken, too. */
  lemma MovedFit(l: Log, c: LogChoice)
    requires TakesAll(l, c)
    ensures var l' := MoveToday(l);
            c.popped >= |l'.current| && c.accepted >= |l'.buffer| + |EncodeAll(l'.current, UNIX)|
  {
    MoveTodaySplits(l);
    EncodeAllConcat(MoveToday(l).current, MoveToday(l).queue, UNIX);
  }

  /** How much a file would have taken does not matter once it has taken everything. */
  lemma TookAll(l: Log, logging: bool, today: int, c: LogChoice, all: LogChoice)
    requires TakesAll(l, all)
    requires FlushLog(l, logging, today, c).current == [] && FlushLog(l, logging, today, c).buffer == ""
    ensures FlushLog(l, logging, today, all) == FlushLog(l, logging, today, c)
  {
    if !Idle(l) && !DayOver(l) {
      var l1 := MoveToday(l);
      MoveTodaySplits(l);
      MovedFit(l, all);
      if l1.fd.Some? {
        SameWrite(l1, c, all);
      } else if l1.current != [] && c.openOk {
        SameWrite(OpenLog(l1, true), c, all);
      }
    }
  }

  lemma SameWrite(l: Log, c: LogChoice, all: LogChoice)
    requires all.popped >= |l.current| && all.accepted >= |l.buffer| + |EncodeAll(l.current, UNIX)|
    requires l.fd.Some? && WriteLog(l, c).current == [] && WriteLog(l, c).buffer == ""
    ensures WriteLog(l, all) == WriteLog(l, c)
  {
    var k := Min(c.popped, |l.current|);
    assert |l.current[k..]| == 0;
    assert l.current[..k] == l.current;
    var bytes := l.buffer + EncodeAll(l.current, UNIX);
    assert |bytes[Min(c.accepted, |bytes|)..]| == 0;
  }

  /** One such flush, when something waits: afterwards nothing waits for the file that is open,
      no line is lost, and either less waits than before, or the file of the day that is
      over is closed and it is the turn of the day of the next line. */
  lemma FlushBrings(l: Log, logging: bool, today: int, c: LogChoice)
    requires LogInv(l) && TakesAll(l, c) && !Idle(l)
    ensures var l' := FlushLog(l, logging, today, c);
            && l'.current == [] && l'.buffer == "" && Alive(l') == Alive(l)
            && l'.dropped == l.dropped && l'.reported == l.reported && l'.submitted == l.submitted
            && if DayOver(l) then l'.queue == l.queue && l'.day == l.queue[0].day && l'.fd.None?
               else |l'.queue| <= |l.queue| && Waiting(l') < Waiting(l)
                    && (l.queue != [] && l.queue[0].day == l.day ==> |l'.queue| < |l.queue|)
  {
    if !DayOver(l) {
      var l1 := MoveToday(l);
      MoveTodaySplits(l);
      MovedFit(l, c);
      var l2 := if l1.fd.None? && l1.current != [] then OpenLog(l1, c.openOk) else l1;
      if l1.current == [] {
        assert l.current == [] && l.buffer != "";
      }
      WritesAll(l2, c);
      HandedAll(l, l1, FlushLog(l, logging, today, c));
    }
  }

  lemma HandedAll(l: Log, l1: Log, l': Log)
    requires l1.current + l1.queue == l.current + l.queue && l1.handed == l.handed
    requires l'.handed == l1.handed + l1.current && l'.current == [] && l'.queue == l1.queue
    ensures Alive(l') == Alive(l)
  {
    EmptyEnds(l'.handed);
    Assoc(l.handed, l1.current, l1.queue);
    Assoc(l.handed, l.current, l.queue);
  }

  /** The flush after the end of a day hands lines over. */
  lemma NextFlushBrings(l: Log, logging: bool, today: int, c: LogChoice, logging': bool, today': int, c': LogChoice)
    requires LogInv(l) && DayOver(l) && TakesAll(l, c)
    requires TakesAll(FlushLog(l, logging, today, c), c')
    ensures var l' := FlushLog(FlushLog(l, logging, today, c), logging', today', c');
            |l'.handed| > |l.handed| && Waiting(l') < Waiting(l)
  {
    FlushBrings(l, logging, today, c);
    FlushLogKeeps(l, logging, today, c);
    FlushBrings(FlushLog(l, logging, today, c), logging', today', c');
  }

  // ---------------------------------------------------------------------
  // Any number of flushes
  // ---------------------------------------------------------------------

  /** Nothing but flushes, and the files take everything. */
  predicate GoodFlushes(l: Log, steps: seq<LogStep>)
    decreases steps
  {
    steps == [] ||
      (steps[0].LogFlush? && TakesAll(l, steps[0].choice) && GoodFlushes(DoLog(l, steps[0]), steps[1..]))
  }

  /** The flushes that are needed at most when nothing waits for the open file. */
  function Flushes(l: Log): nat {
    2 * |l.queue| + if DayOver(l) then 1 else 0
  }

  /** A file that cannot be opened, or does not take everything, is an error; nothing else is. */
  lemma FailureNoted(l: Log, logging: bool, today: int, c: LogChoice)
    requires LogInv(l) && !Idle(l) && !DayOver(l)
    ensures var l' := FlushLog(l, logging, today, c);
            && (l.fd.None? ==> (l'.fd.Some? <==> c.openOk))
            && (l'.failing <==> l.failing || l'.fd.None? || l'.buffer != "")
  {
    var l1 := MoveToday(l);
    MoveTodaySplits(l);
    MoveTodayKeeps(l);
  }

  /** With nothing to log, the file is closed if logging is off or its day is not today, and
      what went wrong is over: the user is told of every line that was dropped. */
  lemma IdleCloses(l: Log, logging: bool, today: int, c: LogChoice)
    requires Idle(l)
    ensures var l' := FlushLog(l, logging, today, c);
            && l'.fd == (if logging && l.day == today then l.fd else None)
            && !l'.failing && l'.day == l.day && l'.files == l.files && l'.dropped + l'.reported == l.dropped + l.reported
            && l'.dropped == if l.failing then 0 else l.dropped
  {
  }

  lemma IdleStays(l: Log, logging: bool, today: int, c: LogChoice)
    requires LogInv(l) && Idle(l)
    ensures var l' := FlushLog(l, logging, today, c);
            Idle(l') && Alive(l') == Alive(l) && l'.submitted == l.submitted
            && l'.dropped + l'.reported == l.dropped + l.reported
  {
  }

  /** The log has got nothing and lost nothing. */
  predicate SameLines(l: Log, l': Log) {
    Alive(l') == Alive(l) && l'.submitted == l.submitted && l'.dropped + l'.reported == l.dropped + l.reported
  }

  lemma {:induction false} FlushesDrain(l: Log, steps: seq<LogStep>)
    requires LogInv(l) && l.current == [] && l.buffer == "" && GoodFlushes(l, steps) && |steps| >= Flushes(l)
    ensures var l' := RunLog(l, steps); Idle(l') && SameLines(l, l') && LogInv(l')
    decreases steps
  {
    if steps != [] {
      var f := steps[0];
      var l1 := DoLog(l, f);
      FlushLogKeeps(l, f.logging, f.today, f.choice);
      if Idle(l) {
        IdleStays(l, f.logging, f.today, f.choice);
      } else {
        FlushBrings(l, f.logging, f.today, f.choice);
      }
      FlushesDrain(l1, steps[1..]);
    }
  }

  lemma DrainFrom(l: Log, steps: seq<LogStep>)
    requires LogInv(l) && GoodFlushes(l, steps) && |steps| >= 2 * |l.queue| + 2
    ensures var l' := RunLog(l, steps); Idle(l') && SameLines(l, l') && LogInv(l')
  {
    var f := steps[0];
    FlushLogKeeps(l, f.logging, f.today, f.choice);
    if Idle(l) {
      IdleStays(l, f.logging, f.today, f.choice);
    } else {
      FlushBrings(l, f.logging, f.today, f.choice);
    }
    FlushesDrain(DoLog(l, f), steps[1..]);
  }

  lemma FilesOfIdle(l: Log, day: int)
    requires LogInv(l) && Idle(l)
    ensures File(l, day) == EncodeAll(OfDay(Alive(l), day), UNIX)
  {
    assert FileExact(l, day);
    EmptyEnds(File(l, day));
    EmptyEnds(l.handed);
  }

  lemma {:induction false} WholeSubseq<T>(a: seq<T>, b: seq<T>)
    requires Subseq(a, b)
    ensures |a| <= |b| && (|a| == |b| ==> a == b)
    decreases b
  {
    if a != [] {
      var i, j := |a| - 1, |b| - 1;
      SplitAt(a, i);
      SplitAt(b, j);
      if a[i] == b[j] && Subseq(a[..i], b[..j]) {
        WholeSubseq(a[..i], b[..j]);
      } else {
        WholeSubseq(a, b[..j]);
      }
    }
  }

  /** Whatever has happened to the log: once its files take everything, 2n + 2 flushes are
      enough when n lines are in log_queue.  Then nothing waits, the file of each day holds
      all lines of that day that were not dropped, in their order, and if none was dropped,
      all that were logged. */
  lemma LogDrains(before: seq<LogStep>, flushes: seq<LogStep>, day: int)
    requires var l := RunLog(EMPTY_LOG, before); GoodFlushes(l, flushes) && |flushes| >= 2 * |l.queue| + 2
    ensures var l, l' := RunLog(EMPTY_LOG, before), RunLog(RunLog(EMPTY_LOG, before), flushes);
            && Idle(l') && File(l', day) == EncodeAll(OfDay(Alive(l), day), UNIX)
            && Subseq(Alive(l), l.submitted) && |l.submitted| == |Alive(l)| + l.dropped + l.reported
            && (l.dropped + l.reported == 0 ==> File(l', day) == EncodeAll(OfDay(l.submitted, day), UNIX))
  {
    var l := RunLog(EMPTY_LOG, before);
    EmptyLogKept();
    RunLogKeeps(EMPTY_LOG, before);
    DrainFrom(l, flushes);
    FilesOfIdle(RunLog(l, flushes), day);
    WholeSubseq(Alive(l), l.submitted);
  }
}
