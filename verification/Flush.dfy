/** Queued lines to bytes (misc.c: flush_buffer), and the round trip through
    buffer_to_lines. */
module Flush {
  import opened Sequences
  import opened Lines
  import opened Codec

  // ---------------------------------------------------------------------
  // The bytes of a line
  // ---------------------------------------------------------------------

  /** What flush_buffer puts around a line: the newline and the optional strings. */
  datatype Wrap = Wrap(networkNl: bool, pre: Option<string>, post: Option<string>)

  const NETWORK := Wrap(true, None, None)
  const UNIX := Wrap(false, None, None)

  function TextOf(o: Option<string>): string {
    if o.Some? then o.value else ""
  }

  /** A line that would never fit is cut off. */
  function Cut(s: string): string {
    if |s| > NET_BBUFFER_LEN then s[..NET_BBUFFER_LEN] else s
  }

  function Encode(s: string, w: Wrap): string {
    TextOf(w.pre) + Cut(s) + (if w.networkNl then "\r\n" else "\n") + TextOf(w.post)
  }

  function EncodeAll(ls: seq<LineData>, w: Wrap): string {
    if ls == [] then "" else Encode(ls[0].str, w) + EncodeAll(ls[1..], w)
  }

  lemma {:induction false} EncodeAllConcat(a: seq<LineData>, b: seq<LineData>, w: Wrap)
    ensures EncodeAll(a + b, w) == EncodeAll(a, w) + EncodeAll(b, w)
  {
    if a == [] {
      EmptyEnds(b);
      EmptyEnds(EncodeAll(b, w));
    } else {
      assert (a + b)[0] == a[0] && (a + b)[1..] == a[1..] + b;
      EncodeAllConcat(a[1..], b, w);
      Assoc(Encode(a[0].str, w), EncodeAll(a[1..], w), EncodeAll(b, w));
    }
  }

  /** The strings around a line, with the NUL that strcpy adds, fit in the slack
      between the pretended and the real size of the buffer. */
  predicate FitsSlack(w: Wrap) {
    |TextOf(w.pre)| + 2 + |TextOf(w.post)| + 1 <= NET_BBUFFER_ALLOC - NET_BBUFFER_LEN
  }

  /** The lines that go to the history queue, if there is one. */
  function Kept(ls: seq<LineData>): seq<LineData> {
    if ls == [] then []
    else (if ls[0].flags.noHist then [] else [ls[0]]) + Kept(ls[1..])
  }

  lemma {:induction false} KeptConcat(a: seq<LineData>, b: seq<LineData>)
    ensures Kept(a + b) == Kept(a) + Kept(b)
  {
    if a == [] {
      assert a + b == b;
    } else {
      assert (a + b)[1..] == a[1..] + b;
      KeptConcat(a[1..], b);
    }
  }

  // ---------------------------------------------------------------------
  // flush_buffer
  // ---------------------------------------------------------------------

  /** A socket or file that accepts what it likes: all of a write, a part, nothing, or
      an error. */
  class Fd {
    ghost var accepted: string         // all that it has taken
    ghost var writes: nat              // how often it was asked
    ghost var offered: string          // the last time: what it was asked to take,
    ghost var last: int                // what write returned,
    ghost var lastAgain: bool          // and whether errno was EAGAIN

    constructor ()
      ensures accepted == ""
    {
      accepted, writes, offered, last, lastAgain := "", 0, "", 0, false;
    }

    /** write(2); `again` tells whether errno is EAGAIN. */
    method Write(buffer: array<char>, n: nat) returns (wr: int, again: bool)
      requires 0 < n <= buffer.Length
      modifies this
      ensures -1 <= wr <= n
      ensures accepted == old(accepted) + (if wr > 0 then buffer[..wr] else "")
      ensures writes == old(writes) + 1 && offered == buffer[..n] && last == wr && lastAgain == again
    {
      wr :| -1 <= wr <= n;
      again := *;
      accepted := accepted + (if wr > 0 then buffer[..wr] else "");
      writes, offered, last, lastAgain := writes + 1, buffer[..n], wr, again;
    }
  }

  /** strcpy into the buffer, with its NUL. */
  method StrCopyIn(buffer: array<char>, at: nat, s: string)
    requires at + |s| + 1 <= buffer.Length
    modifies buffer
    ensures buffer[..at + |s|] == old(buffer[..at]) + s
  {
    CopyIn(buffer, at, s);
    buffer[at + |s|] := '\0';
  }

  /** The prepend- or append-string, if present. */
  method CopyOptional(buffer: array<char>, at: nat, o: Option<string>) returns (at': nat)
    requires at + |TextOf(o)| + 1 <= buffer.Length
    modifies buffer
    ensures at' == at + |TextOf(o)| && buffer[..at'] == old(buffer[..at]) + TextOf(o)
  {
    at' := at;
    if o.Some? {
      StrCopyIn(buffer, at, o.value);
      at' := at + |o.value|;
    }
  }

  /** The line, up to the size of the buffer. */
  method CopyLine(buffer: array<char>, at: nat, line: string) returns (at': nat)
    requires at + |Cut(line)| <= buffer.Length
    modifies buffer
    ensures at' == at + |Cut(line)| && buffer[..at'] == old(buffer[..at]) + Cut(line)
  {
    var len := if |line| > NET_BBUFFER_LEN then NET_BBUFFER_LEN else |line|;
    assert line[..len] == Cut(line);
    CopyIn(buffer, at, line[..len]);
    at' := at + len;
  }

  /** One line into the buffer: prepend-string, line, newline, append-string. */
  method PackLine(buffer: array<char>, full: nat, line: string, w: Wrap) returns (full': nat)
    requires buffer.Length >= NET_BBUFFER_ALLOC && FitsSlack(w)
    requires full + |Cut(line)| <= NET_BBUFFER_LEN
    modifies buffer
    ensures full' == full + |Encode(line, w)| && full' < NET_BBUFFER_ALLOC
    ensures buffer[..full'] == old(buffer[..full]) + Encode(line, w)
  {
    ghost var base, pre, post := buffer[..full], TextOf(w.pre), TextOf(w.post);
    full' := CopyOptional(buffer, full, w.pre);
    full' := CopyLine(buffer, full', line);
    var nl := if w.networkNl then "\r\n" else "\n";
    CopyIn(buffer, full', nl);
    full' := full' + |nl|;
    full' := CopyOptional(buffer, full', w.post);
    Assoc(base, pre, Cut(line));
    Assoc(base, pre + Cut(line), nl);
    Assoc(base, pre + Cut(line) + nl, post);
  }

  /** The bytes that flush_buffer has taken over: those in the buffer and those of the
      lines popped so far. */
  ghost function Taken(start: string, queue: seq<LineData>, popped: nat, w: Wrap): string
    requires popped <= |queue|
  {
    start + EncodeAll(queue[..popped], w)
  }

  /** The history queue once the first `popped` lines have left. */
  ghost function Filed(tohist: bool, hist: seq<LineData>, queue: seq<LineData>, popped: nat): seq<LineData>
    requires popped <= |queue|
  {
    if tohist then hist + Kept(queue[..popped]) else hist
  }

  predicate Fits(full: nat, line: LineData) {
    full + |Cut(line.str)| <= NET_BBUFFER_LEN
  }

  /** The inner loop: as many queued lines as fit go into the buffer. */
  method Pack(buffer: array<char>, full: nat, queue: seq<LineData>,
              tohist: bool, hist: seq<LineData>, w: Wrap)
    returns (full': nat, popped: nat, hist': seq<LineData>)
    requires buffer.Length >= NET_BBUFFER_ALLOC && FitsSlack(w) && full <= NET_BBUFFER_ALLOC
    modifies buffer
    ensures popped <= |queue| && full' <= NET_BBUFFER_ALLOC
    ensures buffer[..full'] == Taken(old(buffer[..full]), queue, popped, w)
    ensures hist' == Filed(tohist, hist, queue, popped)
    ensures full == 0 && queue != [] ==> full' > 0
    ensures popped < |queue| ==> !Fits(full', queue[popped])
  {
    full', popped, hist' := full, 0, hist;
    ghost var base := buffer[..full];
    assert queue[..0] == [];
    while popped < |queue|
      invariant popped <= |queue| && full' <= NET_BBUFFER_ALLOC
      invariant buffer[..full'] == Taken(base, queue, popped, w)
      invariant hist' == Filed(tohist, hist, queue, popped)
      invariant if popped == 0 then full' == full else full' > 0
    {
      var line := queue[popped];
      var len := if |line.str| > NET_BBUFFER_LEN then NET_BBUFFER_LEN else |line.str|;
      if full' + len > NET_BBUFFER_LEN {
        break;
      }
      PackStep(base, tohist, hist, queue, popped, w);
      full' := PackLine(buffer, full', line.str, w);
      if tohist && !line.flags.noHist {
        hist' := hist' + [line];
      }
      popped := popped + 1;
    }
  }

  lemma PackStep(base: string, tohist: bool, hist: seq<LineData>, queue: seq<LineData>, k: nat, w: Wrap)
    requires k < |queue|
    ensures Taken(base, queue, k + 1, w) == Taken(base, queue, k, w) + Encode(queue[k].str, w)
    ensures Filed(tohist, hist, queue, k + 1)
         == Filed(tohist, hist, queue, k) + (if tohist && !queue[k].flags.noHist then [queue[k]] else [])
  {
    assert queue[..k + 1] == queue[..k] + [queue[k]];
    EncodeAllConcat(queue[..k], [queue[k]], w);
    assert EncodeAll([queue[k]], w) == Encode(queue[k].str, w) + "";
    Assoc(base, EncodeAll(queue[..k], w), Encode(queue[k].str, w));
    KeptConcat(queue[..k], [queue[k]]);
    assert Kept([queue[k]]) == (if queue[k].flags.noHist then [] else [queue[k]]) + [];
  }

  datatype FlushResult = Flushed | Congested | Failed

  /** One write; what was not accepted moves to the start of the buffer. */
  method WriteOut(fd: Fd, buffer: array<char>, full: nat) returns (wr: int, again: bool, left: nat)
    requires 0 < full <= buffer.Length
    modifies fd, buffer
    ensures -1 <= wr <= full && left == if wr <= 0 then full else full - wr
    ensures fd.accepted + buffer[..left] == old(fd.accepted) + old(buffer[..full])
    ensures old(fd.accepted) <= fd.accepted
    ensures fd.writes == old(fd.writes) + 1 && fd.last == wr && fd.lastAgain == again
    ensures wr <= 0 ==> fd.offered == buffer[..left]
  {
    wr, again := fd.Write(buffer, full);
    left := full;
    if wr > 0 {
      assert buffer[..full] == buffer[..wr] + buffer[wr..full];
      Assoc(old(fd.accepted), buffer[..wr], buffer[wr..full]);
      if wr < full {
        MoveToFront(buffer, wr, full - wr);
      }
      left := full - wr;
    }
  }

  /** One turn of the outer loop: fill the buffer, and write. */
  method FlushTurn(fd: Fd, buffer: array<char>, full: nat, queue: seq<LineData>, popped: nat,
                   tohist: bool, hist: seq<LineData>, filed: seq<LineData>, w: Wrap, ghost start: string)
    returns (full': nat, popped': nat, filed': seq<LineData>, wr: int, again: bool)
    requires buffer.Length >= NET_BBUFFER_ALLOC && FitsSlack(w) && full <= NET_BBUFFER_ALLOC
    requires popped <= |queue| && (full > 0 || popped < |queue|)
    requires fd.accepted + buffer[..full] == Taken(start, queue, popped, w)
    requires filed == Filed(tohist, hist, queue, popped)
    modifies fd, buffer
    ensures popped <= popped' <= |queue| && full' <= NET_BBUFFER_ALLOC
    ensures fd.accepted + buffer[..full'] == Taken(start, queue, popped', w) && old(fd.accepted) <= fd.accepted
    ensures filed' == Filed(tohist, hist, queue, popped')
    ensures wr >= -1 && fd.writes == old(fd.writes) + 1 && fd.last == wr && fd.lastAgain == again
    ensures wr <= 0 ==> full' > 0 && fd.offered == buffer[..full']
                        && (popped' < |queue| ==> !Fits(full', queue[popped']))
    ensures wr > 0 ==> |EncodeAll(queue[popped'..], w)| + full' < |EncodeAll(queue[popped..], w)| + full
  {
    full', popped', filed' := PackOn(buffer, full, queue, popped, tohist, hist, filed, w, start, fd.accepted);
    wr, again, full' := WriteOut(fd, buffer, full');
  }

  /** The lines that fit now. */
  method PackOn(buffer: array<char>, full: nat, queue: seq<LineData>, popped: nat, tohist: bool,
                hist: seq<LineData>, filed: seq<LineData>, w: Wrap, ghost start: string, ghost accepted: string)
    returns (full': nat, popped': nat, filed': seq<LineData>)
    requires buffer.Length >= NET_BBUFFER_ALLOC && FitsSlack(w) && full <= NET_BBUFFER_ALLOC
    requires popped <= |queue| && (full > 0 || popped < |queue|)
    requires accepted + buffer[..full] == Taken(start, queue, popped, w)
    requires filed == Filed(tohist, hist, queue, popped)
    modifies buffer
    ensures popped <= popped' <= |queue| && 0 < full' <= NET_BBUFFER_ALLOC
    ensures accepted + buffer[..full'] == Taken(start, queue, popped', w)
    ensures filed' == Filed(tohist, hist, queue, popped')
    ensures popped' < |queue| ==> !Fits(full', queue[popped'])
    ensures |EncodeAll(queue[popped'..], w)| + full' == |EncodeAll(queue[popped..], w)| + full
  {
    ghost var waiting := buffer[..full];
    var k;
    full', k, filed' := Pack(buffer, full, queue[popped..], tohist, filed, w);
    Repack(queue, popped, k, accepted, waiting, start, w);
    Refile(queue, popped, k, tohist, hist);
    popped' := popped + k;
  }

  /** flush_buffer.  `popped` counts the lines that left the queue; those that are not
      flagged otherwise go to the history queue `hist` when `tohist` is not NULL. */
  method FlushBuffer(fd: Fd, buffer: array<char>, bffl: nat, queue: seq<LineData>,
                     tohist: bool, hist: seq<LineData>, w: Wrap)
    returns (result: FlushResult, full: nat, popped: nat, hist': seq<LineData>)
    requires buffer.Length >= NET_BBUFFER_ALLOC && FitsSlack(w) && bffl <= NET_BBUFFER_ALLOC
    modifies fd, buffer
    ensures popped <= |queue| && full <= NET_BBUFFER_ALLOC
    ensures fd.accepted + buffer[..full]
         == Taken(old(fd.accepted) + old(buffer[..bffl]), queue, popped, w)
    ensures old(fd.accepted) <= fd.accepted
    ensures hist' == Filed(tohist, hist, queue, popped)
    ensures result == Flushed <==> full == 0
    ensures result == Flushed ==> popped == |queue|
    ensures result != Flushed ==>
              && fd.writes > old(fd.writes) && fd.last <= 0 && fd.offered == buffer[..full]
              && (popped < |queue| ==> !Fits(full, queue[popped]))
    ensures result == Failed <==> full > 0 && fd.last == -1 && !fd.lastAgain
  {
    full, popped, hist' := bffl, 0, hist;
    ghost var start := fd.accepted + buffer[..bffl];
    assert queue[..0] == [];
    while full > 0 || popped < |queue|
      invariant popped <= |queue| && full <= NET_BBUFFER_ALLOC
      invariant fd.accepted + buffer[..full] == Taken(start, queue, popped, w)
      invariant old(fd.accepted) <= fd.accepted
      invariant hist' == Filed(tohist, hist, queue, popped) && fd.writes >= old(fd.writes)
      decreases |EncodeAll(queue[popped..], w)| + full
    {
      var wr, again;
      full, popped, hist', wr, again := FlushTurn(fd, buffer, full, queue, popped, tohist, hist, hist', w, start);
      // Refused.
      if wr == -1 || wr == 0 {
        result := if wr == -1 && !again then Failed else Congested;
        return;
      }
    }
    result := Flushed;
  }

  lemma Repack(queue: seq<LineData>, i: nat, k: nat, base: string, waiting: string, start: string, w: Wrap)
    requires i + k <= |queue|
    requires base + waiting == Taken(start, queue, i, w)
    ensures base + Taken(waiting, queue[i..], k, w) == Taken(start, queue, i + k, w)
    ensures |EncodeAll(queue[i..], w)| == |EncodeAll(queue[i..][..k], w)| + |EncodeAll(queue[i + k..], w)|
  {
    var mid := queue[i..][..k];
    assert queue[..i + k] == queue[..i] + mid;
    assert queue[i..] == mid + queue[i + k..];
    EncodeAllConcat(queue[..i], mid, w);
    EncodeAllConcat(mid, queue[i + k..], w);
    Assoc(base, waiting, EncodeAll(mid, w));
    Assoc(start, EncodeAll(queue[..i], w), EncodeAll(mid, w));
  }

  lemma Refile(queue: seq<LineData>, i: nat, k: nat, tohist: bool, hist: seq<LineData>)
    requires i + k <= |queue|
    ensures Filed(tohist, Filed(tohist, hist, queue, i), queue[i..], k) == Filed(tohist, hist, queue, i + k)
  {
    assert queue[..i + k] == queue[..i] + queue[i..][..k];
    KeptConcat(queue[..i], queue[i..][..k]);
    Assoc(hist, Kept(queue[..i]), Kept(queue[i..][..k]));
  }
}
