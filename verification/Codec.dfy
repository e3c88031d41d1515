/** Bytes to lines and lines to bytes (misc.c: buffer_to_lines, flush_buffer).

    A byte is a `char`; nothing here depends on its upper bound. */
module Codec {
  import opened Sequences
  import opened Lines

  const NET_BBUFFER_LEN: nat := 65536
  const NET_BBUFFER_ALLOC: nat := NET_BBUFFER_LEN + 512

  datatype Option<T> = None | Some(value: T)

  // ---------------------------------------------------------------------
  // The splitter, one byte at a time
  // ---------------------------------------------------------------------

  /** The lines found so far and the bytes that are not a line yet. */
  datatype Split = Split(lines: seq<string>, rest: string)

  const NOTHING := Split([], "")

  /** A line loses one leading and then one trailing \r. */
  function Chop(s: string): string {
    var t := if s != [] && s[0] == '\r' then s[1..] else s;
    if t != [] && t[|t| - 1] == '\r' then t[..|t| - 1] else t
  }

  /** No more than one \r goes at either end. */
  lemma ChopExact(s: string)
    ensures Chop("\r" + s + "\r") == s
    ensures s == "" || s[|s| - 1] != '\r' ==> Chop("\r" + s) == s
    ensures s == "" || s[0] != '\r' ==> Chop(s + "\r") == s
    ensures (s == "" || (s[0] != '\r' && s[|s| - 1] != '\r')) ==> Chop(s) == s
  {
    assert ("\r" + s + "\r")[1..] == s + "\r";
    assert (s + "\r")[..|s|] == s && ("\r" + s)[1..] == s;
  }

  /** A line ends at \n, or when NET_BBUFFER_LEN bytes are pending. */
  function FeedChar(s: Split, c: char): Split {
    if c == '\n' then Split(s.lines + [Chop(s.rest)], "")
    else if |s.rest| + 1 == NET_BBUFFER_LEN then Split(s.lines + [Chop(s.rest + [c])], "")
    else Split(s.lines, s.rest + [c])
  }

  function Feed(s: Split, bytes: string): Split
    decreases bytes
  {
    if bytes == [] then s else Feed(FeedChar(s, bytes[0]), bytes[1..])
  }

  /** Reads that arrive as chunks. */
  function FeedChunks(s: Split, chunks: seq<string>): Split
    decreases chunks
  {
    if chunks == [] then s else FeedChunks(Feed(s, chunks[0]), chunks[1..])
  }

  function Flatten(chunks: seq<string>): string {
    if chunks == [] then "" else chunks[0] + Flatten(chunks[1..])
  }

  lemma {:induction false} FeedConcat(s: Split, a: string, b: string)
    ensures Feed(s, a + b) == Feed(Feed(s, a), b)
    decreases a
  {
    if a == [] {
      assert a + b == b;
    } else {
      assert (a + b)[1..] == a[1..] + b;
      FeedConcat(FeedChar(s, a[0]), a[1..], b);
    }
  }

  /** However a stream is cut into reads, the outcome is that of the whole stream. */
  lemma {:induction false} ChunkIndependence(s: Split, chunks: seq<string>)
    ensures FeedChunks(s, chunks) == Feed(s, Flatten(chunks))
    decreases chunks
  {
    if chunks != [] {
      FeedConcat(s, chunks[0], Flatten(chunks[1..]));
      ChunkIndependence(Feed(s, chunks[0]), chunks[1..]);
    }
  }

  /** Bytes without a newline that leave room just wait. */
  lemma {:induction false} FeedPlain(s: Split, bytes: string)
    requires '\n' !in bytes && |s.rest| + |bytes| < NET_BBUFFER_LEN
    ensures Feed(s, bytes) == Split(s.lines, s.rest + bytes)
    decreases bytes
  {
    if bytes == [] {
      assert s.rest + bytes == s.rest;
    } else {
      FeedPlain(FeedChar(s, bytes[0]), bytes[1..]);
      assert s.rest + [bytes[0]] + bytes[1..] == s.rest + bytes;
    }
  }

  /** Bytes without a newline that fill the buffer become a line. */
  lemma FeedFull(s: Split, bytes: string)
    requires '\n' !in bytes && bytes != [] && |s.rest| + |bytes| == NET_BBUFFER_LEN
    ensures Feed(s, bytes) == Split(s.lines + [Chop(s.rest + bytes)], "")
  {
    var k := |bytes| - 1;
    assert bytes == bytes[..k] + [bytes[k]];
    FeedConcat(s, bytes[..k], [bytes[k]]);
    FeedPlain(s, bytes[..k]);
    assert s.rest + bytes[..k] + [bytes[k]] == s.rest + bytes;
    assert Feed(Split(s.lines, s.rest + bytes[..k]), [bytes[k]])
        == FeedChar(Split(s.lines, s.rest + bytes[..k]), bytes[k]);
  }

  /** A newline ends the line made of what is pending. */
  lemma FeedLine(s: Split, bytes: string)
    requires '\n' !in bytes && |s.rest| + |bytes| < NET_BBUFFER_LEN
    ensures Feed(s, bytes + "\n") == Split(s.lines + [Chop(s.rest + bytes)], "")
  {
    FeedConcat(s, bytes, "\n");
    FeedPlain(s, bytes);
    var t := Split(s.lines, s.rest + bytes);
    assert Feed(t, "\n") == FeedChar(t, '\n');
  }

  /** What is pending has no newline and leaves room for one more byte, so a scan may
      resume where the last one stopped. */
  lemma {:induction false} RestIsPending(s: Split, bytes: string)
    requires '\n' !in s.rest && |s.rest| < NET_BBUFFER_LEN
    ensures '\n' !in Feed(s, bytes).rest && |Feed(s, bytes).rest| < NET_BBUFFER_LEN
    decreases bytes
  {
    if bytes != [] {
      RestIsPending(FeedChar(s, bytes[0]), bytes[1..]);
    }
  }

  /** No line is longer than the buffer. */
  lemma {:induction false} LinesFit(s: Split, bytes: string)
    requires |s.rest| < NET_BBUFFER_LEN && forall l <- s.lines :: |l| <= NET_BBUFFER_LEN
    ensures forall l <- Feed(s, bytes).lines :: |l| <= NET_BBUFFER_LEN
    decreases bytes
  {
    if bytes != [] {
      LinesFit(FeedChar(s, bytes[0]), bytes[1..]);
    }
  }

  /** The lines already found do not matter for the rest. */
  lemma {:induction false} FeedAfter(lines: seq<string>, s: Split, bytes: string)
    ensures Feed(Split(lines + s.lines, s.rest), bytes)
         == Split(lines + Feed(s, bytes).lines, Feed(s, bytes).rest)
    decreases bytes
  {
    if bytes != [] {
      var t := FeedChar(s, bytes[0]);
      assert FeedChar(Split(lines + s.lines, s.rest), bytes[0]) == Split(lines + t.lines, t.rest);
      FeedAfter(lines, t, bytes[1..]);
    }
  }

  // ---------------------------------------------------------------------
  // buffer_to_lines
  // ---------------------------------------------------------------------

  /** The line objects made of the lines that one read completed. */
  function Stamp(lines: seq<string>, clock: Clock, first: nat): seq<LineData> {
    seq(|lines|, i requires 0 <= i < |lines| => NewLine(lines[i], clock, Wire(first + i)))
  }

  /** The line in a stretch of the buffer, without its \r's. */
  method TakeLine(buffer: array<char>, from: nat, end: nat, ghost data: string) returns (line: string)
    requires from <= end < buffer.Length && buffer[end] == '\n'
    requires end <= |data| <= buffer.Length && data == buffer[..|data|]
    ensures line == Chop(data[from..end])
  {
    assert from < end ==> data[from] == buffer[from] && data[end - 1] == buffer[end - 1];
    var start := from;
    if buffer[start] == '\r' {
      start := start + 1;
    }
    var len := end - start;
    if end > start && buffer[end - 1] == '\r' {
      len := len - 1;
    }
    line := buffer[start..start + len];
    ArraySlice(buffer, |data|, start, start + len);
    ChopSlice(data, from, end);
  }

  lemma ArraySlice(buffer: array<char>, n: nat, from: nat, end: nat)
    requires from <= end <= n <= buffer.Length
    ensures buffer[..n][from..end] == buffer[from..end]
  {
  }

  /** The same on a sequence. */
  lemma ChopSlice(data: string, from: nat, end: nat)
    requires from <= end <= |data|
    ensures var start := if from < end && data[from] == '\r' then from + 1 else from;
            var stop := if start < end && data[end - 1] == '\r' then end - 1 else end;
            Chop(data[from..end]) == data[start..stop]
  {
    var start := if from < end && data[from] == '\r' then from + 1 else from;
    var s, t := data[from..end], data[start..end];
    if start > from {
      SliceSlice(data, from, end, 1, end - from);
      SliceToEnd(s, 1);
    }
    assert t == if s != [] && s[0] == '\r' then s[1..] else s;
    if start < end {
      SliceSlice(data, start, end, 0, end - 1 - start);
    }
  }

  /** memcpy into the buffer. */
  method CopyIn(buffer: array<char>, at: nat, s: string)
    requires at + |s| <= buffer.Length
    modifies buffer
    ensures buffer[..at + |s|] == old(buffer[..at]) + s
    ensures buffer[at + |s|..] == old(buffer[at + |s|..])
  {
    forall i | 0 <= i < |s| {
      buffer[at + i] := s[i];
    }
  }

  /** memmove to the start of the buffer. */
  method MoveToFront(buffer: array<char>, start: nat, n: nat)
    requires start + n <= buffer.Length
    modifies buffer
    ensures buffer[..n] == old(buffer[start..start + n])
  {
    forall i | 0 <= i < n {
      buffer[i] := buffer[start + i];
    }
  }

  /** The scan of buffer_to_lines: the lines and the start of what is left. */
  method Scan(buffer: array<char>, offset: nat, eob: nat) returns (start: nat, lines: seq<string>)
    requires buffer.Length >= NET_BBUFFER_ALLOC
    requires offset < NET_BBUFFER_LEN && offset <= eob <= NET_BBUFFER_LEN
    requires '\n' !in buffer[..offset]
    modifies buffer
    ensures start <= eob && eob - start < NET_BBUFFER_LEN
    ensures var data := old(buffer[..eob]);
            buffer[..eob] == data && '\n' !in data[start..] && Feed(NOTHING, data[..start]) == Split(lines, "")
  {
    var end := offset;
    start, lines := 0, [];
    ghost var data := buffer[..eob];
    buffer[eob] := '\n';
    while end < eob
      invariant start <= end <= eob && (start == end || start == 0)
      invariant buffer[..eob] == data && buffer[eob] == '\n'
      invariant '\n' !in data[start..end]
      invariant end - start < NET_BBUFFER_LEN
      invariant Feed(NOTHING, data[..start]) == Split(lines, "")
      decreases eob - end
    {
      end := FindNewline(buffer, start, end, eob, data);
      if end == eob && end < NET_BBUFFER_LEN {
        break;
      }
      if end == eob && start != 0 {
        break;
      }
      FeedTo(data, start, end, lines);
      var line := TakeLine(buffer, start, end, data);
      lines := lines + [line];
      if end < eob {
        end := end + 1;
      }
      start := end;
    }
    assert end == eob == |data|;
    SliceToEnd(data, start);
  }

  /** Where the first newline is; the one put behind the data stops the search. */
  method FindNewline(buffer: array<char>, start: nat, from: nat, eob: nat, ghost data: string) returns (end: nat)
    requires start <= from <= eob < buffer.Length && buffer[eob] == '\n' && data == buffer[..eob]
    requires '\n' !in data[start..from]
    ensures from <= end <= eob && buffer[end] == '\n' && '\n' !in data[start..end]
    ensures end < eob ==> data[end] == '\n'
  {
    end := from;
    while buffer[end] != '\n'
      invariant from <= end <= eob
      invariant '\n' !in data[start..end]
      decreases eob - end
    {
      assert data[start..end + 1] == data[start..end] + [data[end]];
      end := end + 1;
    }
  }

  /** buffer_to_lines: append the lines to `q` and return the new offset. */
  method BufferToLines(buffer: array<char>, offset: nat, read: nat, q: seq<LineData>,
                       clock: Clock, first: nat)
    returns (left: nat, q': seq<LineData>)
    requires buffer.Length >= NET_BBUFFER_ALLOC
    requires offset < NET_BBUFFER_LEN && offset + read <= NET_BBUFFER_LEN
    requires '\n' !in buffer[..offset]
    modifies buffer
    ensures var s := Feed(Split([], old(buffer[..offset])), old(buffer[offset..offset + read]));
            q' == q + Stamp(s.lines, clock, first) && left < NET_BBUFFER_LEN && buffer[..left] == s.rest
    ensures '\n' !in buffer[..left]
  {
    ghost var data := buffer[..offset + read];
    ResumeFeed(data, offset);
    assert data[..offset] == buffer[..offset] && data[offset..] == buffer[offset..offset + read];
    var start, lines := Scan(buffer, offset, offset + read);
    FinishFeed(data, start, lines);
    assert data[start..] == buffer[start..offset + read];
    left := offset + read - start;
    q' := q + Stamp(lines, clock, first);
    if start != 0 {
      MoveToFront(buffer, start, left);
    }
  }

  /** A read() into what is left of the buffer, and buffer_to_lines on what it brings. */
  method ReceiveLines(buffer: array<char>, full: nat, data: string, q: seq<LineData>, clock: Clock, first: nat)
    returns (full': nat, q': seq<LineData>)
    requires buffer.Length >= NET_BBUFFER_ALLOC && full + |data| <= NET_BBUFFER_LEN && full < NET_BBUFFER_LEN
    requires '\n' !in buffer[..full]
    modifies buffer
    ensures full' < NET_BBUFFER_LEN && '\n' !in buffer[..full']
    ensures var s := Feed(Split([], old(buffer[..full])), data);
            q' == q + Stamp(s.lines, clock, first) && buffer[..full'] == s.rest
  {
    ghost var pending := buffer[..full];
    CopyIn(buffer, full, data);
    assert (pending + data)[..full] == pending;
    assert buffer[..full] == pending && buffer[full..full + |data|] == data;
    full', q' := BufferToLines(buffer, full, |data|, q, clock, first);
  }

  lemma ResumeFeed(data: string, offset: nat)
    requires offset <= |data| && offset < NET_BBUFFER_LEN && '\n' !in data[..offset]
    ensures Feed(NOTHING, data) == Feed(Split([], data[..offset]), data[offset..])
  {
    FeedPlain(NOTHING, data[..offset]);
    assert data[..offset] + data[offset..] == data;
    assert "" + data[..offset] == data[..offset];
    FeedConcat(NOTHING, data[..offset], data[offset..]);
  }

  /** One turn of the loop of buffer_to_lines. */
  lemma FeedTo(data: string, start: nat, end: nat, lines: seq<string>)
    requires start <= end <= |data| <= NET_BBUFFER_LEN
    requires '\n' !in data[start..end]
    requires Feed(NOTHING, data[..start]) == Split(lines, "")
    requires if end < |data| then data[end] == '\n' else start == 0 && end == NET_BBUFFER_LEN
    ensures var next := if end < |data| then end + 1 else end;
            Feed(NOTHING, data[..next]) == Split(lines + [Chop(data[start..end])], "")
  {
    var s, part := Split(lines, ""), data[start..end];
    EmptyEnds(part);
    if end < |data| {
      FeedLine(s, part);
      SliceSplit(data, start, end + 1);
      SliceSplit(data[start..end + 1], end - start, end + 1 - start);
      assert data[start..end + 1] == part + "\n";
      FeedConcat(NOTHING, data[..start], part + "\n");
    } else {
      FeedFull(s, part);
      assert data[..end] == part && Feed(NOTHING, "") == NOTHING;
      assert data[..start] == "";
    }
  }

  lemma FinishFeed(data: string, start: nat, lines: seq<string>)
    requires start <= |data| && |data| - start < NET_BBUFFER_LEN
    requires '\n' !in data[start..]
    requires Feed(NOTHING, data[..start]) == Split(lines, "")
    ensures Feed(NOTHING, data) == Split(lines, data[start..])
  {
    assert data == data[..start] + data[start..];
    FeedConcat(NOTHING, data[..start], data[start..]);
    FeedPlain(Split(lines, ""), data[start..]);
    assert "" + data[start..] == data[start..];
  }
}
