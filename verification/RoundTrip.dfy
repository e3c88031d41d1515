/** What flush_buffer sends, buffer_to_lines reads back. */
module RoundTrip {
  import Sequences
  import opened Lines
  import opened Codec
  import opened Flush

  /** The bytes of lines sent to a socket without client emulation. */
  function Wire(ss: seq<string>): string {
    if ss == [] then "" else Encode(ss[0], NETWORK) + Wire(ss[1..])
  }

  lemma {:induction false} WireIsEncodeAll(ls: seq<LineData>)
    ensures EncodeAll(ls, NETWORK) == Wire(Strings(ls))
  {
    if ls != [] {
      WireIsEncodeAll(ls[1..]);
      assert Strings(ls)[1..] == Strings(ls[1..]);
    }
  }

  /** A line that survives the wire. */
  predicate Safe(s: string) {
    && '\n' !in s
    && (s != [] ==> s[0] != '\r')
    && |s| <= NET_BBUFFER_LEN - 2
  }

  predicate AllSafe(ss: seq<string>) {
    forall s <- ss :: Safe(s)
  }

  // ---------------------------------------------------------------------
  // One line
  // ---------------------------------------------------------------------

  /** What is emitted for a line: at least one line, and nothing stays behind. */
  function Received(s: string): seq<string> {
    Feed(NOTHING, Encode(s, NETWORK)).lines
  }

  lemma EncodeForm(s: string)
    ensures Encode(s, NETWORK) == Cut(s) + "\r" + "\n"
  {
    assert "" + Cut(s) + "\r\n" + "" == Cut(s) + "\r" + "\n";
  }

  /** A newline leaves nothing pending and completes at least one line. */
  lemma EndsClean(s: Split, b: string)
    requires |s.rest| < NET_BBUFFER_LEN
    ensures Feed(s, b + "\n").rest == "" && |Feed(s, b + "\n").lines| >= |Feed(s, b).lines| + 1
  {
    FeedConcat(s, b, "\n");
    var t := Feed(s, b);
    assert Feed(t, "\n") == FeedChar(t, '\n');
  }

  /** No byte takes a line back. */
  lemma {:induction false} LinesGrow(s: Split, b: string)
    ensures |s.lines| <= |Feed(s, b).lines|
    decreases b
  {
    if b != [] {
      LinesGrow(FeedChar(s, b[0]), b[1..]);
    }
  }

  lemma SafeLine(s: string)
    requires Safe(s)
    ensures Received(s) == [s]
  {
    EncodeForm(s);
    FeedLine(NOTHING, s + "\r");
    assert "" + (s + "\r") == s + "\r";
    assert (s + "\r")[..|s|] == s;
  }

  /** A newline inside a line makes two of it. */
  lemma NewlineSplits(s: string, k: nat)
    requires k < |Cut(s)| && Cut(s)[k] == '\n'
    ensures |Received(s)| >= 2
  {
    EncodeForm(s);
    var c := Cut(s);
    assert c + "\r" + "\n" == (c[..k] + "\n") + (c[k + 1..] + "\r" + "\n");
    FeedConcat(NOTHING, c[..k] + "\n", c[k + 1..] + "\r" + "\n");
    EndsClean(NOTHING, c[..k]);
    var t := Feed(NOTHING, c[..k] + "\n");
    EndsClean(t, c[k + 1..] + "\r");
    LinesGrow(t, c[k + 1..] + "\r");
  }

  /** A line that is too long is split by the full buffer and again by its newline. */
  lemma LongSplits(s: string)
    requires '\n' !in Cut(s) && |s| >= NET_BBUFFER_LEN - 1
    ensures |Received(s)| >= 2
  {
    EncodeForm(s);
    var c := Cut(s) + "\r";
    var a, b := c[..NET_BBUFFER_LEN], c[NET_BBUFFER_LEN..];
    assert '\n' !in a;
    assert c + "\n" == a + (b + "\n");
    FeedConcat(NOTHING, a, b + "\n");
    FeedFull(NOTHING, a);
    var t := Feed(NOTHING, a);
    EndsClean(t, b);
    LinesGrow(t, b);
  }

  /** A line with a leading \r comes back shorter. */
  lemma LeadingReturnLost(s: string)
    requires '\n' !in s && |s| <= NET_BBUFFER_LEN - 2 && s != [] && s[0] == '\r'
    ensures Received(s) != [s]
  {
    EncodeForm(s);
    FeedLine(NOTHING, s + "\r");
    assert "" + (s + "\r") == s + "\r";
    assert |Chop(s + "\r")| == |s| - 1;
    assert Received(s) == [Chop(s + "\r")];
    assert Received(s)[0] != [s][0];
  }

  lemma LineRoundTrip(s: string)
    ensures Received(s) == [s] <==> Safe(s)
    ensures Received(s) != []
    ensures Feed(NOTHING, Encode(s, NETWORK)).rest == ""
  {
    EncodeForm(s);
    EndsClean(NOTHING, Cut(s) + "\r");
    if Safe(s) {
      SafeLine(s);
    } else if exists k :: 0 <= k < |Cut(s)| && Cut(s)[k] == '\n' {
      var k :| 0 <= k < |Cut(s)| && Cut(s)[k] == '\n';
      NewlineSplits(s, k);
    } else if |s| >= NET_BBUFFER_LEN - 1 {
      LongSplits(s);
    } else {
      assert Cut(s) == s;
      LeadingReturnLost(s);
    }
  }

  // ---------------------------------------------------------------------
  // Any number of lines, in any chunks
  // ---------------------------------------------------------------------

  function AllReceived(ss: seq<string>): seq<string> {
    if ss == [] then [] else Received(ss[0]) + AllReceived(ss[1..])
  }

  lemma {:induction false} WireReceived(ss: seq<string>)
    ensures Feed(NOTHING, Wire(ss)) == Split(AllReceived(ss), "")
  {
    if ss != [] {
      LineRoundTrip(ss[0]);
      FeedConcat(NOTHING, Encode(ss[0], NETWORK), Wire(ss[1..]));
      var t := Feed(NOTHING, Encode(ss[0], NETWORK));
      assert t.lines + NOTHING.lines == t.lines;
      FeedAfter(t.lines, NOTHING, Wire(ss[1..]));
      WireReceived(ss[1..]);
    }
  }

  lemma {:induction false} AtLeastOneEach(ss: seq<string>)
    ensures |AllReceived(ss)| >= |ss|
    ensures AllReceived(ss) == ss <==> AllSafe(ss)
  {
    if ss != [] {
      var one, rest := Received(ss[0]), AllReceived(ss[1..]);
      LineRoundTrip(ss[0]);
      AtLeastOneEach(ss[1..]);
      assert ss == [ss[0]] + ss[1..];
      if one + rest == ss {
        assert |one| == 1;
        assert one[0] == (one + rest)[0];
        assert rest == (one + rest)[1..];
      }
    }
  }

  // --- with strings around each line

  /** What is read of lines with `pre` before each of them and `post` after its newline, when
      `before` is pending. */
  function Framed(before: string, ss: seq<string>, pre: string, post: string): seq<string>
    decreases ss
  {
    if ss == [] then [] else [before + pre + ss[0]] + Framed(post, ss[1..], pre, post)
  }

  lemma OneFramed(before: string, s: string, pre: string, post: string)
    requires '\n' !in before && '\n' !in post && |post| < NET_BBUFFER_LEN && Safe(before + pre + s)
    ensures Feed(Split([], before), Encode(s, Wrap(true, Some(pre), Some(post)))) == Split([before + pre + s], post)
  {
    var line, all := pre + s + "\r", before + pre + s;
    FramedBytes(s, pre, post);
    FramedText(before, s, pre);
    FeedConcat(Split([], before), line + "\n", post);
    FeedLine(Split([], before), line);
    ChopExact(all);
    Sequences.EmptyEnds([all]);
    FeedPlain(Split([all], ""), post);
    Sequences.EmptyEnds(post);
  }

  lemma FramedBytes(s: string, pre: string, post: string)
    requires |s| <= NET_BBUFFER_LEN
    ensures Encode(s, Wrap(true, Some(pre), Some(post))) == (pre + s + "\r" + "\n") + post
  {
    Sequences.Assoc(pre + s, "\r", "\n");
  }

  lemma FramedText(before: string, s: string, pre: string)
    requires '\n' !in before + pre + s
    ensures '\n' !in pre + s + "\r" && before + (pre + s + "\r") == before + pre + s + "\r"
  {
    Sequences.Assoc(before, pre, s);
    Sequences.Assoc(before, pre + s, "\r");
    assert forall c <- pre + s :: c in before + (pre + s);
    assert forall c <- pre + s + "\r" :: c in pre + s || c == '\r';
  }

  /** Each line has its string before it, and the one after it stands before the next line. */
  lemma {:induction false} FramedReceived(before: string, ls: seq<LineData>, pre: string, post: string)
    requires '\n' !in before && '\n' !in post && |post| < NET_BBUFFER_LEN && |before| < NET_BBUFFER_LEN
    requires AllSafe(Framed(before, Strings(ls), pre, post))
    ensures Feed(Split([], before), EncodeAll(ls, Wrap(true, Some(pre), Some(post))))
         == Split(Framed(before, Strings(ls), pre, post), if ls == [] then before else post)
    decreases ls
  {
    var w := Wrap(true, Some(pre), Some(post));
    if ls != [] {
      var first, rest := Encode(ls[0].str, w), EncodeAll(ls[1..], w);
      var lines := Framed(post, Strings(ls[1..]), pre, post);
      assert Strings(ls)[1..] == Strings(ls[1..]);
      assert Framed(before, Strings(ls), pre, post) == [before + pre + ls[0].str] + lines;
      assert forall l <- lines :: l in [before + pre + ls[0].str] + lines;
      OneFramed(before, ls[0].str, pre, post);
      FeedConcat(Split([], before), first, rest);
      FramedReceived(post, ls[1..], pre, post);
      FeedAfter([before + pre + ls[0].str], Split([], post), rest);
      Sequences.EmptyEnds([before + pre + ls[0].str]);
    }
  }

  /** The lines come back, whole and in order, whatever the chunks of the reads,
      exactly when each of them is safe. */
  lemma WireRoundTrip(ss: seq<string>, chunks: seq<string>)
    requires Flatten(chunks) == Wire(ss)
    ensures FeedChunks(NOTHING, chunks) == Split(ss, "") <==> AllSafe(ss)
  {
    ChunkIndependence(NOTHING, chunks);
    WireReceived(ss);
    AtLeastOneEach(ss);
  }

  /** A run of flushes: each takes a queue, and hands on what it did not get rid of.
      Once the last one reports Flushed, the peer has got all the lines ever queued. */
  datatype Flushing = Flushing(accepted: string, waiting: string, queue: seq<LineData>)

  /** A step of a run: lines are queued, or flush_buffer does as its contract says. */
  predicate FlushStep(a: Flushing, b: Flushing, queued: seq<LineData>) {
    exists popped: nat ::
      && popped <= |a.queue + queued|
      && b.accepted + b.waiting == a.accepted + a.waiting + EncodeAll((a.queue + queued)[..popped], NETWORK)
      && b.queue == (a.queue + queued)[popped..]
  }

  /** A call of flush_buffer on a queue that has got more lines is such a step. */
  method FlushMore(fd: Fd, buffer: array<char>, bffl: nat, queue: seq<LineData>, queued: seq<LineData>)
    returns (full: nat, rest: seq<LineData>)
    requires buffer.Length >= NET_BBUFFER_ALLOC && bffl <= NET_BBUFFER_ALLOC
    modifies fd, buffer
    ensures full <= NET_BBUFFER_ALLOC
    ensures FlushStep(Flushing(old(fd.accepted), old(buffer[..bffl]), queue),
                      Flushing(fd.accepted, buffer[..full], rest), queued)
  {
    var result, popped, hist;
    result, full, popped, hist := FlushBuffer(fd, buffer, bffl, queue + queued, false, [], NETWORK);
    rest := (queue + queued)[popped..];
  }

  predicate FlushRun(states: seq<Flushing>, queued: seq<seq<LineData>>) {
    && |states| == |queued| + 1
    && states[0] == Flushing("", "", [])
    && forall i :: 0 <= i < |queued| ==> FlushStep(states[i], states[i + 1], queued[i])
  }

  function AllQueued(queued: seq<seq<LineData>>): seq<LineData> {
    if queued == [] then [] else AllQueued(queued[..|queued| - 1]) + queued[|queued| - 1]
  }

  lemma FlushStepConserves(a: Flushing, b: Flushing, queued: seq<LineData>, all: string)
    requires FlushStep(a, b, queued)
    requires a.accepted + a.waiting + EncodeAll(a.queue, NETWORK) == all
    ensures b.accepted + b.waiting + EncodeAll(b.queue, NETWORK) == all + EncodeAll(queued, NETWORK)
  {
    var q := a.queue + queued;
    var popped: nat :| popped <= |q|
      && b.accepted + b.waiting == a.accepted + a.waiting + EncodeAll(q[..popped], NETWORK)
      && b.queue == q[popped..];
    var sent := a.accepted + a.waiting;
    Sequences.SplitAt(q, popped);
    EncodeAllConcat(q[..popped], q[popped..], NETWORK);
    EncodeAllConcat(a.queue, queued, NETWORK);
    Sequences.Assoc(sent, EncodeAll(q[..popped], NETWORK), EncodeAll(q[popped..], NETWORK));
    Sequences.Assoc(sent, EncodeAll(a.queue, NETWORK), EncodeAll(queued, NETWORK));
  }

  /** Bytes are conserved over any run of flushes under any write schedule. */
  lemma {:induction false} FlushRunConserves(states: seq<Flushing>, queued: seq<seq<LineData>>)
    requires FlushRun(states, queued)
    ensures var f := states[|queued|];
            f.accepted + f.waiting + EncodeAll(f.queue, NETWORK) == EncodeAll(AllQueued(queued), NETWORK)
    decreases |queued|
  {
    if queued != [] {
      var n := |queued| - 1;
      FlushRunConserves(states[..n + 1], queued[..n]);
      assert FlushStep(states[n], states[n + 1], queued[n]);
      FlushStepConserves(states[n], states[n + 1], queued[n], EncodeAll(AllQueued(queued[..n]), NETWORK));
      EncodeAllConcat(AllQueued(queued[..n]), queued[n], NETWORK);
    }
  }

  /** End to end: a queue drained under any partial-write schedule and read in any chunks
      gives back exactly the original lines, if and only if they are all safe. */
  lemma EndToEnd(states: seq<Flushing>, queued: seq<seq<LineData>>, chunks: seq<string>)
    requires FlushRun(states, queued)
    requires var f := states[|queued|]; f.waiting == "" && f.queue == [] && Flatten(chunks) == f.accepted
    ensures var ss := Strings(AllQueued(queued));
            FeedChunks(NOTHING, chunks) == Split(ss, "") <==> AllSafe(ss)
  {
    var f := states[|queued|];
    FlushRunConserves(states, queued);
    assert f.accepted + "" + "" == f.accepted;
    WireIsEncodeAll(AllQueued(queued));
    WireRoundTrip(Strings(AllQueued(queued)), chunks);
  }
}
