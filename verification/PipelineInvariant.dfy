/** What every step of the pipeline keeps. */
module PipelineInvariant {
  import opened Sequences
  import opened Lines
  import Logger
  import opened Pipeline

  /** The keys of all queues, oldest first. */
  function Order(p: Pipe): seq<Key> {
    Before(p) + Keys(p.to) + Keys(p.rx)
  }

  predicate IsSuffix<T(==)>(a: seq<T>, b: seq<T>) {
    |a| <= |b| && b[|b| - |a|..] == a
  }

  function Bag(q: seq<LineData>): multiset<LineId> {
    if q == [] then multiset{} else multiset{q[0].id} + Bag(q[1..])
  }

  /** The identities of the lines in all queues. */
  function AllIds(p: Pipe): multiset<LineId> {
    Bag(p.history) + Bag(p.inactive) + Bag(p.buffered) + Bag(p.tx) + Bag(p.to) + Bag(p.rx)
  }

  predicate Known(past: Past, id: LineId) {
    match id
    case Wire(n) => n < past.received
    case Own(n) => n < past.made
    case Copy => true
  }

  predicate WasReleased(past: Past, id: LineId) {
    exists i :: 0 <= i < |past.released| && past.released[i].line.id == id
  }

  /** The first time that a line leaves client_toqueue. */
  predicate First(rs: seq<Release>, i: nat)
    requires i < |rs|
  {
    forall j :: 0 <= j < i ==> rs[j].line.id != rs[i].line.id
  }

  /** The flags of a line agree with what it is and with where it has been. */
  predicate LineOk(past: Past, l: LineData) {
    && (IsRegular(l) ==> !l.flags.noHist && !l.flags.dontBuf && !l.flags.logOnly)
    && (l.id.Copy? ==> l.flags.dontLog && l.flags.noHist)
    && Known(past, l.id)
    && (WasReleased(past, l.id) ==> l.flags.dontLog)
    && (IsRegular(l) && l.flags.dontLog ==> WasReleased(past, l.id))
  }

  predicate QueueOk(past: Past, q: seq<LineData>) {
    forall l <- q :: LineOk(past, l)
  }

  /** Lines that may be in the history queues. */
  predicate Historic(q: seq<LineData>) {
    forall l <- q :: !l.flags.noHist
  }

  predicate Marked(p: Pipe) {
    && QueueOk(p.past, p.history) && QueueOk(p.past, p.inactive) && QueueOk(p.past, p.buffered)
    && QueueOk(p.past, p.tx) && QueueOk(p.past, p.to) && QueueOk(p.past, p.rx)
    && Historic(p.history) && Historic(p.inactive)
  }

  /** No line, other than a copy, is in two places. */
  predicate Single(ids: multiset<LineId>) {
    forall id <- ids :: id.Copy? || ids[id] == 1
  }

  predicate PastOk(past: Past) {
    && (forall r <- past.released :: Known(past, r.line.id) && (r.line.id.Copy? ==> r.line.flags.dontLog))
    && (forall i, j :: 0 <= i < j < |past.released| && past.released[i].line.id == past.released[j].line.id
                       ==> past.released[j].line.flags.dontLog)
    && (forall i :: 0 <= i < |past.released| && First(past.released, i) && IsRegular(past.released[i].line)
                    ==> !past.released[i].line.flags.dontLog)
  }

  function Ids(q: seq<LineData>): seq<LineId> {
    seq(|q|, i requires 0 <= i < |q| => q[i].id)
  }

  /** The log got the lines that were to be logged. */
  predicate LogFed(p: Pipe) {
    Ids(p.log.submitted) == LoggedIds(p.past.released)
  }

  predicate Inv(p: Pipe) {
    && IsSuffix(Order(p), p.past.sent)
    && Marked(p)
    && Single(AllIds(p))
    && PastOk(p.past)
    && LogFed(p)
  }

  /** The number of regular server lines that are in no queue any more. */
  function Lost(p: Pipe): int {
    |p.past.sent| - |Order(p)|
  }

  // --- facts about queues

  lemma {:induction false} KeysConcat(a: seq<LineData>, b: seq<LineData>)
    ensures Keys(a + b) == Keys(a) + Keys(b)
  {
    if a == [] {
      EmptyEnds(b);
      EmptyEnds(Keys(b));
    } else {
      ConcatStep(a, b);
      KeysConcat(a[1..], b);
      Assoc(if IsRegular(a[0]) then [Key(a[0].id.n, a[0].str)] else [], Keys(a[1..]), Keys(b));
    }
  }

  lemma {:induction false} BagConcat(a: seq<LineData>, b: seq<LineData>)
    ensures Bag(a + b) == Bag(a) + Bag(b)
  {
    if a == [] {
      assert a + b == b;
    } else {
      assert (a + b)[1..] == a[1..] + b;
      BagConcat(a[1..], b);
    }
  }

  lemma {:induction false} BagMember(q: seq<LineData>, id: LineId)
    ensures id in Bag(q) <==> exists l <- q :: l.id == id
  {
    if q != [] {
      BagMember(q[1..], id);
      assert q == [q[0]] + q[1..];
    }
  }

  lemma Head(q: seq<LineData>)
    requires q != []
    ensures q == [q[0]] + q[1..] && q[0] in q
    ensures Keys(q) == Keys([q[0]]) + Keys(q[1..]) && Bag(q) == multiset{q[0].id} + Bag(q[1..])
  {
    HeadTail(q);
    KeysOfOne(q[0]);
  }

  lemma KeysOfOne(l: LineData)
    ensures Keys([l]) == if IsRegular(l) then [Key(l.id.n, l.str)] else []
  {
    assert [l][1..] == [];
  }

  lemma Append(q: seq<LineData>, l: LineData)
    ensures Keys(q + [l]) == Keys(q) + Keys([l]) && Bag(q + [l]) == Bag(q) + multiset{l.id}
  {
    KeysConcat(q, [l]);
    BagConcat(q, [l]);
    assert [l][1..] == [];
    assert Bag([l]) == multiset{l.id};
  }

  /** The head of one queue becomes the end of the queue before it. */
  lemma Shift<T>(a: seq<T>, b: seq<T>, k: seq<T>, c: seq<T>)
    ensures a + b + (k + c) == a + (b + k) + c
  {
  }

  /** The keys of the queues that a line reaches after client_toqueue. */
  function Before(p: Pipe): seq<Key> {
    Keys(p.history) + Keys(p.inactive) + Keys(p.buffered) + Keys(p.tx)
  }

  lemma SuffixGrows<T>(a: seq<T>, b: seq<T>, k: seq<T>)
    requires IsSuffix(a, b)
    ensures IsSuffix(a + k, b + k)
  {
  }

  /** Buffered lines may overtake an empty queue. */
  lemma PassOrder<T>(a: seq<T>, b: seq<T>, c: seq<T>)
    requires b == [] || c == []
    ensures a + [] + c + ([] + b) == a + b + c + []
  {
  }

  lemma UnknownNotIn(past: Past, q: seq<LineData>, id: LineId)
    requires QueueOk(past, q) && !Known(past, id)
    ensures id !in Bag(q)
  {
    BagMember(q, id);
  }

  /** An identity that is not known yet is nowhere. */
  lemma UnknownNowhere(p: Pipe, id: LineId)
    requires Inv(p) && !Known(p.past, id)
    ensures id !in AllIds(p) && !WasReleased(p.past, id)
  {
    UnknownNotIn(p.past, p.history, id);
    UnknownNotIn(p.past, p.inactive, id);
    UnknownNotIn(p.past, p.buffered, id);
    UnknownNotIn(p.past, p.tx, id);
    UnknownNotIn(p.past, p.to, id);
    UnknownNotIn(p.past, p.rx, id);
  }

  /** More lines are known, the same have been released. */
  predicate Later(a: Past, b: Past) {
    a.received <= b.received && a.made <= b.made && a.released == b.released
  }

  lemma QueueLater(a: Past, b: Past, q: seq<LineData>)
    requires Later(a, b) && QueueOk(a, q)
    ensures QueueOk(b, q)
  {
    forall l <- q ensures LineOk(b, l) {
      assert LineOk(a, l);
    }
  }

  lemma QueueSnoc(past: Past, q: seq<LineData>, l: LineData)
    requires QueueOk(past, q) && LineOk(past, l)
    ensures QueueOk(past, q + [l])
  {
  }

  lemma MarkedLater(p: Pipe, past: Past)
    requires Marked(p) && Later(p.past, past)
    ensures Marked(p.(past := past))
  {
    QueueLater(p.past, past, p.history);
    QueueLater(p.past, past, p.inactive);
    QueueLater(p.past, past, p.buffered);
    QueueLater(p.past, past, p.tx);
    QueueLater(p.past, past, p.to);
    QueueLater(p.past, past, p.rx);
  }

  // --- the steps, one by one

  /** A state whose queues hold the same keys and lines as another's. */
  predicate Moved(p: Pipe, p': Pipe) {
    Order(p') == Order(p) && AllIds(p') == AllIds(p) && p'.past == p.past && p'.log == p.log
  }

  lemma ReadLineOrder(p: Pipe, str: string, clock: Clock)
    ensures var p' := ReadLine(p, str, clock); var l := NewLine(str, clock, Wire(p.past.received));
            Order(p') == Order(p) + Keys([l]) && AllIds(p') == AllIds(p) + multiset{l.id}
  {
    var l := NewLine(str, clock, Wire(p.past.received));
    Append(p.rx, l);
    Assoc(Before(p) + Keys(p.to), Keys(p.rx), Keys([l]));
  }

  lemma ReadLineMarked(p: Pipe, str: string, clock: Clock)
    requires Marked(p) && !WasReleased(p.past, Wire(p.past.received))
    ensures Marked(ReadLine(p, str, clock))
  {
    var l := NewLine(str, clock, Wire(p.past.received));
    var past := ReadLine(p, str, clock).past;
    MarkedLater(p, past);
    assert !WasReleased(past, l.id);
    QueueSnoc(past, p.rx, l);
  }

  lemma ReadLineKeeps(p: Pipe, str: string, clock: Clock)
    requires Inv(p)
    ensures Inv(ReadLine(p, str, clock))
    ensures Lost(ReadLine(p, str, clock)) == Lost(p)
  {
    var l := NewLine(str, clock, Wire(p.past.received));
    UnknownNowhere(p, l.id);
    ReadLineOrder(p, str, clock);
    SuffixGrows(Order(p), p.past.sent, Keys([l]));
    ReadLineMarked(p, str, clock);
  }

  lemma SayOneOrder(p: Pipe, m: Msg, clock: Clock)
    ensures var p' := SayOne(p, m, clock);
            && Keys(p'.to) == Keys(p.to) && Order(p') == Order(p)
            && AllIds(p') == AllIds(p) + multiset{Own(p.past.made)}
  {
    var l := OwnLine(m, clock, p.past.made);
    Append(p.to, l);
    assert Keys(p.to) + [] == Keys(p.to);
  }

  lemma SayOneMarked(p: Pipe, m: Msg, clock: Clock)
    requires Marked(p) && !WasReleased(p.past, Own(p.past.made))
    ensures Marked(SayOne(p, m, clock))
  {
    var past := SayOne(p, m, clock).past;
    MarkedLater(p, past);
    assert !WasReleased(past, Own(p.past.made));
    QueueSnoc(past, p.to, OwnLine(m, clock, p.past.made));
  }

  lemma SayOneKeeps(p: Pipe, m: Msg, clock: Clock)
    requires Inv(p)
    ensures Inv(SayOne(p, m, clock))
    ensures Lost(SayOne(p, m, clock)) == Lost(p)
    ensures Keys(SayOne(p, m, clock).to) == Keys(p.to)
  {
    UnknownNowhere(p, Own(p.past.made));
    SayOneOrder(p, m, clock);
    SayOneMarked(p, m, clock);
  }

  lemma DispatchHeadOrder(p: Pipe)
    requires p.rx != []
    ensures Moved(p, DispatchHead(p))
  {
    var l := Dispatched(p.rx[0]);
    Head(p.rx);
    Append(p.to, l);
    assert Keys([l]) == Keys([p.rx[0]]);
    Shift(Before(p), Keys(p.to), Keys([l]), Keys(p.rx[1..]));
  }

  lemma DispatchHeadKeeps(p: Pipe)
    requires Inv(p) && p.rx != []
    ensures Inv(DispatchHead(p))
    ensures Lost(DispatchHead(p)) == Lost(p)
  {
    DispatchHeadOrder(p);
    assert p.rx[0] in p.rx;
    assert LineOk(p.past, Dispatched(p.rx[0]));
  }

  lemma {:induction false} CopiesSilent(q: seq<LineData>)
    requires forall l <- q :: l.id.Copy?
    ensures Keys(q) == [] && forall id <- Bag(q) :: id.Copy?
  {
    if q != [] {
      Head(q);
      CopiesSilent(q[1..]);
    }
  }

  /** Copies that are neither logged nor kept. */
  predicate Copies(q: seq<LineData>) {
    forall l <- q :: l.id.Copy? && l.flags.dontLog && l.flags.noHist
  }

  lemma DuplicatesAreCopies(q: seq<LineData>, memory: nat -> string)
    ensures Copies(Duplicates(q, memory))
  {
    var copies := Duplicates(q, memory);
    forall l <- copies ensures l.id.Copy? && l.flags.dontLog && l.flags.noHist {
      var i :| 0 <= i < |q| && copies[i] == l;
      assert copies[i] == Duplicate(q[i], memory(i));
    }
  }

  lemma OfferOrder(p: Pipe, copies: seq<LineData>)
    requires Copies(copies)
    ensures var p' := Offer(p, copies);
            && Keys(p'.to) == Keys(p.to) && Order(p') == Order(p)
            && AllIds(p') == AllIds(p) + Bag(copies) && forall id <- Bag(copies) :: id.Copy?
  {
    CopiesSilent(copies);
    KeysConcat(p.to, copies);
    BagConcat(p.to, copies);
    assert Keys(p.to) + [] == Keys(p.to);
  }

  lemma OfferKeeps(p: Pipe, copies: seq<LineData>)
    requires Inv(p) && Copies(copies)
    ensures Inv(Offer(p, copies)) && Keys(Offer(p, copies).to) == Keys(p.to)
    ensures Lost(Offer(p, copies)) == Lost(p)
  {
    OfferOrder(p, copies);
    assert QueueOk(p.past, copies);
  }

  lemma ToHistoryOrder(p: Pipe)
    ensures Moved(p, ToHistory(p))
  {
    KeysConcat(p.history, p.inactive);
    BagConcat(p.history, p.inactive);
    assert Keys(p.history) + Keys(p.inactive) + [] == Keys(p.history) + Keys(p.inactive);
  }

  lemma ToHistoryKeeps(p: Pipe)
    requires Inv(p)
    ensures Inv(ToHistory(p))
    ensures Lost(ToHistory(p)) == Lost(p)
  {
    ToHistoryOrder(p);
  }

  lemma PassBufferedOrder(p: Pipe)
    requires Keys(p.to) == [] && (Keys(p.tx) == [] || Keys(p.buffered) == [])
    ensures Moved(p, PassBuffered(p))
  {
    KeysConcat(p.to, p.buffered);
    BagConcat(p.to, p.buffered);
    PassOrder(Keys(p.history) + Keys(p.inactive), Keys(p.buffered), Keys(p.tx));
  }

  lemma PassBufferedKeeps(p: Pipe)
    requires Inv(p) && Keys(p.to) == [] && (Keys(p.tx) == [] || Keys(p.buffered) == [])
    ensures Inv(PassBuffered(p))
    ensures Lost(PassBuffered(p)) == Lost(p)
  {
    PassBufferedOrder(p);
  }

  /** The head of queue b leaves for the end of queue a, with other flags perhaps, or for
      nowhere if it is not a regular line. */
  lemma HeadMoves(a: seq<LineData>, b: seq<LineData>, l: LineData, gone: bool)
    requires b != [] && l.id == b[0].id && l.str == b[0].str && (gone ==> !IsRegular(l))
    ensures var a' := if gone then a else a + [l];
            && Keys(a') + Keys(b[1..]) == Keys(a) + Keys(b)
            && Bag(a') + Bag(b[1..]) <= Bag(a) + Bag(b)
  {
    Head(b);
    Append(a, l);
    assert Keys([l]) == Keys([b[0]]);
    if gone {
      assert [] + Keys(b[1..]) == Keys(b[1..]);
    } else {
      Assoc(Keys(a), Keys([l]), Keys(b[1..]));
    }
  }

  lemma Regroup<T>(x: seq<T>, a: seq<T>, b: seq<T>, a': seq<T>, b': seq<T>)
    requires a' + b' == a + b
    ensures x + a' + b' == x + a + b
  {
    Assoc(x, a, b);
    Assoc(x, a', b');
  }

  lemma BagRegroup(x: multiset<LineId>, a: multiset<LineId>, b: multiset<LineId>,
                   a': multiset<LineId>, b': multiset<LineId>)
    requires a' + b' <= a + b
    ensures x + a' + b' <= x + a + b
  {
    assert x + a' + b' == x + (a' + b');
    assert x + a + b == x + (a + b);
  }

  lemma ReleaseHeadOrder(p: Pipe, stamp: string)
    requires p.to != [] && LineOk(p.past, p.to[0])
    ensures var p' := ReleaseHead(p, stamp);
            Order(p') == Order(p) && AllIds(p') <= AllIds(p)
  {
    var l := p.to[0];
    var p' := ReleaseHead(p, stamp);
    HeadMoves(p.tx, p.to, l.(flags := l.flags.(dontLog := true)), l.flags.logOnly);
    Regroup(Keys(p.history) + Keys(p.inactive) + Keys(p.buffered), Keys(p.tx), Keys(p.to), Keys(p'.tx), Keys(p'.to));
    BagRegroup(Bag(p.history) + Bag(p.inactive) + Bag(p.buffered), Bag(p.tx), Bag(p.to), Bag(p'.tx), Bag(p'.to));
  }

  /** The line that is released is nowhere else. */
  lemma HeadIsSingle(p: Pipe)
    requires Inv(p) && p.to != [] && !p.to[0].id.Copy?
    ensures var id := p.to[0].id;
            && id !in Bag(p.history) && id !in Bag(p.inactive) && id !in Bag(p.buffered)
            && id !in Bag(p.tx) && id !in Bag(p.to[1..]) && id !in Bag(p.rx)
  {
    var id := p.to[0].id;
    Head(p.to);
    assert id in AllIds(p) && AllIds(p)[id] == 1;
  }

  /** Once a line is released it must not be logged again. */
  lemma QueueReleased(past: Past, q: seq<LineData>, r: Release)
    requires QueueOk(past, q) && (r.line.id in Bag(q) ==> r.line.id.Copy?)
    ensures QueueOk(past.(released := past.released + [r]), q)
  {
    var past' := past.(released := past.released + [r]);
    BagMember(q, r.line.id);
    forall l <- q ensures LineOk(past', l) {
      assert LineOk(past, l);
      ReleasedSnoc(past, r, l.id);
    }
  }

  lemma ReleasedSnoc(past: Past, r: Release, id: LineId)
    ensures WasReleased(past.(released := past.released + [r]), id) <==> WasReleased(past, id) || id == r.line.id
  {
    var rs := past.released + [r];
    if WasReleased(past, id) {
      var i :| 0 <= i < |past.released| && past.released[i].line.id == id;
      assert rs[i].line.id == id;
    }
    assert rs[|past.released|] == r;
  }

  lemma ReleaseHeadMarked(p: Pipe, stamp: string)
    requires Inv(p) && p.to != []
    ensures Marked(ReleaseHead(p, stamp))
  {
    var l := p.to[0];
    var p' := ReleaseHead(p, stamp);
    var r := Release(l, p.logging);
    assert p'.past == p.past.(released := p.past.released + [r]);
    if !l.id.Copy? {
      HeadIsSingle(p);
    }
    Head(p.to);
    assert LineOk(p.past, l);
    assert forall x <- p.to[1..] :: x in p.to;
    QueueReleased(p.past, p.history, r);
    QueueReleased(p.past, p.inactive, r);
    QueueReleased(p.past, p.buffered, r);
    QueueReleased(p.past, p.tx, r);
    QueueReleased(p.past, p.to[1..], r);
    QueueReleased(p.past, p.rx, r);
    ReleasedSnoc(p.past, r, l.id);
    QueueSnoc(p'.past, p.tx, l.(flags := l.flags.(dontLog := true)));
  }

  lemma ReleaseHeadPast(p: Pipe, stamp: string)
    requires Inv(p) && p.to != []
    ensures PastOk(ReleaseHead(p, stamp).past) && LogFed(ReleaseHead(p, stamp))
  {
    var l := p.to[0];
    var p' := ReleaseHead(p, stamp);
    assert l in p.to && LineOk(p.past, l);
    ReleasedPast(p.past, Release(l, p.logging));
    LoggedSnoc(p.past.released, Release(l, p.logging));
    if p.logging && !l.flags.dontLog {
      IdsSnoc(p.log.submitted, Logger.LogLine(l, stamp));
    }
  }

  lemma LoggedSnoc(rs: seq<Release>, r: Release)
    ensures LoggedIds(rs + [r]) == if Loggable(r) then LoggedIds(rs) + [r.line.id] else LoggedIds(rs)
  {
    assert (rs + [r])[..|rs|] == rs;
    EmptyEnds(LoggedIds(rs));
  }

  lemma IdsSnoc(q: seq<LineData>, x: LineData)
    ensures Ids(q + [x]) == Ids(q) + [x.id]
  {
  }

  lemma ReleasedPast(past: Past, r: Release)
    requires PastOk(past) && LineOk(past, r.line)
    ensures PastOk(past.(released := past.released + [r]))
  {
    var rs, n := past.released + [r], |past.released|;
    forall i | 0 <= i < n && rs[i].line.id == rs[n].line.id ensures rs[n].line.flags.dontLog {
      assert past.released[i].line.id == r.line.id;
      assert WasReleased(past, r.line.id);
    }
    forall i | 0 <= i < |rs| && First(rs, i) && IsRegular(rs[i].line) ensures !rs[i].line.flags.dontLog {
      if i < n {
        assert forall j :: 0 <= j < i ==> rs[j] == past.released[j];
        assert First(past.released, i);
      } else {
        assert !WasReleased(past, r.line.id) by {
          forall j | 0 <= j < n ensures past.released[j].line.id != r.line.id {
            assert rs[j].line.id != rs[n].line.id;
          }
        }
      }
    }
  }

  lemma ReleaseHeadKeeps(p: Pipe, stamp: string)
    requires Inv(p) && p.to != []
    ensures Inv(ReleaseHead(p, stamp))
    ensures Lost(ReleaseHead(p, stamp)) == Lost(p)
  {
    assert p.to[0] in p.to;
    ReleaseHeadOrder(p, stamp);
    ReleaseHeadMarked(p, stamp);
    ReleaseHeadPast(p, stamp);
    SingleLess(AllIds(ReleaseHead(p, stamp)), AllIds(p));
  }

  lemma DetachHeadOrder(p: Pipe)
    requires p.tx != [] && LineOk(p.past, p.tx[0])
    ensures var p' := DetachHead(p);
            Order(p') == Order(p) && AllIds(p') <= AllIds(p)
  {
    var p' := DetachHead(p);
    HeadMoves(p.buffered, p.tx, p.tx[0], p.tx[0].flags.dontBuf);
    Regroup(Keys(p.history) + Keys(p.inactive), Keys(p.buffered), Keys(p.tx), Keys(p'.buffered), Keys(p'.tx));
    BagRegroup(Bag(p.history) + Bag(p.inactive), Bag(p.buffered), Bag(p.tx), Bag(p'.buffered), Bag(p'.tx));
  }

  lemma DetachHeadMarked(p: Pipe)
    requires Marked(p) && p.tx != []
    ensures Marked(DetachHead(p))
  {
    assert p.tx[0] in p.tx;
    assert forall x <- p.tx[1..] :: x in p.tx;
    QueueSnoc(p.past, p.buffered, p.tx[0]);
  }

  lemma DetachHeadKeeps(p: Pipe)
    requires Inv(p) && p.tx != []
    ensures Inv(DetachHead(p))
    ensures Lost(DetachHead(p)) == Lost(p)
  {
    assert p.tx[0] in p.tx;
    DetachHeadOrder(p);
    DetachHeadMarked(p);
    SingleLess(AllIds(DetachHead(p)), AllIds(p));
  }

  lemma FlushHeadOrder(p: Pipe)
    requires p.tx != [] && p.buffered == [] && LineOk(p.past, p.tx[0])
    ensures var p' := FlushHead(p);
            Order(p') == Order(p) && AllIds(p') <= AllIds(p)
  {
    var p' := FlushHead(p);
    HeadMoves(p.inactive, p.tx, p.tx[0], p.tx[0].flags.noHist);
    NoBuffered(p);
    NoBuffered(p');
    Regroup(Keys(p.history), Keys(p.inactive), Keys(p.tx), Keys(p'.inactive), Keys(p'.tx));
    BagRegroup(Bag(p.history), Bag(p.inactive), Bag(p.tx), Bag(p'.inactive), Bag(p'.tx));
  }

  lemma NoBuffered(p: Pipe)
    requires p.buffered == []
    ensures Order(p) == Keys(p.history) + Keys(p.inactive) + Keys(p.tx) + Keys(p.to) + Keys(p.rx)
    ensures AllIds(p) == Bag(p.history) + Bag(p.inactive) + Bag(p.tx) + Bag(p.to) + Bag(p.rx)
  {
    assert Keys(p.history) + Keys(p.inactive) + [] == Keys(p.history) + Keys(p.inactive);
  }

  lemma FlushHeadMarked(p: Pipe)
    requires Marked(p) && p.tx != []
    ensures Marked(FlushHead(p))
  {
    assert p.tx[0] in p.tx;
    assert forall x <- p.tx[1..] :: x in p.tx;
    QueueSnoc(p.past, p.inactive, p.tx[0]);
  }

  lemma FlushHeadKeeps(p: Pipe)
    requires Inv(p) && p.tx != [] && p.buffered == []
    ensures Inv(FlushHead(p))
    ensures Lost(FlushHead(p)) == Lost(p)
  {
    assert p.tx[0] in p.tx;
    FlushHeadOrder(p);
    FlushHeadMarked(p);
    SingleLess(AllIds(FlushHead(p)), AllIds(p));
  }

  // --- losing the oldest lines

  lemma {:induction false} KeysSuffix(q: seq<LineData>, k: nat)
    requires k <= |q|
    ensures IsSuffix(Keys(q[k..]), Keys(q)) && Bag(q[k..]) <= Bag(q)
    ensures forall l <- q[k..] :: l in q
  {
    assert q == q[..k] + q[k..];
    KeysConcat(q[..k], q[k..]);
    BagConcat(q[..k], q[k..]);
  }

  lemma SuffixFront<T>(a: seq<T>, b: seq<T>, c: seq<T>, s: seq<T>)
    requires IsSuffix(a, b) && IsSuffix(b + c, s)
    ensures IsSuffix(a + c, s)
  {
    assert (b + c)[|b| - |a|..] == a + c;
    assert s[|s| - |b + c|..][|b| - |a|..] == s[|s| - |a + c|..];
  }

  lemma SingleLess(a: multiset<LineId>, b: multiset<LineId>)
    requires a <= b && Single(b)
    ensures Single(a)
  {
    forall id <- a ensures id.Copy? || a[id] == 1 {
      assert id in b;
    }
  }

  /** The keys of the queues after the history, the inactive and the buffered lines. */
  function Tail(p: Pipe): seq<Key> {
    Keys(p.tx) + Keys(p.to) + Keys(p.rx)
  }

  lemma OrderAs(p: Pipe)
    ensures Order(p) == Keys(p.history) + (Keys(p.inactive) + Keys(p.buffered) + Tail(p))
    ensures p.history == [] ==> Order(p) == Keys(p.inactive) + (Keys(p.buffered) + Tail(p))
    ensures p.history == [] && p.inactive == [] ==> Order(p) == Keys(p.buffered) + Tail(p)
  {
  }

  lemma DropHistoryKeeps(p: Pipe, k: nat)
    requires Inv(p) && k <= |p.history|
    ensures Inv(p.(history := p.history[k..]))
    ensures Lost(p.(history := p.history[k..])) >= Lost(p)
  {
    var p' := p.(history := p.history[k..]);
    KeysSuffix(p.history, k);
    OrderAs(p);
    OrderAs(p');
    SuffixFront(Keys(p'.history), Keys(p.history), Keys(p.inactive) + Keys(p.buffered) + Tail(p), p.past.sent);
    SingleLess(AllIds(p'), AllIds(p));
  }

  lemma DropInactiveKeeps(p: Pipe, k: nat, dropped: nat)
    requires Inv(p) && p.history == [] && k <= |p.inactive|
    ensures Inv(p.(inactive := p.inactive[k..], droppedInactive := dropped))
    ensures Lost(p.(inactive := p.inactive[k..], droppedInactive := dropped)) >= Lost(p)
  {
    var p' := p.(inactive := p.inactive[k..], droppedInactive := dropped);
    KeysSuffix(p.inactive, k);
    OrderAs(p);
    OrderAs(p');
    SuffixFront(Keys(p'.inactive), Keys(p.inactive), Keys(p.buffered) + Tail(p), p.past.sent);
    SingleLess(AllIds(p'), AllIds(p));
  }

  lemma DropBufferedKeeps(p: Pipe, k: nat, dropped: nat)
    requires Inv(p) && p.history == [] && p.inactive == [] && k <= |p.buffered|
    ensures Inv(p.(buffered := p.buffered[k..], droppedBuffered := dropped))
    ensures Lost(p.(buffered := p.buffered[k..], droppedBuffered := dropped)) >= Lost(p)
  {
    var p' := p.(buffered := p.buffered[k..], droppedBuffered := dropped);
    KeysSuffix(p.buffered, k);
    OrderAs(p);
    OrderAs(p');
    SuffixFront(Keys(p'.buffered), Keys(p.buffered), Tail(p), p.past.sent);
    SingleLess(AllIds(p'), AllIds(p));
  }
}
