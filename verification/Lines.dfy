/** Lines and line queues (line.c, line.h).

    A `Line` is a heap object that sits in at most one `Linequeue`, a doubly
    linked list.  The ghost field `owner` names that queue; since a line has one
    owner, the nodes of distinct queues are disjoint without further ado. */
module Lines {

  /** The four line flags of line.h, one field per bit. */
  datatype Flags = Flags(dontLog: bool, dontBuf: bool, noHist: bool, logOnly: bool)

  const LINE_REGULAR := Flags(false, false, false, false)
  const LINE_CHECKPOINT := Flags(false, false, false, false)
  const LINE_MCP := Flags(true, true, true, false)
  const LINE_MESSAGE := Flags(true, false, true, false)
  const LINE_RECALLED := Flags(true, true, true, false)
  const LINE_LOGONLY := Flags(false, false, false, true)

  /** The identity of a line, for stating which line went where: the n-th line
      read from a socket, the n-th line mooproxy wrote itself, or a copy. */
  datatype LineId = Wire(n: nat) | Own(n: nat) | Copy

  /** The time and the day that a new line is stamped with. */
  datatype Clock = Clock(time: int, day: int)

  /** The value of a line. The C field `len` is |str|. */
  datatype LineData = LineData(str: string, day: int, time: int, flags: Flags, id: LineId)

  function NewLine(str: string, clock: Clock, id: LineId): LineData {
    LineData(str, clock.day, clock.time, LINE_REGULAR, id)
  }

  /** sizeof( Line ) + 2 * sizeof( void * ) + 8 where pointers and longs take 8 bytes. */
  const LINE_BYTE_COST: nat := 80

  function Cost(l: LineData): nat {
    |l.str| + LINE_BYTE_COST
  }

  function TotalCost(ls: seq<LineData>): nat {
    if ls == [] then 0 else Cost(ls[0]) + TotalCost(ls[1..])
  }

  lemma {:induction false} TotalCostConcat(a: seq<LineData>, b: seq<LineData>)
    ensures TotalCost(a + b) == TotalCost(a) + TotalCost(b)
  {
    if a == [] {
      assert a + b == b;
    } else {
      assert (a + b)[1..] == a[1..] + b;
      TotalCostConcat(a[1..], b);
    }
  }

  lemma TotalCostRemove(s: seq<LineData>, k: nat)
    requires k < |s|
    ensures TotalCost(s) == TotalCost(s[..k] + s[k + 1..]) + Cost(s[k])
  {
    assert s == s[..k] + ([s[k]] + s[k + 1..]);
    TotalCostConcat(s[..k], [s[k]] + s[k + 1..]);
    TotalCostConcat(s[..k], s[k + 1..]);
  }

  /** The lines of a queue as strings. */
  function Strings(ls: seq<LineData>): seq<string> {
    seq(|ls|, i requires 0 <= i < |ls| => ls[i].str)
  }

  /** The payload fields of `struct Line` are grouped in the value `data`. */
  class Line {
    var data: LineData
    var next: Line?
    var prev: Line?
    ghost var owner: Linequeue?

    /** line_create. */
    constructor (str: string, clock: Clock, id: LineId)
      ensures data == NewLine(str, clock, id) && owner == null
      ensures next == null && prev == null
    {
      data := NewLine(str, clock, id);
      next, prev := null, null;
      owner := null;
    }
  }

  class Linequeue {
    var head: Line?
    var tail: Line?
    var count: nat
    var size: nat

    ghost var nodes: seq<Line>
    ghost var contents: seq<LineData>

    /** The i-th node holds the i-th value and is linked to its neighbours. */
    ghost predicate LinkedAt(i: int)
      requires 0 <= i < |nodes| == |contents|
      reads this`nodes, this`contents, nodes
    {
      && nodes[i].data == contents[i]
      && nodes[i].prev == (if i == 0 then null else nodes[i - 1])
      && nodes[i].next == (if i == |nodes| - 1 then null else nodes[i + 1])
    }

    ghost predicate Apart(i: int, j: int)
      requires 0 <= i < |nodes| && 0 <= j < |nodes|
      reads this`nodes
    {
      nodes[i] != nodes[j]
    }

    ghost predicate Valid()
      reads this, nodes
    {
      && |nodes| == |contents|
      && (forall i :: 0 <= i < |nodes| ==> nodes[i].owner == this)
      && (forall i, j :: 0 <= i < |nodes| && 0 <= j < |nodes| && i != j ==> Apart(i, j))
      && (forall i :: 0 <= i < |nodes| ==> LinkedAt(i))
      && head == (if nodes == [] then null else nodes[0])
      && tail == (if nodes == [] then null else nodes[|nodes| - 1])
      && count == |nodes|
      && size == TotalCost(contents)
    }

    /** linequeue_create. */
    constructor ()
      ensures Valid() && contents == [] && nodes == []
    {
      head, tail := null, null;
      count, size := 0, 0;
      nodes, contents := [], [];
    }

    /** linequeue_clear. */
    method Clear()
      requires Valid()
      modifies this, nodes
      ensures Valid() && contents == [] && nodes == []
      ensures forall n <- old(nodes) :: n.owner == null
    {
      var line := head;
      ghost var k := 0;
      while line != null
        invariant 0 <= k <= |nodes| && nodes == old(nodes) && contents == old(contents)
        invariant line == if k < |nodes| then nodes[k] else null
        invariant forall i :: 0 <= i < |nodes| ==> LinkedAt(i)
        invariant forall i :: 0 <= i < k ==> nodes[i].owner == null
        decreases |nodes| - k
      {
        assert LinkedAt(k);
        var next := line.next;
        label Before:
        line.owner := null;
        forall i | 0 <= i < |nodes| ensures LinkedAt(i) {
          assert old@Before(LinkedAt(i));
        }
        line := next;
        k := k + 1;
      }
      Reset();
    }

    /** The queue fields of an empty queue. */
    method Reset()
      modifies this
      ensures Valid() && contents == [] && nodes == []
    {
      head, tail := null, null;
      count, size := 0, 0;
      nodes, contents := [], [];
    }

    /** The line after the last node becomes a node. */
    ghost method Enlist(line: Line)
      requires |nodes| == |contents| && line !in nodes
      requires forall i :: 0 <= i < |nodes| ==> nodes[i].owner == this
      requires forall i, j :: 0 <= i < |nodes| && 0 <= j < |nodes| && i != j ==> Apart(i, j)
      requires forall i :: 0 <= i < |nodes| - 1 ==> LinkedAt(i)
      requires nodes != [] ==>
                 var n := nodes[|nodes| - 1];
                 n.next == line && n.data == contents[|nodes| - 1]
                 && n.prev == if |nodes| == 1 then null else nodes[|nodes| - 2]
      requires line.next == null && line.prev == if nodes == [] then null else nodes[|nodes| - 1]
      modifies this`nodes, this`contents, line`owner
      ensures nodes == old(nodes) + [line] && contents == old(contents) + [line.data]
      ensures forall i :: 0 <= i < |nodes| ==> nodes[i].owner == this
      ensures forall i, j :: 0 <= i < |nodes| && 0 <= j < |nodes| && i != j ==> Apart(i, j)
      ensures forall i :: 0 <= i < |nodes| ==> LinkedAt(i)
    {
      var m := |nodes|;
      line.owner := this;
      nodes, contents := nodes + [line], contents + [line.data];
      forall i, j | 0 <= i < |nodes| && 0 <= j < |nodes| && i != j ensures Apart(i, j) {
        assert i < m && j < m ==> old(Apart(i, j));
      }
      forall i | 0 <= i < |nodes| ensures LinkedAt(i) {
        assert i < m - 1 ==> old(LinkedAt(i));
      }
    }

    /** linequeue_append. */
    method Append(line: Line)
      requires Valid() && line.owner == null
      modifies this, line, nodes
      ensures Valid() && nodes == old(nodes) + [line]
      ensures contents == old(contents) + [line.data] && line.data == old(line.data)
    {
      TotalCostConcat(contents, [line.data]);
      assert head != null ==> LinkedAt(|nodes| - 1);
      line.next := null;
      if head == null {
        line.prev := null;
        head := line;
      } else {
        tail.next := line;
        line.prev := tail;
      }
      tail := line;
      forall i | 0 <= i < |nodes| - 1 ensures LinkedAt(i) {
        assert old(LinkedAt(i)) && old(Apart(i, |nodes| - 1));
      }
      Enlist(line);
      count := count + 1;
      size := size + |line.data.str| + LINE_BYTE_COST;
    }

    /** Node i when the neighbours of node k no longer point to it. */
    ghost predicate BypassAt(i: int, k: int)
      requires 0 <= i < |nodes| == |contents| && 0 <= k < |nodes|
      reads this`nodes, this`contents, nodes
    {
      && nodes[i].data == contents[i]
      && nodes[i].prev == (var p := if i == k + 1 then i - 2 else i - 1; if p < 0 then null else nodes[p])
      && nodes[i].next == (var n := if i == k - 1 then i + 2 else i + 1; if n >= |nodes| then null else nodes[n])
    }

    /** The pointer surgery of linequeue_remove. */
    method Unlink(line: Line, ghost k: nat)
      requires Valid() && k < |nodes| && nodes[k] == line
      modifies this`head, this`tail, nodes
      ensures forall i :: 0 <= i < |nodes| && i != k ==> nodes[i].owner == this
      ensures forall i :: 0 <= i < |nodes| && i != k ==> BypassAt(i, k)
      ensures head == (var i := if k == 0 then 1 else 0; if i < |nodes| then nodes[i] else null)
      ensures tail == (var i := if k == |nodes| - 1 then k - 1 else |nodes| - 1; if i >= 0 then nodes[i] else null)
      ensures line.owner == null && line.next == null && line.prev == null && line.data == old(line.data)
    {
      assert LinkedAt(k);
      if line.next != null {
        line.next.prev := line.prev;
      } else {
        tail := line.prev;
      }
      if line.prev != null {
        line.prev.next := line.next;
      } else {
        head := line.next;
      }
      line.prev, line.next := null, null;
      line.owner := null;
      forall i | 0 <= i < |nodes| && i != k ensures BypassAt(i, k) {
        assert old(LinkedAt(i)) && old(Apart(i, k));
        assert i != k - 1 && k != 0 ==> old(Apart(i, k - 1));
        assert i != k + 1 && k + 1 < |nodes| ==> old(Apart(i, k + 1));
      }
      forall i | 0 <= i < |nodes| && i != k ensures nodes[i].owner == this {
        assert old(Apart(i, k));
      }
    }

    /** Once nothing points to the k-th node, it leaves the abstract queue. */
    ghost method Forget(k: nat)
      requires k < |nodes| == |contents|
      requires forall i :: 0 <= i < |nodes| && i != k ==> nodes[i].owner == this
      requires forall i, j :: 0 <= i < |nodes| && 0 <= j < |nodes| && i != j ==> Apart(i, j)
      requires forall i :: 0 <= i < |nodes| && i != k ==> BypassAt(i, k)
      modifies this`nodes, this`contents
      ensures nodes == old(nodes)[..k] + old(nodes)[k + 1..]
      ensures contents == old(contents)[..k] + old(contents)[k + 1..]
      ensures forall i :: 0 <= i < |nodes| ==> nodes[i].owner == this
      ensures forall i, j :: 0 <= i < |nodes| && 0 <= j < |nodes| && i != j ==> Apart(i, j)
      ensures forall i :: 0 <= i < |nodes| ==> LinkedAt(i)
    {
      nodes, contents := nodes[..k] + nodes[k + 1..], contents[..k] + contents[k + 1..];
      forall i, j | 0 <= i < |nodes| && 0 <= j < |nodes| && i != j ensures Apart(i, j) {
        assert old(Apart(if i < k then i else i + 1, if j < k then j else j + 1));
      }
      forall i | 0 <= i < |nodes| ensures LinkedAt(i) {
        assert old(BypassAt(if i < k then i else i + 1, k));
      }
    }

    /** linequeue_remove on a line of the queue. The index k is where it was. */
    method Remove(line: Line, ghost k: nat)
      requires Valid() && k < |nodes| && nodes[k] == line
      modifies this, nodes
      ensures Valid() && nodes == old(nodes)[..k] + old(nodes)[k + 1..]
      ensures contents == old(contents)[..k] + old(contents)[k + 1..]
      ensures line.owner == null && line.next == null && line.prev == null && line.data == old(line.data)
    {
      assert LinkedAt(k);
      TotalCostRemove(contents, k);
      Unlink(line, k);
      count := count - 1;
      size := size - (|line.data.str| + LINE_BYTE_COST);
      Forget(k);
    }

    /** linequeue_pop: null when the queue is empty. */
    method Pop() returns (line: Line?)
      requires Valid()
      modifies this, nodes
      ensures Valid()
      ensures line == null <==> old(contents) == []
      ensures line == null ==> nodes == old(nodes) && contents == []
      ensures line != null ==>
        && line == old(nodes)[0] && line.owner == null && line.data == old(contents)[0]
        && nodes == old(nodes)[1..] && contents == old(contents)[1..]
    {
      line := head;
      if line != null {
        assert LinkedAt(0);
        Remove(line, 0);
      }
    }

    /** linequeue_popend: null when the queue is empty. */
    method PopEnd() returns (line: Line?)
      requires Valid()
      modifies this, nodes
      ensures Valid()
      ensures line == null <==> old(contents) == []
      ensures line == null ==> nodes == old(nodes) && contents == []
      ensures line != null ==>
        var last := |old(contents)| - 1;
        && line == old(nodes)[last] && line.owner == null && line.data == old(contents)[last]
        && nodes == old(nodes)[..last] && contents == old(contents)[..last]
    {
      line := tail;
      if line != null {
        assert LinkedAt(|nodes| - 1);
        Remove(line, |nodes| - 1);
      }
    }

    /** The pointer surgery of linequeue_merge on two queues that are not empty. */
    method Join(two: Linequeue)
      requires Valid() && two.Valid() && two != this && nodes != [] && two.nodes != []
      modifies this`tail, nodes, two.nodes
      ensures tail == two.tail
      ensures forall i :: 0 <= i < |nodes| ==> nodes[i].owner == this
      ensures forall i :: 0 <= i < |two.nodes| ==> two.nodes[i].owner == this
      ensures forall i :: 0 <= i < |nodes| - 1 ==> LinkedAt(i)
      ensures forall i :: 1 <= i < |two.nodes| ==> two.LinkedAt(i)
      ensures var n := nodes[|nodes| - 1];
                n.next == two.nodes[0] && n.data == contents[|nodes| - 1]
                && n.prev == if |nodes| == 1 then null else nodes[|nodes| - 2]
      ensures var n := two.nodes[0];
                n.prev == nodes[|nodes| - 1] && n.data == two.contents[0]
                && n.next == if |two.nodes| == 1 then null else two.nodes[1]
    {
      assert LinkedAt(|nodes| - 1) && two.LinkedAt(0);
      tail.next := two.head;
      two.head.prev := tail;
      tail := two.tail;
      forall n <- two.nodes {
        n.owner := this;
      }
      forall i | 0 <= i < |nodes| - 1 ensures LinkedAt(i) {
        assert old(LinkedAt(i)) && old(Apart(i, |nodes| - 1));
      }
      forall i | 1 <= i < |two.nodes| ensures two.LinkedAt(i) {
        assert old(two.LinkedAt(i)) && old(two.Apart(i, 0));
      }
    }

    /** The nodes of a joined queue become nodes of this one. */
    ghost method Adopt(two: Linequeue)
      requires two != this && nodes != [] && two.nodes != []
      requires |nodes| == |contents| && |two.nodes| == |two.contents|
      requires forall i, j :: 0 <= i < |nodes| && 0 <= j < |nodes| && i != j ==> Apart(i, j)
      requires forall i, j :: 0 <= i < |two.nodes| && 0 <= j < |two.nodes| && i != j ==> two.Apart(i, j)
      requires forall i, j :: 0 <= i < |nodes| && 0 <= j < |two.nodes| ==> nodes[i] != two.nodes[j]
      requires forall i :: 0 <= i < |nodes| ==> nodes[i].owner == this
      requires forall i :: 0 <= i < |two.nodes| ==> two.nodes[i].owner == this
      requires forall i :: 0 <= i < |nodes| - 1 ==> LinkedAt(i)
      requires forall i :: 1 <= i < |two.nodes| ==> two.LinkedAt(i)
      requires var n := nodes[|nodes| - 1];
                 n.next == two.nodes[0] && n.data == contents[|nodes| - 1]
                 && n.prev == if |nodes| == 1 then null else nodes[|nodes| - 2]
      requires var n := two.nodes[0];
                 n.prev == nodes[|nodes| - 1] && n.data == two.contents[0]
                 && n.next == if |two.nodes| == 1 then null else two.nodes[1]
      modifies this`nodes, this`contents
      ensures nodes == old(nodes) + two.nodes && contents == old(contents) + two.contents
      ensures forall i :: 0 <= i < |nodes| ==> nodes[i].owner == this
      ensures forall i, j :: 0 <= i < |nodes| && 0 <= j < |nodes| && i != j ==> Apart(i, j)
      ensures forall i :: 0 <= i < |nodes| ==> LinkedAt(i)
    {
      var m := |nodes|;
      nodes, contents := nodes + two.nodes, contents + two.contents;
      forall i, j | 0 <= i < |nodes| && 0 <= j < |nodes| && i != j ensures Apart(i, j) {
        assert i < m && j < m ==> old(Apart(i, j));
        assert m <= i && m <= j ==> two.Apart(i - m, j - m);
      }
      forall i | 0 <= i < |nodes| ensures LinkedAt(i) {
        assert i < m - 1 ==> old(LinkedAt(i));
        assert m < i ==> two.LinkedAt(i - m);
      }
    }

    /** linequeue_merge into an empty queue: copy the references. */
    method TakeAll(two: Linequeue)
      requires Valid() && two.Valid() && two != this && nodes == []
      modifies this`head, this`tail, this`nodes, this`contents, two.nodes
      ensures head == two.head && tail == two.tail && nodes == two.nodes && contents == two.contents
      ensures forall i :: 0 <= i < |nodes| ==> nodes[i].owner == this
      ensures forall i, j :: 0 <= i < |nodes| && 0 <= j < |nodes| && i != j ==> Apart(i, j)
      ensures forall i :: 0 <= i < |nodes| ==> LinkedAt(i)
    {
      head := two.head;
      tail := two.tail;
      forall n <- two.nodes {
        n.owner := this;
      }
      nodes, contents := two.nodes, two.contents;
      forall i | 0 <= i < |nodes| ensures LinkedAt(i) {
        assert old(two.LinkedAt(i));
      }
      forall i, j | 0 <= i < |nodes| && 0 <= j < |nodes| && i != j ensures Apart(i, j) {
        assert old(two.Apart(i, j));
      }
    }

    /** linequeue_merge up to the counters and the emptying of the other queue. */
    method Splice(two: Linequeue)
      requires Valid() && two.Valid() && two != this && two.nodes != []
      modifies this`head, this`tail, this`nodes, this`contents, nodes, two.nodes
      ensures nodes == old(nodes) + two.nodes && contents == old(contents) + two.contents
      ensures head == nodes[0] && tail == nodes[|nodes| - 1]
      ensures forall i :: 0 <= i < |nodes| ==> nodes[i].owner == this
      ensures forall i, j :: 0 <= i < |nodes| && 0 <= j < |nodes| && i != j ==> Apart(i, j)
      ensures forall i :: 0 <= i < |nodes| ==> LinkedAt(i)
    {
      if head == null || tail == null {
        TakeAll(two);
      } else {
        Join(two);
        Adopt(two);
      }
    }

    /** linequeue_merge: the lines of `two` go to the end of this queue. */
    method Merge(two: Linequeue)
      requires Valid() && two.Valid() && two != this
      modifies this, two, nodes, two.nodes
      ensures Valid() && nodes == old(nodes) + old(two.nodes)
      ensures contents == old(contents) + old(two.contents)
      ensures two.Valid() && two.contents == [] && two.nodes == []
    {
      if two.head == null || two.tail == null {
        return;
      }
      TotalCostConcat(contents, two.contents);
      Splice(two);
      count := count + two.count;
      size := size + two.size;
      two.Reset();
    }
  }

  /** Distinct queues share no line. */
  lemma QueuesDisjoint(one: Linequeue, two: Linequeue)
    requires one.Valid() && two.Valid() && one != two
    ensures forall n <- one.nodes :: n !in two.nodes
  {
  }

  /** The loops that move the head of one queue to the end of another (for
      instance log.c:149-152) leave both queues well formed. */
  method MoveHead(one: Linequeue, two: Linequeue)
    requires one.Valid() && two.Valid() && one != two
    modifies one, two, one.nodes, two.nodes
    ensures one.Valid() && two.Valid()
    ensures old(one.contents) == [] ==> one.contents == [] && two.contents == old(two.contents)
    ensures old(one.contents) != [] ==>
              && one.contents == old(one.contents)[1..]
              && two.contents == old(two.contents) + [old(one.contents)[0]]
  {
    QueuesDisjoint(one, two);
    var line := one.Pop();
    if line != null {
      two.Append(line);
    }
  }
}
