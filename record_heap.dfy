/**
 * The ingestion record heap: a priority queue of merge nodes through which
 * the per-sample VCF record streams are merged into one ordered stream.
 *
 * The comparator lives in a header that is not part of this model, so the
 * node order is a parameter `le` ("a sorts no later than b"), required only
 * to be a total preorder. The std::priority_queue is represented by its
 * contents kept in `le` order; its binary-heap layout is not modelled.
 */
module IngestionHeap {
  import opened Wrappers
  import opened StorageEngine

  datatype NodeType = Record | Anchor

  /** An htslib record as the heap sees it: an opaque handle and its 0-based start `pos`. */
  datatype VcfRecord = VcfRecord(handle: nat, pos: int)

  /** RecordHeap::Node */
  datatype Node = Node(
    vcf: nat,
    nodeType: NodeType,
    record: VcfRecord,
    sortStartPos: uint32,
    sampleId: uint32,
    endNode: bool)

  /** The std::runtime_error thrown by insert, with the numbers its message reports. */
  datatype InsertError = SortStartBeforeStart(
    nodeType: NodeType, recordPos: int, sampleId: uint32, sortStartPos: uint32)

  /** The sanity check of insert: `sort_start_pos < (uint32_t)record->pos` rejects the node. */
  predicate StartsBeforeRecord(sortStartPos: uint32, record: VcfRecord) {
    sortStartPos < ToUint32(record.pos)
  }

  /** A node that passed the check. */
  ghost predicate WellPlaced(n: Node) {
    !StartsBeforeRecord(n.sortStartPos, n.record)
  }

  ghost predicate TotalPreorder(le: (Node, Node) -> bool) {
    && (forall a, b :: le(a, b) || le(b, a))
    && (forall a, b, c :: le(a, b) && le(b, c) ==> le(a, c))
  }

  ghost predicate SortedBy(le: (Node, Node) -> bool, s: seq<Node>) {
    forall i, j :: 0 <= i < j < |s| ==> le(s[i], s[j])
  }

  lemma Reflexive(le: (Node, Node) -> bool, a: Node)
    requires TotalPreorder(le)
    ensures le(a, a)
  {
    assert le(a, a) || le(a, a);
  }

  /** A node that sorts no later than the head of a sorted sequence may go in front of it. */
  lemma ConsBelowHead(le: (Node, Node) -> bool, x: Node, s: seq<Node>)
    requires TotalPreorder(le) && SortedBy(le, s)
    requires s != [] ==> le(x, s[0])
    ensures SortedBy(le, [x] + s)
  {
    forall j | 0 <= j < |s|
      ensures le(x, s[j])
    {
      if j > 0 {
        assert le(s[0], s[j]);
      }
    }
  }

  /** A node that sorts no later than every element of `s` may go in front of it. */
  lemma ConsBelowAll(le: (Node, Node) -> bool, x: Node, s: seq<Node>)
    requires SortedBy(le, s)
    requires forall n :: n in multiset(s) ==> le(x, n)
    ensures SortedBy(le, [x] + s)
  {
    forall j | 0 <= j < |s|
      ensures le(x, s[j])
    {
      assert s[j] in multiset(s);
    }
  }

  /** Where a pushed node goes: after every node that sorts no later than it. */
  function InsertSorted(le: (Node, Node) -> bool, s: seq<Node>, x: Node): (r: seq<Node>)
    requires TotalPreorder(le) && SortedBy(le, s)
    ensures SortedBy(le, r)
    ensures multiset(r) == multiset(s) + multiset{x}
    decreases |s|
  {
    if s == [] then [x]
    else if le(s[0], x) then
      var tail := InsertSorted(le, s[1..], x);
      HeadBelowInsert(le, s, x, tail);
      [s[0]] + tail
    else
      ConsBelowHead(le, x, s);
      [x] + s
  }

  lemma HeadBelowInsert(le: (Node, Node) -> bool, s: seq<Node>, x: Node, tail: seq<Node>)
    requires TotalPreorder(le) && SortedBy(le, s) && s != [] && le(s[0], x)
    requires SortedBy(le, tail) && multiset(tail) == multiset(s[1..]) + multiset{x}
    ensures SortedBy(le, [s[0]] + tail)
    ensures multiset([s[0]] + tail) == multiset(s) + multiset{x}
  {
    assert s == [s[0]] + s[1..];
    forall n | n in multiset(tail)
      ensures le(s[0], n)
    {
      if n != x {
        assert n in multiset(s[1..]);
        var j :| 0 <= j < |s[1..]| && s[1..][j] == n;
        assert s[j + 1] == n;
      }
    }
    ConsBelowAll(le, s[0], tail);
  }

  /**
   * Removing a minimal node at every step (what repeated top/pop does) yields
   * the nodes `p` of the multiset `m` in this order.
   */
  ghost predicate IsPopSequence(le: (Node, Node) -> bool, m: multiset<Node>, p: seq<Node>)
    decreases |p|
  {
    if p == [] then m == multiset{}
    else
      && p[0] in m
      && (forall n :: n in m ==> le(p[0], n))
      && IsPopSequence(le, m - multiset{p[0]}, p[1..])
  }

  /**
   * Popping until empty yields a permutation of the held nodes, in
   * non-decreasing comparator order.
   */
  lemma {:induction false} PopSequenceSortedPermutation(
    le: (Node, Node) -> bool, m: multiset<Node>, p: seq<Node>)
    requires IsPopSequence(le, m, p)
    ensures multiset(p) == m
    ensures SortedBy(le, p)
    decreases |p|
  {
    if p != [] {
      var rest := m - multiset{p[0]};
      PopSequenceSortedPermutation(le, rest, p[1..]);
      assert p == [p[0]] + p[1..];
      forall j | 0 < j < |p|
        ensures le(p[0], p[j])
      {
        assert p[j] in multiset(p[1..]);
      }
    }
  }

  /** Popping the nodes `p` one minimal node at a time takes `m` down to `rest`. */
  ghost predicate PopsTo(le: (Node, Node) -> bool, m: multiset<Node>, p: seq<Node>, rest: multiset<Node>)
    decreases |p|
  {
    if p == [] then m == rest
    else
      && p[0] in m
      && (forall n :: n in m ==> le(p[0], n))
      && PopsTo(le, m - multiset{p[0]}, p[1..], rest)
  }

  /** One more top/pop extends the nodes popped so far by the minimal node of what is left. */
  lemma {:induction false} PopsToSnoc(
    le: (Node, Node) -> bool, m: multiset<Node>, p: seq<Node>, rest: multiset<Node>, x: Node)
    requires PopsTo(le, m, p, rest)
    requires x in rest && forall n :: n in rest ==> le(x, n)
    ensures PopsTo(le, m, p + [x], rest - multiset{x})
    decreases |p|
  {
    if p != [] {
      PopsToSnoc(le, m - multiset{p[0]}, p[1..], rest, x);
      assert (p + [x])[1..] == p[1..] + [x];
    }
  }

  /** Popping down to nothing is a complete pop sequence. */
  lemma {:induction false} PopsToEmpty(le: (Node, Node) -> bool, m: multiset<Node>, p: seq<Node>)
    requires PopsTo(le, m, p, multiset{})
    ensures IsPopSequence(le, m, p)
    decreases |p|
  {
    if p != [] {
      PopsToEmpty(le, m - multiset{p[0]}, p[1..]);
    }
  }

  /** A sorted sequence is its own pop sequence: the queue yields its nodes front to back. */
  lemma {:induction false} SortedIsPopSequence(le: (Node, Node) -> bool, s: seq<Node>)
    requires TotalPreorder(le) && SortedBy(le, s)
    ensures IsPopSequence(le, multiset(s), s)
    decreases |s|
  {
    if s != [] {
      assert s == [s[0]] + s[1..];
      assert multiset(s) - multiset{s[0]} == multiset(s[1..]);
      SortedIsPopSequence(le, s[1..]);
      forall n | n in multiset(s)
        ensures le(s[0], n)
      {
        assert n in s;
        var j :| 0 <= j < |s| && s[j] == n;
        if j == 0 {
          Reflexive(le, n);
        }
      }
    }
  }

  class RecordHeap {
    /** The comparator of the header that is not shown. */
    const le: (Node, Node) -> bool

    /** The contents of the std::priority_queue `heap_`, kept in `le` order. */
    var nodes: seq<Node>

    ghost predicate Valid()
      reads this
    {
      && TotalPreorder(le)
      && SortedBy(le, nodes)
      && (forall n :: n in nodes ==> WellPlaced(n))
    }

    /** The nodes the heap holds, as a multiset. */
    ghost function Contents(): multiset<Node>
      reads this
    {
      multiset(nodes)
    }

    constructor (le: (Node, Node) -> bool)
      requires TotalPreorder(le)
      ensures Valid()
      ensures this.le == le && Contents() == multiset{}
    {
      this.le := le;
      nodes := [];
    }

    /**
     * RecordHeap::insert. Fails exactly when the sort start position lies
     * before the record's own start, and then leaves the heap as it was;
     * otherwise adds exactly one node carrying the arguments.
     */
    method Insert(
      vcf: nat, nodeType: NodeType, record: VcfRecord,
      sortStartPos: uint32, sampleId: uint32, endNode: bool)
      returns (r: Result<Node, InsertError>)
      requires Valid()
      modifies this
      ensures Valid()
      ensures r.Failure? <==> StartsBeforeRecord(sortStartPos, record)
      ensures r.Failure? ==>
        && nodes == old(nodes)
        && r.error == SortStartBeforeStart(nodeType, record.pos, sampleId, sortStartPos)
      ensures r.Success? ==>
        && r.value == Node(vcf, nodeType, record, sortStartPos, sampleId, endNode)
        && Contents() == old(Contents()) + multiset{r.value}
        && |nodes| == old(|nodes|) + 1
    {
      if StartsBeforeRecord(sortStartPos, record) {
        return Failure(SortStartBeforeStart(nodeType, record.pos, sampleId, sortStartPos));
      }
      var node := Node(vcf, nodeType, record, sortStartPos, sampleId, endNode);
      nodes := InsertSorted(le, nodes, node);
      assert forall n :: n in nodes ==> n in multiset(old(nodes)) + multiset{node};
      r := Success(node);
    }

    /** RecordHeap::empty */
    function Empty(): (b: bool)
      reads this
      ensures b <==> Contents() == multiset{}
    {
      |nodes| == 0
    }

    /** RecordHeap::top: a node that sorts no later than any held node. */
    function Top(): (n: Node)
      reads this
      requires Valid() && !Empty()
      ensures n in Contents()
      ensures forall m :: m in Contents() ==> le(n, m)
    {
      assert forall m :: m in Contents() ==> exists j :: 0 <= j < |nodes| && nodes[j] == m;
      Reflexive(le, nodes[0]);
      nodes[0]
    }

    /**
     * RecordHeap::pop: removes exactly one occurrence of the top node; every
     * node left sorts no earlier than the one removed.
     */
    method Pop()
      requires Valid() && !Empty()
      modifies this
      ensures Valid()
      ensures Contents() == old(Contents()) - multiset{old(Top())}
      ensures forall m :: m in Contents() ==> le(old(Top()), m)
    {
      ghost var top := Top();
      assert nodes == [nodes[0]] + nodes[1..];
      nodes := nodes[1..];
      assert forall m :: m in nodes ==> m in old(nodes);
    }

    /**
     * The consumer's merge loop: take top() and pop() until the heap is
     * empty. The nodes come out as a pop sequence of the old contents, so
     * (by PopSequenceSortedPermutation) as a sorted permutation of them.
     */
    method Drain() returns (popped: seq<Node>)
      requires Valid()
      modifies this
      ensures Valid()
      ensures Contents() == multiset{}
      ensures IsPopSequence(le, old(Contents()), popped)
    {
      popped := [];
      while !Empty()
        invariant Valid()
        invariant PopsTo(le, old(Contents()), popped, Contents())
        decreases |nodes|
      {
        var top := Top();
        PopsToSnoc(le, old(Contents()), popped, Contents(), top);
        Pop();
        popped := popped + [top];
      }
      PopsToEmpty(le, old(Contents()), popped);
    }

    /** RecordHeap::clear: pops until empty. */
    method Clear()
      requires Valid()
      modifies this
      ensures Valid()
      ensures Contents() == multiset{}
    {
      while !Empty()
        invariant Valid()
        decreases |nodes|
      {
        Pop();
      }
    }
  }
}
