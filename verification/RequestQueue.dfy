/** The linked list of accepted descriptors (Final/src/queue.c), as a sequence that grows at the end. */
module RequestQueue {
  import opened Common

  class Node {
    var next: Node?
    var data: int

    constructor (data: int)
      ensures this.data == data && next == null
    {
      this.data := data;
      next := null;
    }
  }

  class Queue {
    var head: Node?
    ghost var spine: seq<Node>  // the nodes from the head on

    /** The links run through the spine, without a repetition, and end in null. */
    ghost predicate Valid()
      reads this, spine
    {
      && head == (if spine == [] then null else spine[0])
      && (forall i, j :: 0 <= i < j < |spine| ==> spine[i] != spine[j])
      && (forall i {:trigger spine[i]} :: 0 <= i < |spine| ==>
            spine[i].next == if i + 1 < |spine| then spine[i + 1] else null)
    }

    ghost function Contents(): (s: seq<int>)
      reads this, spine
    {
      seq(|spine|, i requires 0 <= i < |spine| reads this, spine => spine[i].data)
    }

    ghost function Nodes(): set<object>
      reads this
    {
      set node | node in spine
    }

    constructor ()
      ensures Valid() && Contents() == [] && spine == []
    {
      head := null;
      spine := [];
    }

    /** Walks to the last node and links a new one behind it. */
    method Enqueue(data: int)
      requires Valid()
      modifies this, spine
      ensures Valid() && Contents() == old(Contents()) + [data]
      ensures |spine| == |old(spine)| + 1 && spine[..|old(spine)|] == old(spine) && fresh(spine[|old(spine)|])
      ensures fresh(Nodes() - old(Nodes()))
    {
      var node := new Node(data);
      if head == null {
        head := node;
      } else {
        var current: Node := head;
        ghost var i := 0;
        while current.next != null
          invariant 0 <= i < |spine| && current == spine[i]
          modifies {}
          decreases |spine| - i
        {
          current := current.next;
          i := i + 1;
        }
        current.next := node;
      }
      spine := spine + [node];
      assert Contents() == old(Contents()) + [data];
    }

    method Dequeue() returns (r: Option<int>)
      requires Valid()
      modifies this
      ensures Valid()
      ensures old(Contents()) == [] ==> r == None && Contents() == [] && spine == []
      ensures old(Contents()) != [] ==>
        r == Some(old(Contents())[0]) && Contents() == old(Contents())[1..] && spine == old(spine)[1..]
    {
      if head == null {
        return None;
      }
      var current: Node := head;
      head := current.next;
      spine := spine[1..];
      r := Some(current.data);
      assert Contents() == old(Contents())[1..];
    }
  }

  // ---------- any history of calls ----------

  datatype Call = Put(data: int) | Get

  function AfterOne(s: seq<int>, call: Call): seq<int> {
    match call
    case Put(x) => s + [x]
    case Get => if s == [] then s else s[1..]
  }

  function GotOne(s: seq<int>, call: Call): seq<int> {
    if call.Put? || s == [] then [] else [s[0]]
  }

  /** The values that the calls leave in a queue that started with s. */
  function After(s: seq<int>, calls: seq<Call>): seq<int>
    decreases |calls|
  {
    if calls == [] then s else After(AfterOne(s, calls[0]), calls[1..])
  }

  /** What the calls take out, in order. */
  function Got(s: seq<int>, calls: seq<Call>): seq<int>
    decreases |calls|
  {
    if calls == [] then [] else GotOne(s, calls[0]) + Got(AfterOne(s, calls[0]), calls[1..])
  }

  function PutOne(call: Call): seq<int> {
    match call
    case Put(x) => [x]
    case Get => []
  }

  function Puts(calls: seq<Call>): seq<int> {
    if calls == [] then [] else PutOne(calls[0]) + Puts(calls[1..])
  }

  lemma Associative(a: seq<int>, b: seq<int>, c: seq<int>)
    ensures (a + b) + c == a + (b + c)
  {
  }

  lemma OneInOneOut(s: seq<int>, call: Call)
    ensures GotOne(s, call) + AfterOne(s, call) == s + PutOne(call)
  {
  }

  /** Over any history, what came out followed by what is left is what was there followed by what went in. */
  lemma {:induction false} FirstInFirstOut(s: seq<int>, calls: seq<Call>)
    ensures Got(s, calls) + After(s, calls) == s + Puts(calls)
    decreases |calls|
  {
    if calls != [] {
      var next, rest := AfterOne(s, calls[0]), calls[1..];
      FirstInFirstOut(next, rest);
      Associative(GotOne(s, calls[0]), Got(next, rest), After(next, rest));
      Associative(GotOne(s, calls[0]), next, Puts(rest));
      OneInOneOut(s, calls[0]);
      Associative(s, PutOne(calls[0]), Puts(rest));
    }
  }

  /** One call on the list itself. */
  method Make(q: Queue, call: Call) returns (got: seq<int>)
    requires q.Valid()
    modifies q, q.Nodes()
    ensures q.Valid() && fresh(q.Nodes() - old(q.Nodes()))
    ensures q.Contents() == AfterOne(old(q.Contents()), call) && got == GotOne(old(q.Contents()), call)
  {
    got := [];
    match call
    case Put(x) =>
      q.Enqueue(x);
    case Get =>
      var r := q.Dequeue();
      if r.Some? {
        got := [r.value];
      }
  }

  /** The calls, made one after the other on the list: they leave and take out what the two functions say. */
  method Play(q: Queue, calls: seq<Call>) returns (got: seq<int>)
    requires q.Valid()
    modifies q, q.Nodes()
    ensures q.Valid() && fresh(q.Nodes() - old(q.Nodes()))
    ensures q.Contents() == After(old(q.Contents()), calls)
    ensures got == Got(old(q.Contents()), calls)
    decreases |calls|
  {
    if calls == [] {
      return [];
    }
    var first := Make(q, calls[0]);
    var rest := Play(q, calls[1..]);
    got := first + rest;
  }
}
