/** The doubly linked queue, proved against a mathematical sequence. */
module LinkedDeque {
  import opened Options

  class Node<T> {
    var value: T
    var next: Node?<T>
    var prev: Node?<T>

    constructor (t: T)
      ensures value == t && next == null && prev == null
    {
      value, next, prev := t, null, null;
    }
  }

  class Queue<T> {
    var head: Node?<T>
    var tail: Node?<T>
    ghost var nodes: seq<Node<T>>
    ghost var repr: set<Node<T>>

    /** The nodes from head to tail, all different, linked to their neighbours in both directions. */
    ghost predicate Valid()
      reads this, repr
    {
      (forall i :: 0 <= i < |nodes| ==> nodes[i] in repr) &&
      (nodes == [] ==> head == null && tail == null) &&
      (nodes != [] ==> head == nodes[0] && tail == nodes[|nodes| - 1]) &&
      (forall i, j :: 0 <= i < j < |nodes| ==> nodes[i] != nodes[j]) &&
      (nodes != [] ==> nodes[0].prev == null && nodes[|nodes| - 1].next == null) &&
      (forall i {:trigger nodes[i].prev} :: 0 < i < |nodes| ==> nodes[i].prev == nodes[i - 1]) &&
      (forall i {:trigger nodes[i].next} :: 0 <= i < |nodes| - 1 ==> nodes[i].next == nodes[i + 1])
    }

    ghost function Contents(): (s: seq<T>)
      requires Valid()
      reads this, repr
      ensures |s| == |nodes| && forall i :: 0 <= i < |s| ==> s[i] == nodes[i].value
    {
      seq(|nodes|, i requires 0 <= i < |nodes| && nodes[i] in repr reads this, repr => nodes[i].value)
    }

    constructor (items: seq<T>)
      ensures Valid() && Contents() == items && fresh(repr)
    {
      head, tail, nodes, repr := null, null, [], {};
      new;
      for i := 0 to |items|
        invariant Valid() && Contents() == items[..i] && fresh(repr)
      {
        PushBack(items[i]);
      }
    }

    method IsEmpty() returns (r: bool)
      requires Valid()
      ensures r <==> Contents() == []
    {
      return head == null;
    }

    method PushFront(t: T)
      requires Valid()
      modifies this, repr
      ensures Valid() && Contents() == [t] + old(Contents())
      ensures fresh(repr - old(repr))
    {
      var node := new Node(t);
      if head == null {
        head, tail := node, node;
      } else {
        node.next := head;
        head.prev := node;
        head := node;
      }
      nodes, repr := [node] + nodes, repr + {node};
    }

    method PushBack(t: T)
      requires Valid()
      modifies this, repr
      ensures Valid() && Contents() == old(Contents()) + [t]
      ensures fresh(repr - old(repr))
    {
      var node := new Node(t);
      if head == null {
        head, tail := node, node;
      } else {
        node.prev := tail;
        tail.next := node;
        tail := node;
      }
      nodes, repr := nodes + [node], repr + {node};
    }

    method PopFront() returns (r: Option<T>)
      requires Valid()
      modifies this, repr
      ensures Valid()
      ensures old(Contents()) == [] ==> r == None && Contents() == []
      ensures old(Contents()) != [] ==> r == Some(old(Contents())[0]) && Contents() == old(Contents())[1..]
      ensures repr == old(repr)
    {
      var empty := IsEmpty();
      if empty {
        return None;
      }
      r := Some(head.value);
      assert nodes[0].next == (if |nodes| == 1 then null else nodes[1]);
      if head.next == null {
        head, tail := null, null;
      } else {
        head := head.next;
        head.prev := null;
      }
      nodes := nodes[1..];
    }

    method PopBack() returns (r: Option<T>)
      requires Valid()
      modifies this, repr
      ensures Valid()
      ensures old(Contents()) == [] ==> r == None && Contents() == []
      ensures old(Contents()) != [] ==>
                r == Some(old(Contents())[|old(Contents())| - 1]) &&
                Contents() == old(Contents())[..|old(Contents())| - 1]
      ensures repr == old(repr)
    {
      var empty := IsEmpty();
      if empty {
        return None;
      }
      r := Some(tail.value);
      assert nodes[|nodes| - 1].prev == (if |nodes| == 1 then null else nodes[|nodes| - 2]);
      if tail.prev == null {
        head, tail := null, null;
      } else {
        tail := tail.prev;
        tail.next := null;
      }
      nodes := nodes[..|nodes| - 1];
    }

    method PeekFront() returns (r: Option<T>)
      requires Valid()
      ensures r == if Contents() == [] then None else Some(Contents()[0])
    {
      if head == null {
        return None;
      }
      return Some(head.value);
    }

    method PeekBack() returns (r: Option<T>)
      requires Valid()
      ensures r == if Contents() == [] then None else Some(Contents()[|Contents()| - 1])
    {
      if head == null {
        return None;
      }
      return Some(tail.value);
    }
  }

  // ---- whole histories

  datatype Op<T> = PushFront(t: T) | PushBack(t: T) | PopFront | PopBack | PeekFront | PeekBack

  function First<T>(s: seq<T>): Option<T> {
    if s == [] then None else Some(s[0])
  }

  function Last<T>(s: seq<T>): Option<T> {
    if s == [] then None else Some(s[|s| - 1])
  }

  /** The operations on a mathematical sequence: the new sequence and the value handed back. */
  function Act<T>(s: seq<T>, op: Op<T>): (seq<T>, Option<T>) {
    match op
    case PushFront(t) => ([t] + s, None)
    case PushBack(t) => (s + [t], None)
    case PopFront => (if s == [] then s else s[1..], First(s))
    case PopBack => (if s == [] then s else s[..|s| - 1], Last(s))
    case PeekFront => (s, First(s))
    case PeekBack => (s, Last(s))
  }

  function Run<T>(s: seq<T>, ops: seq<Op<T>>): (seq<T>, seq<Option<T>>) {
    if ops == [] then (s, [])
    else
      var (t, out) := Run(s, ops[..|ops| - 1]);
      var (u, r) := Act(t, ops[|ops| - 1]);
      (u, out + [r])
  }

  method Perform<T>(q: Queue<T>, op: Op<T>) returns (r: Option<T>)
    requires q.Valid()
    modifies q, q.repr
    ensures q.Valid() && (q.Contents(), r) == Act(old(q.Contents()), op)
    ensures fresh(q.repr - old(q.repr))
  {
    r := None;
    match op {
      case PushFront(t) => q.PushFront(t);
      case PushBack(t) => q.PushBack(t);
      case PopFront => r := q.PopFront();
      case PopBack => r := q.PopBack();
      case PeekFront => r := q.PeekFront();
      case PeekBack => r := q.PeekBack();
    }
  }

  /** Any history of operations on the linked structure gives what the same history on a sequence gives. */
  method Replay<T>(q: Queue<T>, ops: seq<Op<T>>) returns (out: seq<Option<T>>)
    requires q.Valid()
    modifies q, q.repr
    ensures q.Valid() && (q.Contents(), out) == Run(old(q.Contents()), ops)
  {
    out := [];
    for i := 0 to |ops|
      invariant q.Valid() && (q.Contents(), out) == Run(old(q.Contents()), ops[..i])
      invariant fresh(q.repr - old(q.repr))
    {
      assert ops[..i + 1][..i] == ops[..i];
      var r := Perform(q, ops[i]);
      out := out + [r];
    }
    assert ops[..|ops|] == ops;
  }
}
