/** The worker's queue as the source keeps it: a singly linked list with head and tail, changed only
    inside the critical section.  `Contents` is the `queue` of module Worker, and the two methods are
    the critical sections of its Push and Take actions. */
module WorkerQueue {

  class Node {
    const job: nat
    var next: Node?

    constructor (j: nat)
      ensures job == j && next == null
    {
      job, next := j, null;
    }
  }

  /** What the worker decides at the head of its loop. */
  datatype Decision = Execute(job: nat) | Exit | Sleep

  class JobQueue {
    var head: Node?
    var tail: Node?
    var stopping: bool
    ghost var nodes: seq<Node>

    ghost predicate Valid()
      reads this, nodes
    {
      && head == (if nodes == [] then null else nodes[0])
      && tail == (if nodes == [] then null else nodes[|nodes| - 1])
      && (forall i {:trigger nodes[i].next} :: 0 <= i < |nodes| - 1 ==> nodes[i].next == nodes[i + 1])
      && (nodes != [] ==> nodes[|nodes| - 1].next == null)
      && (forall i, j :: 0 <= i < j < |nodes| ==> nodes[i] != nodes[j])
    }

    ghost function Contents(): seq<nat>
      reads this
    {
      seq(|nodes|, i requires 0 <= i < |nodes| reads this => nodes[i].job)
    }

    constructor ()
      ensures Valid() && Contents() == [] && !stopping && nodes == []
    {
      head, tail, stopping, nodes := null, null, false, [];
    }

    method Push(job: nat)
      requires Valid()
      modifies this, nodes
      ensures Valid() && Contents() == old(Contents()) + [job] && stopping == old(stopping)
      ensures fresh(set n | n in nodes && n !in old(nodes))
    {
      var j := new Node(job);
      if tail != null {
        tail.next := j;
      } else {
        head := j;
      }
      tail := j;
      nodes := nodes + [j];
    }

    method TakeNext() returns (d: Decision)
      requires Valid()
      modifies this
      ensures Valid() && stopping == old(stopping)
      ensures d == (if old(Contents()) != [] then Execute(old(Contents())[0])
                    else if old(stopping) then Exit else Sleep)
      ensures Contents() == (if old(Contents()) != [] then old(Contents())[1..] else [])
    {
      if head != null {
        d := Execute(head.job);
        assert |nodes| > 1 ==> nodes[0].next == nodes[1];
        head := head.next;
        nodes := nodes[1..];
        if head == null { tail := null; }
      } else if stopping {
        d := Exit;
      } else {
        d := Sleep;
      }
    }
  }
}
