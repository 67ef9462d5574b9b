/** The bounded task queue of src/db_sync.c:38-122, a singly linked list with head, tail
    and count, and the worker loop that empties it after shutdown.  Each method is one
    region that the source runs under the queue lock. */
module TaskQueue {
  import opened TaskText

  const QUEUE_MAX_SIZE := 10000

  /** The queue after a push: a full queue first gives up its oldest entry. */
  function AfterPush<T>(queue: seq<T>, t: T): seq<T> {
    (if |queue| >= QUEUE_MAX_SIZE then queue[1..] else queue) + [t]
  }

  class Node {
    const task: Packed
    var next: Node?

    constructor (task: Packed)
      ensures this.task == task && next == null
    {
      this.task, next := task, null;
    }
  }

  /** Tasks carried by a chain of nodes. */
  ghost function Tasks(nodes: seq<Node>): (r: seq<Packed>)
    ensures |r| == |nodes|
  {
    seq(|nodes|, i requires 0 <= i < |nodes| => nodes[i].task)
  }

  class Queue {
    var head: Node?
    var tail: Node?
    var count: int
    var shutdown: bool

    ghost var nodes: seq<Node>       // the list, from head to tail
    ghost var pushed: seq<Packed>    // every task ever accepted, in order
    ghost var removed: seq<Packed>   // every task dropped or popped, in order

    /** The links spell out `nodes` and nothing else, without sharing and hence
        without a cycle, and history splits into what left and what is here. */
    ghost predicate Valid()
      reads this, nodes
    {
      && count == |nodes| <= QUEUE_MAX_SIZE
      && (nodes == [] ==> head == null && tail == null)
      && (nodes != [] ==> head == nodes[0] && tail == nodes[|nodes| - 1] && tail.next == null)
      && (forall i :: 0 <= i < |nodes| - 1 ==> nodes[i].next == nodes[i + 1])
      && (forall i, j :: 0 <= i < j < |nodes| ==> nodes[i] != nodes[j])
      && pushed == removed + Contents()
    }

    ghost function Contents(): seq<Packed>
      reads this
    {
      Tasks(nodes)
    }

    constructor ()
      ensures Valid() && Contents() == [] && pushed == [] && removed == [] && !shutdown
    {
      head, tail, count, shutdown := null, null, 0, false;
      nodes, pushed, removed := [], [], [];
    }

    /** A full queue first gives up its oldest task; the new one is always accepted. */
    method Push(task: Node)
      requires Valid() && task !in nodes
      modifies this, task, nodes
      ensures Valid() && shutdown == old(shutdown)
      ensures pushed == old(pushed) + [task.task]
      ensures Contents() == AfterPush(old(Contents()), task.task)
      ensures removed == old(removed) + if old(|nodes|) == QUEUE_MAX_SIZE then [old(Contents())[0]] else []
      ensures nodes == (if old(|nodes|) < QUEUE_MAX_SIZE then old(nodes) else old(nodes)[1..]) + [task]
    {
      if count >= QUEUE_MAX_SIZE {
        var dropped := Unlink();
      }
      task.next := null;
      if tail == null {
        head, tail := task, task;
      } else {
        tail.next := task;
        tail := task;
      }
      count := count + 1;
      ghost var before := Contents();
      nodes, pushed := nodes + [task], pushed + [task.task];
      assert Contents() == before + [task.task];
    }

    /** Takes the head off the list. */
    method Unlink() returns (task: Node)
      requires Valid() && nodes != []
      modifies this
      ensures Valid() && shutdown == old(shutdown) && pushed == old(pushed)
      ensures task == old(nodes)[0] && nodes == old(nodes)[1..]
      ensures Contents() == old(Contents())[1..] && removed == old(removed) + [task.task]
    {
      task := head;
      head := head.next;
      if head == null {
        tail := null;
      }
      count := count - 1;
      assert Contents() == [task.task] + Tasks(nodes[1..]);
      nodes, removed := nodes[1..], removed + [task.task];
    }

    /** Runs once the wait of queue_pop is over: there is a task, or shutdown is set. */
    method Pop() returns (task: Node?)
      requires Valid() && (head != null || shutdown)
      modifies this
      ensures Valid() && shutdown == old(shutdown) && pushed == old(pushed)
      ensures task == null <==> old(Contents()) == []
      ensures task == null ==> Contents() == [] && removed == old(removed)
      ensures task != null ==>
                && task == old(nodes)[0] && task.task == old(Contents())[0]
                && Contents() == old(Contents())[1..] && nodes == old(nodes)[1..]
                && removed == old(removed) + [task.task]
    {
      if shutdown && head == null {
        return null;
      }
      task := Unlink();
    }

    /** db_sync_worker from the moment shutdown is set and nobody pushes any more: it
        stops, on an empty queue, having handled every queued task once and in order.
        A SHUTDOWN task is handled like any other and ends nothing early. */
    method DrainAfterShutdown() returns (handled: seq<Packed>)
      requires Valid() && shutdown
      modifies this
      ensures Valid() && Contents() == [] && pushed == old(pushed)
      ensures handled == old(Contents()) && removed == old(removed) + handled
    {
      handled := [];
      ghost var queued, gone := Contents(), removed;
      while true
        invariant Valid() && shutdown && pushed == old(pushed)
        invariant |handled| <= |queued| && handled == queued[..|handled|] && Contents() == queued[|handled|..]
        invariant removed == gone + handled
        decreases |nodes|
      {
        var task := Pop();
        if task == null {
          break;
        }
        handled := handled + [task.task];
      }
    }

    /** queue_destroy: walks the list and forgets every node. */
    method Destroy() returns (freed: seq<Node>)
      requires Valid()
      modifies this
      ensures freed == old(nodes) && Valid() && Contents() == []
    {
      var node := head;
      freed := [];
      while node != null
        invariant |freed| <= |nodes| && freed == nodes[..|freed|]
        invariant node == (if |freed| < |nodes| then nodes[|freed|] else null)
        decreases |nodes| - |freed|
      {
        var next := node.next;
        freed := freed + [node];
        node := next;
      }
      removed := removed + Contents();
      head, tail, count, nodes := null, null, 0, [];
    }
  }
}
