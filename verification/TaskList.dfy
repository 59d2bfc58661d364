/** The pool's shared data as the program keeps it: a singly linked list of
    tasks reached from `task_queue` and the `stop` flag. The methods are the
    bodies of the critical sections; each is proved to do to the list what the
    step functions of `PoolModel` do to a sequence. */
module TaskList {
  import opened PoolModel

  class Node {
    const task: Task
    var next: Node?

    constructor (task: Task)
      ensures this.task == task && next == null
    {
      this.task := task;
      next := null;
    }
  }

  class Tpool {
    var taskQueue: Node?
    var stop: bool

    /** The list's nodes in order. */
    ghost var nodes: seq<Node>

    /** `nodes` is the whole chain from `taskQueue`, without a repetition. */
    ghost predicate Valid()
      reads this, nodes
    {
      && (nodes == [] <==> taskQueue == null)
      && (nodes != [] ==> nodes[0] == taskQueue && nodes[|nodes| - 1].next == null)
      && (forall k {:trigger nodes[k].next} :: 0 <= k < |nodes| - 1 ==> nodes[k].next == nodes[k + 1])
      && (forall j, k :: 0 <= j < k < |nodes| ==> nodes[j] != nodes[k])
    }

    ghost function Contents(): (r: seq<Task>)
      reads this
      ensures |r| == |nodes| && forall k :: 0 <= k < |r| ==> r[k] == nodes[k].task
    {
      seq(|nodes|, k requires 0 <= k < |nodes| reads this => nodes[k].task)
    }

    constructor ()
      ensures Valid() && Contents() == [] && !stop && fresh(nodes)
    {
      taskQueue, stop, nodes := null, false, [];
    }

    /** `tpool_add`, with the mutex held. */
    method Add(task: Task) returns (broadcast: bool)
      requires Valid()
      modifies this, nodes
      ensures Valid() && fresh(set n | n in nodes && n !in old(nodes)) && stop == old(stop)
      ensures (Contents(), broadcast) == AddSection(old(Contents()), task)
      ensures Contents() == old(Contents()) + [task] && (broadcast <==> old(Contents()) == [])
    {
      var newTask := new Node(task);
      if taskQueue == null {
        taskQueue := newTask;
        broadcast := true;
      } else {
        var curr := taskQueue;
        ghost var k := 0;
        while curr.next != null
          invariant 0 <= k < |nodes| && curr == nodes[k]
          decreases |nodes| - k
        {
          curr := curr.next;
          k := k + 1;
        }
        curr.next := newTask;
        broadcast := false;
      }
      nodes := nodes + [newTask];
      assert Contents() == old(Contents()) + [task];
    }

    /** The top of the worker's loop, with the mutex held: what `WorkerSection`
        decides, and the head unlinked when a task is taken. */
    method WorkerTurn() returns (d: Decision)
      requires Valid()
      modifies this
      ensures Valid() && stop == old(stop) && (forall n :: n in nodes ==> n in old(nodes))
      ensures (d, Contents()) == WorkerSection(old(Contents()), stop)
    {
      if taskQueue == null && !stop {
        d := Sleep;
      } else if stop {
        d := Leave;
      } else {
        var task := taskQueue;
        assert |nodes| > 1 ==> nodes[0].next == nodes[1];
        taskQueue := task.next;
        nodes := nodes[1..];
        d := Take(task.task);
        assert Contents() == old(Contents())[1..];
      }
    }

    /** The tests of lines 41 and 50, with the mutex held. */
    method IsEmpty() returns (empty: bool)
      requires Valid()
      ensures empty <==> Contents() == []
    {
      empty := taskQueue == null;
    }
  }
}
