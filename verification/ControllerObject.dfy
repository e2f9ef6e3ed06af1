/** pkg/scheduler/controller.go: the mutable work queue and pending list. */
module ControllerObject {
  import opened WorkQueue
  import opened PendingProtocol

  class Controller {
    var workqueue: Queue
    var pendingList: seq<string>

    constructor ()
      ensures workqueue == EMPTY && pendingList == []
    {
      workqueue, pendingList := EMPTY, [];
    }

    /** Push the pending keys back into the work queue, then empty the list. */
    method ResourceChanged()
      modifies this
      ensures pendingList == [] && workqueue == AddAll(old(workqueue), old(pendingList))
    {
      for p := 0 to |pendingList|
        invariant pendingList == old(pendingList)
        invariant workqueue == AddAll(old(workqueue), pendingList[..p])
      {
        assert pendingList[..p + 1][..p] == pendingList[..p];
        workqueue := Add(workqueue, pendingList[p]);
      }
      assert pendingList[..|pendingList|] == pendingList;
      pendingList := [];
    }

    /** One turn of a worker that nothing interrupts; the handler's outcome is given. */
    method ProcessNextWorkItem(outcome: Outcome) returns (key: string)
      requires Consistent(workqueue) && workqueue.items != []
      modifies this
      ensures key == old(workqueue).items[0] && Consistent(workqueue)
      ensures pendingList == if outcome.Pended? then old(pendingList) + [key] else old(pendingList)
      ensures key in workqueue.delayed <==> outcome.Errored? || key in old(workqueue).delayed
      ensures key !in workqueue.dirty && key !in workqueue.processing
      ensures workqueue.dirty == old(workqueue).dirty - {key} && workqueue.items == old(workqueue).items[1..]
    {
      GetConsistent(workqueue);
      key := workqueue.items[0];
      workqueue := Get(workqueue);
      if outcome.Pended? {
        pendingList := pendingList + [key];
      }
      if outcome.Errored? {
        workqueue := AddRateLimited(workqueue, key);
      }
      DoneConsistent(workqueue, key);
      workqueue := Done(workqueue, key);
    }
  }
}
