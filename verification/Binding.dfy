/** From the search to the pod that its binding leaves. */
module Binding {
  import opened Options
  import opened Accounting
  import opened BestFit
  import opened Cluster
  import opened PendingProtocol

  /**
   When the search of a possible call finds a node for the pod that a worker handles, and the patch
   succeeds, the step taken writes just the node and GPUID found into that pod.
   */
  lemma FoundIsBound(nodes: Nodes, ps: seq<Accounting.Pod>, call: Call, s: State, key: string, pod: Accounting.Pod)
    requires InitialRows(nodes) && Schedules(nodes, ps, pod, call)
    requires key in s.workers && s.workers[key] == Read(Some(pod))
    requires key in s.pods && s.pods[key] == pod && Waiting(pod)
    ensures var best := call.end.best;
            var o := SyncHandler(Found(pod), true, best.node, best.gpuid, true);
            var step := StepFor(key, o);
            && step.Bind? && Enabled(s, step)
            && PendingProtocol.Next(s, step).pods == s.pods[key := Place(pod, best)]
            && !Waiting(PendingProtocol.Next(s, step).pods[key])
  {
    FoundIsBest(nodes, ps, pod, call);
    SyncHandlerOutcomes(Found(pod), true, call.end.best.node, call.end.best.gpuid, true);
  }
}
