/**
 pkg/scheduler/controller.go: workers, the pending list and resourceChanged as one transition
 system. Each step is a call on the work queue, a critical section of pendingListMux, or one
 iteration of the loop in resourceChanged, so any interleaving of these is a run.
 */
module PendingProtocol {
  import opened Options
  import opened WorkQueue
  import opened Accounting

  /** How far syncHandler is with a key: just called, past its lister read, or returned. */
  datatype Phase = Called | Read(seen: Option<Pod>) | Returned

  datatype State = State(
    pods: map<string, Pod>,          // the lister's cache
    notices: set<string>,            // Add events not yet delivered to enqueuenPod
    queue: Queue,
    workers: map<string, Phase>,     // one entry per key in processing
    pending: seq<string>,
    drained: Option<nat>)            // resourceChanged holds the lock, this many keys added

  /** syncHandler reaches the search for this pod. */
  predicate Waiting(p: Pod) {
    AsksShare(p) && p.node == "" && p.gpuid == ""
  }

  datatype Step =
    | PodAdded(key: string, pod: Pod)
    | PodUpdated(key: string, pod: Pod)
    | PodDeleted(key: string)
    | Notify(key: string)
    | Take
    | Lookup(key: string)
    | Drop(key: string)
    | Fail(key: string)
    | Pend(key: string)
    | Bind(key: string, node: string, gpuid: string)
    | Finish(key: string)
    | Elapsed(key: string)
    | DrainBegin
    | DrainOne
    | DrainEnd

  /** The key is in the handler, past the read, and what it saw passes all its checks. */
  predicate Searching(s: State, key: string) {
    key in s.workers && s.workers[key].Read? && s.workers[key].seen.Some? && Waiting(s.workers[key].seen.value)
  }

  ghost predicate Enabled(s: State, step: Step) {
    match step
    case PodAdded(key, pod) => key !in s.pods
    // no handler watches updates
    case PodUpdated(key, pod) => key in s.pods
    case PodDeleted(key) => key in s.pods
    case Notify(key) => key in s.notices
    case Take => s.queue.items != []
    case Lookup(key) => key in s.workers && s.workers[key] == Called
    // syncHandler returns nil: no such pod, or one of its checks fails
    case Drop(key) => key in s.workers && s.workers[key].Read? && !Searching(s, key)
    // syncHandler returns an error: a lister, the patch
    case Fail(key) => key in s.workers && (s.workers[key] == Called || Searching(s, key))
    case Pend(key) => Searching(s, key) && s.drained.None?
    case Bind(key, node, _) => Searching(s, key) && node != ""
    case Finish(key) => key in s.workers && s.workers[key] == Returned
    case Elapsed(key) => key in s.queue.delayed
    case DrainBegin => s.drained.None?
    case DrainOne => s.drained.Some? && s.drained.value < |s.pending|
    case DrainEnd => s.drained.Some? && s.drained.value == |s.pending|
  }

  function Next(s: State, step: Step): State
    requires step.Take? ==> s.queue.items != []
    requires step.Lookup? || step.Drop? || step.Fail? || step.Pend? || step.Bind? ==> step.key in s.workers
    requires step.DrainOne? ==> s.drained.Some? && s.drained.value < |s.pending|
  {
    match step
    case PodAdded(key, pod) => s.(pods := s.pods[key := pod], notices := s.notices + {key})
    case PodUpdated(key, pod) => s.(pods := s.pods[key := pod])
    case PodDeleted(key) => s.(pods := s.pods - {key})
    case Notify(key) => s.(notices := s.notices - {key}, queue := Add(s.queue, key))
    case Take => s.(queue := Get(s.queue), workers := s.workers[s.queue.items[0] := Called])
    case Lookup(key) => s.(workers := s.workers[key := Read(if key in s.pods then Some(s.pods[key]) else None)])
    case Drop(key) => s.(workers := s.workers[key := Returned])
    case Fail(key) => s.(workers := s.workers[key := Returned], queue := AddRateLimited(s.queue, key))
    case Pend(key) => s.(workers := s.workers[key := Returned], pending := s.pending + [key])
    case Bind(key, node, gpuid) =>
      var pods := if key in s.pods then s.pods[key := s.pods[key].(node := node, gpuid := gpuid)] else s.pods;
      s.(workers := s.workers[key := Returned], pods := pods)
    case Finish(key) => s.(workers := s.workers - {key}, queue := Done(s.queue, key))
    case Elapsed(key) => s.(queue := Elapse(s.queue, key))
    case DrainBegin => s.(drained := Some(0))
    case DrainOne => s.(queue := Add(s.queue, s.pending[s.drained.value]), drained := Some(s.drained.value + 1))
    case DrainEnd => s.(pending := [], drained := None)
  }

  /** The pending keys that resourceChanged has not yet put back. */
  function Undrained(s: State): seq<string> {
    if s.drained.Some? && s.drained.value <= |s.pending| then s.pending[s.drained.value..] else s.pending
  }

  /** The key will be handled (again): announced, queued, delayed, being handled, or pending. */
  ghost predicate Covered(s: State, key: string) {
    || key in s.notices
    || key in s.queue.dirty
    || key in s.queue.delayed
    || (key in s.workers && (s.workers[key] == Called || Searching(s, key)))
    || key in Undrained(s)
  }

  ghost predicate Sound(s: State) {
    && Consistent(s.queue)
    && s.workers.Keys == s.queue.processing
    && (s.drained.Some? ==> s.drained.value <= |s.pending|)
  }

  /** Every pod that waits for a node will be handled. */
  ghost predicate NoneLost(s: State) {
    forall key :: key in s.pods && Waiting(s.pods[key]) ==> Covered(s, key)
  }

  const START := State(map[], {}, EMPTY, map[], [], None)

  lemma StepSound(s: State, step: Step)
    requires Sound(s) && Enabled(s, step)
    ensures Sound(Next(s, step))
  {
    match step
    case Notify(key) => AddConsistent(s.queue, key);
    case Take => GetConsistent(s.queue);
    case Finish(key) => DoneConsistent(s.queue, key);
    case Elapsed(key) => AddConsistent(s.queue.(delayed := s.queue.delayed - {key}), key);
    case DrainOne => AddConsistent(s.queue, s.pending[s.drained.value]);
    case _ =>
  }

  /** Who may change what: of the handlers only a binding touches a pod, and keys leave the list only all together. */
  lemma StepFrame(s: State, step: Step)
    requires Enabled(s, step)
    ensures var s' := Next(s, step);
            && (s'.pods == s.pods || step.PodAdded? || step.PodUpdated? || step.PodDeleted? || step.Bind?)
            && (forall key :: key in s.pods && s'.pods != s.pods && key != step.key ==>
                  key in s'.pods && s'.pods[key] == s.pods[key])
            && (s'.notices == s.notices || step.PodAdded? || step.Notify?)
            && (s'.queue == s.queue || step.Notify? || step.Take? || step.Fail? || step.Finish? || step.Elapsed?
                || step.DrainOne?)
            && s'.pending == (if step.Pend? then s.pending + [step.key] else if step.DrainEnd? then [] else s.pending)
            && (s'.drained == s.drained || step.DrainBegin? || step.DrainOne? || step.DrainEnd?)
            && (s'.workers == s.workers || step.Take? || step.Lookup? || step.Drop? || step.Fail? || step.Pend?
                || step.Bind? || step.Finish?)
  {
  }

  /** A step may move a waiting key from one place to another, but never out of all of them. */
  lemma StaysCovered(s: State, step: Step, key: string)
    requires Sound(s) && Enabled(s, step) && Covered(s, key)
    requires key in Next(s, step).pods && Waiting(Next(s, step).pods[key])
    ensures Covered(Next(s, step), key)
  {
    var s' := Next(s, step);
    if step.DrainOne? {
      assert s.pending[s.drained.value..] == [s.pending[s.drained.value]] + s.pending[s.drained.value + 1..];
    }
    if step.Lookup? && step.key == key {
      assert Searching(s', key);
    }
  }

  /** An update makes a pod wait whose key is covered nowhere. */
  ghost predicate Forgets(s: State, step: Step) {
    step.PodUpdated? && Waiting(step.pod) && !Covered(s, step.key)
  }

  lemma StepKeepsExactly(s: State, step: Step)
    requires Sound(s) && NoneLost(s) && Enabled(s, step)
    ensures NoneLost(Next(s, step)) <==> !Forgets(s, step)
  {
    var s' := Next(s, step);
    if Forgets(s, step) {
      assert step.key in s'.pods && s'.pods[step.key] == step.pod && !Covered(s', step.key);
    } else {
      forall key | key in s'.pods && Waiting(s'.pods[key]) ensures Covered(s', key) {
        if step.PodAdded? && step.key == key {
          assert key in s'.notices;
        } else {
          StaysCovered(s, step, key);
        }
      }
    }
  }

  // ----- Runs

  ghost predicate CanRun(s: State, steps: seq<Step>)
    decreases |steps|
  {
    steps == [] || (Enabled(s, steps[0]) && CanRun(Next(s, steps[0]), steps[1..]))
  }

  function After(s: State, steps: seq<Step>): State
    requires CanRun(s, steps)
    decreases |steps|
  {
    if steps == [] then s else After(Next(s, steps[0]), steps[1..])
  }

  ghost predicate Run(s: State, steps: seq<Step>, s': State) {
    CanRun(s, steps) && After(s, steps) == s'
  }

  /** In every state of the run each waiting pod's key is covered. */
  ghost predicate NoneLostThroughout(s: State, steps: seq<Step>)
    requires CanRun(s, steps)
    decreases |steps|
  {
    NoneLost(s) && (steps == [] || NoneLostThroughout(Next(s, steps[0]), steps[1..]))
  }

  ghost predicate NeverForgets(s: State, steps: seq<Step>)
    requires CanRun(s, steps)
    decreases |steps|
  {
    steps == [] || (!Forgets(s, steps[0]) && NeverForgets(Next(s, steps[0]), steps[1..]))
  }

  /** No waiting work is lost in any state of an interleaving exactly when no update of it forgets a pod. */
  lemma {:induction false} NothingIsLost(s: State, steps: seq<Step>)
    requires Sound(s) && NoneLost(s) && CanRun(s, steps)
    ensures Sound(After(s, steps)) && (NoneLostThroughout(s, steps) <==> NeverForgets(s, steps))
    decreases |steps|
  {
    if steps != [] {
      var next := Next(s, steps[0]);
      StepSound(s, steps[0]);
      StepKeepsExactly(s, steps[0]);
      if NoneLost(next) {
        NothingIsLost(next, steps[1..]);
      } else {
        RunSound(next, steps[1..]);
      }
    }
  }

  lemma {:induction false} RunSound(s: State, steps: seq<Step>)
    requires Sound(s) && CanRun(s, steps)
    ensures Sound(After(s, steps))
    decreases |steps|
  {
    if steps != [] {
      StepSound(s, steps[0]);
      RunSound(Next(s, steps[0]), steps[1..]);
    }
  }

  /** Updates that make no pod wait, such as those of pods that have a node, forget nothing. */
  ghost predicate NoneBeginsToWait(s: State, steps: seq<Step>)
    requires CanRun(s, steps)
    decreases |steps|
  {
    steps == [] ||
    (&& (steps[0].PodUpdated? && Waiting(steps[0].pod) ==> Waiting(s.pods[steps[0].key]))
     && NoneBeginsToWait(Next(s, steps[0]), steps[1..]))
  }

  lemma {:induction false} NoneBeginsForgets(s: State, steps: seq<Step>)
    requires Sound(s) && NoneLost(s) && CanRun(s, steps) && NoneBeginsToWait(s, steps)
    ensures NeverForgets(s, steps)
    decreases |steps|
  {
    if steps != [] {
      StepSound(s, steps[0]);
      StepKeepsExactly(s, steps[0]);
      NoneBeginsForgets(Next(s, steps[0]), steps[1..]);
    }
  }

  /** From an empty cluster no waiting work is ever lost while no update makes a pod wait. */
  lemma NothingIsLostFromStart(steps: seq<Step>)
    requires CanRun(START, steps) && NoneBeginsToWait(START, steps)
    ensures NoneLostThroughout(START, steps)
  {
    NoneBeginsForgets(START, steps);
    NothingIsLost(START, steps);
  }

  // ----- A pod that is forgotten

  lemma RunFirst(s: State, step: Step, next: State, rest: seq<Step>, s': State)
    requires Enabled(s, step) && next == Next(s, step) && Run(next, rest, s')
    ensures Run(s, [step] + rest, s')
  {
    assert ([step] + rest)[1..] == rest;
  }

  function Handled(key: string): seq<Step> {
    [Lookup(key)] + ([Drop(key)] + ([Finish(key)] + []))
  }

  /** A pod is added, announced, taken by a worker, looked up and dropped. */
  function HandledAndDropped(key: string, plain: Pod): seq<Step> {
    [PodAdded(key, plain)] + ([Notify(key)] + ([Take] + Handled(key)))
  }

  lemma HandledRuns(key: string, plain: Pod, end: State, taken: State)
    requires !Waiting(plain) && end == START.(pods := map[key := plain])
    requires taken == end.(queue := Queue([], {}, {key}, {}), workers := map[key := Called])
    ensures Run(taken, Handled(key), end)
  {
    var read := taken.(workers := map[key := Read(Some(plain))]);
    var returned := taken.(workers := map[key := Returned]);
    RunFirst(returned, Finish(key), end, [], end);
    RunFirst(read, Drop(key), returned, [Finish(key)] + [], end);
    RunFirst(taken, Lookup(key), read, [Drop(key)] + ([Finish(key)] + []), end);
  }

  lemma DroppedRuns(key: string, plain: Pod)
    requires !Waiting(plain)
    ensures Run(START, HandledAndDropped(key, plain), START.(pods := map[key := plain]))
  {
    var end := START.(pods := map[key := plain]);
    var added := end.(notices := {key});
    var queued := end.(queue := Queue([key], {key}, {}, {}));
    var taken := end.(queue := Queue([], {}, {key}, {}), workers := map[key := Called]);
    HandledRuns(key, plain, end, taken);
    RunFirst(queued, Take, taken, Handled(key), end);
    RunFirst(added, Notify(key), queued, [Take] + Handled(key), end);
    RunFirst(START, PodAdded(key, plain), added, [Notify(key)] + ([Take] + Handled(key)), end);
  }

  /** A pod that gets its annotation only after it was dropped is forgotten, in a run from the empty cluster. */
  lemma LateAnnotationIsForgotten(key: string, plain: Pod, pod: Pod)
    requires !Waiting(plain) && Waiting(pod)
    ensures Run(START, HandledAndDropped(key, plain), START.(pods := map[key := plain]))
    ensures var s := START.(pods := map[key := plain]);
            && Sound(s) && NoneLost(s) && Enabled(s, PodUpdated(key, pod)) && Forgets(s, PodUpdated(key, pod))
            && !NoneLost(Next(s, PodUpdated(key, pod)))
  {
    DroppedRuns(key, plain);
    StepKeepsExactly(START.(pods := map[key := plain]), PodUpdated(key, pod));
  }

  /** Whatever else happens, nobody handles a forgotten pod again until it is changed or deleted. */
  lemma ForgottenStaysForgotten(s: State, step: Step, key: string)
    requires Sound(s) && Enabled(s, step) && key in s.pods && Waiting(s.pods[key]) && !Covered(s, key)
    requires (step.PodUpdated? || step.PodDeleted?) ==> step.key != key
    ensures var s' := Next(s, step); key in s'.pods && s'.pods[key] == s.pods[key] && !Covered(s', key)
  {
  }

  // ----- What covers a key in the end

  /** With nothing announced, queued, delayed or in a worker's hands, the waiting keys are the pending ones. */
  lemma QuietMeansPending(s: State, key: string)
    requires Sound(s) && NoneLost(s) && s.drained.None?
    requires s.notices == {} && s.queue.items == [] && s.queue.delayed == {} && s.workers == map[]
    requires key in s.pods && Waiting(s.pods[key])
    ensures key in s.pending
  {
    assert key in s.queue.dirty ==> key in s.queue.items;
  }

  function DrainFrom(n: nat, k: nat): seq<Step>
    requires k <= n
    decreases n - k
  {
    if k == n then [DrainEnd] else [DrainOne] + DrainFrom(n, k + 1)
  }

  lemma {:induction false} DrainRuns(s: State, k: nat)
    requires s.drained == Some(k) && k <= |s.pending|
    ensures Run(s, DrainFrom(|s.pending|, k),
                s.(queue := AddAll(s.queue, s.pending[k..]), pending := [], drained := None))
    decreases |s.pending| - k
  {
    if k < |s.pending| {
      var next := Next(s, DrainOne);
      AddFirst(s.queue, s.pending[k..]);
      assert s.pending[k..][1..] == s.pending[k + 1..];
      DrainRuns(next, k + 1);
    }
  }

  lemma {:induction false} AddFirst(q: Queue, keys: seq<string>)
    requires keys != []
    ensures AddAll(q, keys) == AddAll(Add(q, keys[0]), keys[1..])
    decreases |keys|
  {
    if |keys| == 1 {
      assert keys[..0] == [];
    } else {
      AddFirst(q, keys[..|keys| - 1]);
      assert keys[..|keys| - 1][1..] == keys[1..][..|keys| - 2];
    }
  }

  /** resourceChanged, run without interruption, empties the list and queues every key that was on it. */
  lemma ResourceChangedRequeues(s: State) returns (s': State)
    requires Sound(s) && s.drained.None?
    ensures Run(s, [DrainBegin] + DrainFrom(|s.pending|, 0), s')
    ensures s' == s.(queue := AddAll(s.queue, s.pending), pending := [])
    ensures Sound(s') && forall key :: key in s.pending ==> key in s'.queue.items || key in s'.workers
  {
    var begun := Next(s, DrainBegin);
    assert s.pending[0..] == s.pending;
    DrainRuns(begun, 0);
    s' := s.(queue := AddAll(s.queue, s.pending), pending := []);
    assert ([DrainBegin] + DrainFrom(|s.pending|, 0))[1..] == DrainFrom(|s.pending|, 0);
    AddAllConsistent(s.queue, s.pending);
  }

  // ----- syncHandler's branches

  datatype Lookup = Found(pod: Pod) | NotFound | Unavailable

  datatype Outcome = Dropped | Errored | Pended | Bound(node: string, gpuid: string)

  /** syncHandler past its key: the search result is ("", "") when no node was found. */
  function SyncHandler(lookup: Lookup, listed: bool, node: string, gpuid: string, patched: bool): Outcome {
    match lookup
    case NotFound => Dropped
    case Unavailable => Errored
    case Found(pod) =>
      if pod.request.Missing? then Dropped
      else if pod.node != "" then Dropped
      else if !pod.limit.Number? || pod.limit.value > 1.0 || pod.limit.value < 0.0 then Dropped
      else if !pod.request.Number? || pod.request.value > pod.limit.value || pod.request.value < 0.0 then Dropped
      else if !pod.memory.Number? || pod.memory.value < 0 then Dropped
      else if pod.gpuid != "" then Dropped
      else if !listed then Errored
      else if node == "" then Pended
      else if !patched then Errored
      else Bound(node, gpuid)
  }

  /** A key is dropped just when its pod is not waiting, and bound to just the node and GPUID that were found. */
  lemma SyncHandlerOutcomes(lookup: Lookup, listed: bool, node: string, gpuid: string, patched: bool)
    ensures var o := SyncHandler(lookup, listed, node, gpuid, patched);
            var waits := lookup.Found? && Waiting(lookup.pod);
            && (o == Dropped <==> !lookup.Unavailable? && !waits)
            && (o == Errored <==> lookup.Unavailable? || (waits && (!listed || (node != "" && !patched))))
            && (o == Pended <==> waits && listed && node == "")
            && (o.Bound? <==> waits && listed && node != "" && patched)
            && (o.Bound? ==> o.node == node && o.gpuid == gpuid)
  {
  }

  /** The protocol's step for an outcome of the handler of key. */
  function StepFor(key: string, o: Outcome): Step {
    match o
    case Dropped => Drop(key)
    case Errored => Fail(key)
    case Pended => Pend(key)
    case Bound(node, gpuid) => Bind(key, node, gpuid)
  }

  /** What a worker's handler decides on the pod it read is a step that can happen. */
  lemma OutcomesAreSteps(s: State, key: string, listed: bool, node: string, gpuid: string, patched: bool)
    requires key in s.workers && s.workers[key].Read? && s.drained.None?
    ensures var seen := s.workers[key].seen;
            var lookup := if seen.Some? then Found(seen.value) else NotFound;
            Enabled(s, StepFor(key, SyncHandler(lookup, listed, node, gpuid, patched)))
  {
  }
}
