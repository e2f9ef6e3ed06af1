/**
 The device manager's pool and its work queue together: a request that was answered with code 1
 waits until its GPU's UUID is known, and its key is handled again after that.
 */
module PoolQueue {
  import opened Sums
  import opened Reachability
  import opened WorkQueue
  import opened GpuPool
  import opened PoolRuns

  /** One request of one GPU. */
  datatype Ref = Ref(node: string, gpuid: string, key: string)

  datatype State = State(
    nodes: Nodes,
    queue: Queue,
    waiting: set<Ref>,   // last answered with code 1
    asked: set<Ref>)     // answered with code 1 in the latest handling of their key

  /** Ask is a call that the handler of the request's key makes; the other pool events come from elsewhere. */
  datatype Step =
    | Pool(e: Event)
    | Enqueue(key: string)
    | Take
    | Finish(key: string, failed: bool)
    | Elapsed(key: string)

  function RefOf(e: Event): Ref
    requires e.Ask? || e.Remove?
  {
    Ref(e.node, e.gpuid, e.key)
  }

  /** The key of every request on the GPU goes back on the queue when its UUID becomes known. */
  function Requeued(nodes: Nodes, e: Event): seq<string> {
    if e.SetUuid? && e.node in nodes && e.gpuid in nodes[e.node].gpus
    then Bind(nodes[e.node], e.gpuid, e.uuid).1 else []
  }

  predicate AnsweredOne(nodes: Nodes, e: Event) {
    && e.Ask? && e.node in nodes && nodes[e.node].ports.current <= PORTS
    && Register(nodes[e.node], e.gpuid, e.request, e.limit, e.memory, e.key, 0).code == 1
  }

  /** What a pool event does to the requests that wait. */
  function Noted(refs: set<Ref>, nodes: Nodes, e: Event): set<Ref> {
    if AnsweredOne(nodes, e) then refs + {RefOf(e)}
    else if e.Ask? || e.Remove? then refs - {RefOf(e)}
    else refs
  }

  ghost predicate Sound(s: State) {
    AllWellFormed(s.nodes) && Consistent(s.queue)
  }

  ghost predicate Enabled(s: State, step: Step) {
    match step
    case Pool(e) => e.Ask? ==> e.key in s.queue.processing
    case Enqueue(_) => true
    case Take => s.queue.items != []
    case Finish(key, _) => key in s.queue.processing
    case Elapsed(key) => key in s.queue.delayed
  }

  function After(nodes: Nodes, e: Event): Nodes {
    if forall name :: name in nodes ==> nodes[name].ports.current <= PORTS then Apply(nodes, e) else nodes
  }

  function Next(s: State, step: Step): State {
    match step
    case Pool(e) =>
      State(After(s.nodes, e), AddAll(s.queue, Requeued(s.nodes, e)),
            Noted(s.waiting, s.nodes, e), Noted(s.asked, s.nodes, e))
    case Enqueue(key) => s.(queue := Add(s.queue, key))
    case Take =>
      if s.queue.items == [] then s
      else s.(queue := Get(s.queue), asked := set r | r in s.asked && r.key != s.queue.items[0])
    case Finish(key, failed) =>
      var queue := if failed then AddRateLimited(s.queue, key) else s.queue;
      s.(queue := Done(queue, key))
    case Elapsed(key) => s.(queue := Elapse(s.queue, key))
  }

  // ----- The invariant

  function GpuOf(nodes: Nodes, r: Ref): Gpu {
    if r.node in nodes then GpuAt(nodes[r.node], r.gpuid) else UNUSED
  }

  predicate Listed(nodes: Nodes, r: Ref) {
    Find(r.key, GpuOf(nodes, r).podList).Some?
  }

  predicate Bound(nodes: Nodes, r: Ref) {
    GpuOf(nodes, r).uuid != ""
  }

  /** The key will be handled again, or is being handled and the handler has yet to ask for this request. */
  predicate Coming(s: State, r: Ref) {
    r.key in s.queue.dirty || r.key in s.queue.delayed || (r.key in s.queue.processing && r !in s.asked)
  }

  /** What every step keeps. */
  ghost predicate Tracked(s: State) {
    Sound(s) && forall r :: r in s.waiting ==> Listed(s.nodes, r)
  }

  /** Nobody waits on a bound GPU without being on the way back to the handler. */
  ghost predicate NoneStranded(s: State) {
    forall r :: r in s.waiting && Bound(s.nodes, r) ==> Coming(s, r)
  }

  /** A handling ends without an error and without having asked for a request whose GPU is bound by now. */
  ghost predicate GivesUp(s: State, step: Step) {
    step.Finish? && !step.failed &&
    exists r :: && r in s.waiting && r.key == step.key && Bound(s.nodes, r) && r !in s.asked
                && r.key !in s.queue.dirty && r.key !in s.queue.delayed
  }

  lemma PushedFinds(pl: seq<PodRequest>, e: PodRequest, other: string)
    ensures Find(other, pl).Some? || other == e.key ==> Find(other, pl + [e]).Some?
  {
    var i := IndexOf(other, pl);
    assert i < |pl| ==> (pl + [e])[i] == pl[i];
    assert (pl + [e])[|pl|] == e;
  }

  lemma RemovedFinds(pl: seq<PodRequest>, i: nat, other: string)
    requires i < |pl| && pl[i].key != other && Find(other, pl).Some?
    ensures Find(other, RemoveAt(pl, i)).Some?
  {
    var j := IndexOf(other, pl);
    assert RemoveAt(pl, i)[if j < i then j else j - 1] == pl[j];
  }

  /** Registering lists its key, leaves the others listed, and binds no GPU. */
  lemma RegisterLists(n: Node, gpuid: string, request: real, limit: real, memory: int, key: string, g: string,
                      other: string)
    requires WellFormed(n)
    ensures var a := Register(n, gpuid, request, limit, memory, key, 0);
            && GpuAt(a.node, g).uuid == GpuAt(n, g).uuid
            && (Find(other, GpuAt(n, g).podList).Some? ==> Find(other, GpuAt(a.node, g).podList).Some?)
            && (a.code == 1 ==> GpuAt(a.node, gpuid).uuid == "" && Find(key, GpuAt(a.node, gpuid).podList).Some?)
  {
    var e := PodRequest(key, request, limit, memory, PortOffered(n));
    PushedFinds(GpuAt(n, gpuid).podList, e, other);
    PushedFinds(GpuAt(n, gpuid).podList, e, key);
  }

  /** Releasing a key leaves the others listed, and no GPU with requests changes its UUID. */
  lemma ReleaseLists(n: Node, gpuid: string, key: string, g: string, other: string)
    requires Find(other, GpuAt(n, g).podList).Some? && (g != gpuid || other != key)
    ensures var n' := Release(n, gpuid, key).node;
            Find(other, GpuAt(n', g).podList).Some? && GpuAt(n', g).uuid == GpuAt(n, g).uuid
  {
    if g == gpuid && g in n.gpus {
      var pl := n.gpus[g].podList;
      var i := IndexOf(key, pl);
      if i < |pl| {
        RemovedFinds(pl, i, other);
      }
    }
  }

  /** A pool event leaves every other request listed, and re-queues those whose GPU it binds. */
  lemma EventKeeps(nodes: Nodes, e: Event, r: Ref)
    requires AllWellFormed(nodes) && Listed(nodes, r) && (e.Remove? ==> RefOf(e) != r)
    ensures Listed(Apply(nodes, e), r)
    ensures Bound(Apply(nodes, e), r) ==> Bound(nodes, r) || r.key in Requeued(nodes, e)
  {
    if e.node == r.node && e.node in nodes {
      var n := nodes[e.node];
      match e
      case Attach(_, _) =>
      case Ask(_, g, request, limit, memory, key) => RegisterLists(n, g, request, limit, memory, key, r.gpuid, r.key);
      case Remove(_, g, key) => ReleaseLists(n, g, key, r.gpuid, r.key);
      case SetUuid(_, g, uuid) =>
        if g == r.gpuid {
          KeysInOrder(GpuOf(nodes, r).podList);
          assert Keys(GpuOf(nodes, r).podList)[IndexOf(r.key, GpuOf(nodes, r).podList)] == r.key;
        }
    }
  }

  lemma AnswerKeeps(nodes: Nodes, e: Event)
    requires AllWellFormed(nodes) && AnsweredOne(nodes, e)
    ensures Listed(Apply(nodes, e), RefOf(e)) && !Bound(Apply(nodes, e), RefOf(e))
  {
    RegisterLists(nodes[e.node], e.gpuid, e.request, e.limit, e.memory, e.key, e.gpuid, e.key);
  }

  lemma PoolKeeps(s: State, e: Event, r: Ref)
    requires Tracked(s) && NoneStranded(s) && r in Next(s, Pool(e)).waiting
    ensures var s' := Next(s, Pool(e)); Listed(s'.nodes, r) && (Bound(s'.nodes, r) ==> Coming(s', r))
  {
    AddAllConsistent(s.queue, Requeued(s.nodes, e));
    if AnsweredOne(s.nodes, e) && r == RefOf(e) {
      AnswerKeeps(s.nodes, e);
    } else {
      EventKeeps(s.nodes, e, r);
    }
  }

  lemma QueueKeeps(s: State, step: Step, r: Ref)
    requires Tracked(s) && NoneStranded(s) && Enabled(s, step) && !step.Pool? && !GivesUp(s, step)
    requires r in s.waiting && Bound(s.nodes, r)
    ensures Coming(Next(s, step), r)
  {
  }

  lemma QueueSound(s: State, step: Step)
    requires Sound(s) && Enabled(s, step)
    ensures Sound(Next(s, step))
  {
    match step
    case Pool(e) => AddAllConsistent(s.queue, Requeued(s.nodes, e));
    case Enqueue(key) => AddConsistent(s.queue, key);
    case Take => GetConsistent(s.queue);
    case Finish(key, failed) => DoneConsistent(if failed then AddRateLimited(s.queue, key) else s.queue, key);
    case Elapsed(key) => AddConsistent(s.queue.(delayed := s.queue.delayed - {key}), key);
  }

  /** A step strands a request exactly when it is the end of a handling that gives one up. */
  lemma StepStrandsExactly(s: State, step: Step)
    requires Tracked(s) && NoneStranded(s) && Enabled(s, step)
    ensures Tracked(Next(s, step)) && (NoneStranded(Next(s, step)) <==> !GivesUp(s, step))
  {
    QueueSound(s, step);
    var s' := Next(s, step);
    if step.Pool? {
      forall r | r in s'.waiting ensures Listed(s'.nodes, r) && (Bound(s'.nodes, r) ==> Coming(s', r)) {
        PoolKeeps(s, step.e, r);
      }
    } else if GivesUp(s, step) {
      var r :| r in s.waiting && r.key == step.key && Bound(s.nodes, r) && r !in s.asked
               && r.key !in s.queue.dirty && r.key !in s.queue.delayed;
      assert r in s'.waiting && Bound(s'.nodes, r) && !Coming(s', r);
    } else {
      forall r | r in s'.waiting && Bound(s'.nodes, r) ensures Coming(s', r) {
        QueueKeeps(s, step, r);
      }
    }
  }

  // ----- Runs

  ghost function Steps(): iset<(State, Step)> {
    iset s: (State, Step) | Enabled(s.0, s.1)
  }

  const NEXT: (State, Step) -> State := (s, step) => Next(s, step)

  ghost function Served(): iset<State> {
    iset s: State | Tracked(s) && NoneStranded(s)
  }

  ghost function GivingUp(): iset<(State, Step)> {
    iset s: (State, Step) | GivesUp(s.0, s.1)
  }

  /**
   In every state of a run all requests last answered with code 1 whose GPU has a UUID by now are on
   their way back to the handler, exactly when no handling of the run gives one up.
   */
  lemma NoneStrandedExactly(s: State, steps: seq<Step>, s': State)
    requires Tracked(s) && NoneStranded(s) && Reachability.Run(Steps(), NEXT, s, steps, s')
    ensures Along(NEXT, s, steps, Served()) <==> NoneBad(NEXT, s, steps, GivingUp())
    ensures Along(NEXT, s, steps, Served()) ==> Tracked(s') && NoneStranded(s')
  {
    forall t, step | t in Served() && (t, step) in Steps()
      ensures NEXT(t, step) in Served() <==> (t, step) !in GivingUp()
    {
      StepStrandsExactly(t, step);
    }
    AlongExactly(Steps(), NEXT, s, steps, s', Served(), GivingUp());
  }

  /** Without such a handling, an idle queue means that nobody waits on a bound GPU. */
  lemma QuietMeansServed(nodes: Nodes, steps: seq<Step>, s': State, r: Ref)
    requires AllWellFormed(nodes) && Reachability.Run(Steps(), NEXT, State(nodes, EMPTY, {}, {}), steps, s')
    requires NoneBad(NEXT, State(nodes, EMPTY, {}, {}), steps, GivingUp())
    requires s'.queue.items == [] && s'.queue.delayed == {} && s'.queue.processing == {} && r in s'.waiting
    ensures !Bound(s'.nodes, r)
  {
    var s := State(nodes, EMPTY, {}, {});
    NoneStrandedExactly(s, steps, s');
    assert r.key in s'.queue.dirty ==> r.key in s'.queue.items;
  }

  /** Such a handling can happen: the key is taken, and handled without asking for the request again. */
  lemma HandlingCanGiveUp(s: State, r: Ref)
    requires Tracked(s) && r in s.waiting && Bound(s.nodes, r)
    requires s.queue.items != [] && s.queue.items[0] == r.key && r.key !in s.queue.delayed
    ensures Enabled(s, Take) && Enabled(Next(s, Take), Finish(r.key, false))
    ensures GivesUp(Next(s, Take), Finish(r.key, false))
    ensures var s' := Next(Next(s, Take), Finish(r.key, false)); r in s'.waiting && Bound(s'.nodes, r) && !Coming(s', r)
  {
    GetConsistent(s.queue);
  }
}
