/**
 The scheduler and the device manager in one run: pods are placed, registered with the pool of
 their node, released, and end. The pool refuses a pod that the scheduler placed only on account of
 requests it still lists for pods that are gone.
 */
module JointRuns {
  import opened Options
  import opened Sums
  import opened Reachability
  import opened Accounting
  import opened Cluster
  import opened Agreement
  import C = ClusterRuns
  import P = PoolRuns
  import Pool = GpuPool

  datatype State = State(ps: seq<Pod>, pool: P.Nodes)

  /** A pod is registered under its own name. Any request may be released, or left listed when its pod ends. */
  datatype Step =
    | Cluster(e: C.Event)
    | Register(i: nat)
    | Other(change: P.Event)

  function AskOf(q: Pod): P.Event
    requires AsksShare(q)
  {
    P.Ask(q.node, q.gpuid, q.request.value, q.limit.value, q.memory.value, q.name)
  }

  predicate Listed(pool: P.Nodes, q: Pod) {
    q.node in pool && Pool.Find(q.name, Pool.GpuAt(pool[q.node], q.gpuid).podList).Some?
  }

  ghost predicate Enabled(nodes: Nodes, s: State, step: Step) {
    match step
    case Cluster(e) => C.Possible(nodes, s.ps, e)
    case Register(i) => i < |s.ps| && Uses(s.ps[i], s.ps[i].node)
    case Other(change) => !change.Ask?
  }

  /** A pod ends only when the pool no longer lists it. The program does not see to that. */
  predicate ReleasedFirst(s: State, step: Step) {
    step.Cluster? && !step.e.Schedule? && step.e.i < |s.ps| ==> !Listed(s.pool, s.ps[step.e.i])
  }

  function Apply(pool: P.Nodes, e: P.Event): P.Nodes {
    if forall name :: name in pool ==> pool[name].ports.current <= Pool.PORTS then P.Apply(pool, e) else pool
  }

  function Next(s: State, step: Step): State {
    match step
    case Cluster(e) => s.(ps := C.Next(s.ps, e))
    case Register(i) =>
      if i < |s.ps| && AsksShare(s.ps[i]) then s.(pool := Apply(s.pool, AskOf(s.ps[i]))) else s
    case Other(change) => s.(pool := Apply(s.pool, change))
  }

  // ----- The pool mirrors the pods

  /** The entry is the registration of this pod of the GPU. */
  predicate Matches(e: Pool.PodRequest, q: Pod, name: string, id: string) {
    q.name == e.key && UsesGpu(q, name, id) && q.request.value == e.request
  }

  predicate HasPod(e: Pool.PodRequest, ps: seq<Pod>, name: string, id: string) {
    exists q :: q in ps && Matches(e, q, name, id)
  }

  /** Every request the pool lists on the GPU is that of a pod the scheduler counts there. */
  ghost predicate Mirrors(pl: seq<Pool.PodRequest>, ps: seq<Pod>, name: string, id: string) {
    Pool.KeysDiffer(pl) && forall i :: 0 <= i < |pl| ==> HasPod(pl[i], ps, name, id)
  }

  ghost predicate PoolMirrors(s: State) {
    forall name, id :: name in s.pool ==> Mirrors(Pool.GpuAt(s.pool[name], id).podList, s.ps, name, id)
  }

  ghost predicate PoolKeysDiffer(pool: P.Nodes) {
    forall name, id :: name in pool ==> Pool.KeysDiffer(Pool.GpuAt(pool[name], id).podList)
  }

  ghost predicate Invariant(nodes: Nodes, s: State) {
    InitialRows(nodes) && Safe(nodes, s.ps) && P.AllBalanced(s.pool) && PoolKeysDiffer(s.pool)
  }

  /** The requests of the list that are those of counted pods, and the stale ones. */
  function Current(pl: seq<Pool.PodRequest>, ps: seq<Pod>, name: string, id: string): seq<Pool.PodRequest> {
    if pl == [] then []
    else Current(pl[..|pl| - 1], ps, name, id) + if HasPod(pl[|pl| - 1], ps, name, id) then [pl[|pl| - 1]] else []
  }

  function Stale(pl: seq<Pool.PodRequest>, ps: seq<Pod>, name: string, id: string): seq<Pool.PodRequest> {
    if pl == [] then []
    else Stale(pl[..|pl| - 1], ps, name, id) + if HasPod(pl[|pl| - 1], ps, name, id) then [] else [pl[|pl| - 1]]
  }

  lemma {:induction false} CurrentAndStale(pl: seq<Pool.PodRequest>, ps: seq<Pod>, name: string, id: string)
    ensures Pool.SumRequest(pl) == Pool.SumRequest(Current(pl, ps, name, id)) + Pool.SumRequest(Stale(pl, ps, name, id))
  {
    if pl != [] {
      var front, e := pl[..|pl| - 1], pl[|pl| - 1];
      CurrentAndStale(front, ps, name, id);
      if HasPod(e, ps, name, id) {
        SumRealPushed(Pool.RequestOf(), Current(front, ps, name, id), e);
        assert Stale(pl, ps, name, id) == Stale(front, ps, name, id);
      } else {
        SumRealPushed(Pool.RequestOf(), Stale(front, ps, name, id), e);
        assert Current(pl, ps, name, id) == Current(front, ps, name, id);
      }
    }
  }

  lemma {:induction false} CurrentMirrors(pl: seq<Pool.PodRequest>, ps: seq<Pod>, name: string, id: string)
    requires Pool.KeysDiffer(pl)
    ensures Mirrors(Current(pl, ps, name, id), ps, name, id)
    ensures forall e :: e in Current(pl, ps, name, id) ==> e in pl
  {
    if pl != [] {
      var front, e := pl[..|pl| - 1], pl[|pl| - 1];
      CurrentMirrors(front, ps, name, id);
      var current := Current(front, ps, name, id);
      forall k | 0 <= k < |current| ensures current[k].key != e.key {
        assert current[k] in front;
        var i :| 0 <= i < |front| && front[i] == current[k];
        assert pl[i].key != pl[|pl| - 1].key;
      }
    }
  }

  lemma {:induction false} StaleIsListed(pl: seq<Pool.PodRequest>, ps: seq<Pod>, name: string, id: string)
    ensures forall e :: e in Stale(pl, ps, name, id) <==> e in pl && !HasPod(e, ps, name, id)
  {
    if pl != [] {
      StaleIsListed(pl[..|pl| - 1], ps, name, id);
      assert pl == pl[..|pl| - 1] + [pl[|pl| - 1]];
    }
  }

  /** Registering lists a pod on its GPU exactly when it is listed already or accepted; releasing unlists it. */
  lemma RegisteredIsListed(nodes: Nodes, s: State, i: nat)
    requires Invariant(nodes, s) && Enabled(nodes, s, Register(i)) && s.ps[i].node in s.pool
    ensures var q, s' := s.ps[i], Next(s, Register(i));
            && s'.ps == s.ps && s'.pool.Keys == s.pool.Keys
            && (Listed(s'.pool, q)
                <==> Listed(s.pool, q) || Pool.Accepts(s.pool[q.node], q.gpuid, q.request.value, q.name))
  {
    var q := s.ps[i];
    var n := s.pool[q.node];
    if Pool.Accepts(n, q.gpuid, q.request.value, q.name) {
      Pool.RegisterAddsExactly(n, q.gpuid, q.request.value, q.limit.value, q.memory.value, q.name, 0);
      var pl := Pool.GpuAt(Next(s, Register(i)).pool[q.node], q.gpuid).podList;
      assert pl[|pl| - 1].key == q.name;
    } else {
      Pool.RegisterElseNothing(n, q.gpuid, q.request.value, q.limit.value, q.memory.value, q.name, 0);
    }
  }

  lemma ReleasedIsUnlisted(nodes: Nodes, s: State, q: Pod)
    requires Invariant(nodes, s)
    ensures var s' := Next(s, Other(P.Remove(q.node, q.gpuid, q.name)));
            s'.ps == s.ps && s'.pool.Keys == s.pool.Keys && !Listed(s'.pool, q)
  {
    if q.node in s.pool {
      Pool.ReleaseUnlists(s.pool[q.node], q.gpuid, q.name);
    }
  }

  lemma MilliNonNegative(ps: seq<Pod>, name: string, id: string)
    ensures forall q :: q in ps ==> MilliOn(name, id)(q) >= 0
  {
    forall q | q in ps ensures MilliOn(name, id)(q) >= 0 {
      if UsesGpu(q, name, id) {
        MilliBounds(q.request.value);
      }
    }
  }

  /** The requests listed add up to no more than those counted. */
  lemma {:induction false} MirrorSum(pl: seq<Pool.PodRequest>, ps: seq<Pod>, name: string, id: string)
    requires Mirrors(pl, ps, name, id)
    ensures Sum(MilliOf(), Requests(pl)) <= Sum(MilliOn(name, id), ps)
    decreases |pl|
  {
    MilliNonNegative(ps, name, id);
    if pl == [] {
      SumNonNegative(MilliOn(name, id), ps);
    } else {
      var front, e := pl[..|pl| - 1], pl[|pl| - 1];
      assert HasPod(pl[|pl| - 1], ps, name, id);
      var q :| q in ps && Matches(e, q, name, id);
      var k := PlaceOf(ps, q);
      var rest := RemoveAt(ps, k);
      forall i | 0 <= i < |front| ensures HasPod(front[i], rest, name, id) {
        assert HasPod(pl[i], ps, name, id);
        var p :| p in ps && Matches(pl[i], p, name, id);
        StillThere(ps, k, p);
        assert front[i] == pl[i] && Matches(front[i], p, name, id);
      }
      assert Pool.KeysDiffer(front);
      MirrorSum(front, rest, name, id);
      SumRemoved(MilliOn(name, id), ps, k);
      SumPushed(MilliOf(), Requests(front), e.request);
    }
  }

  lemma StillThere(ps: seq<Pod>, k: nat, p: Pod)
    requires k < |ps| && p in ps && p != ps[k]
    ensures p in RemoveAt(ps, k)
  {
    var j := PlaceOf(ps, p);
    assert RemoveAt(ps, k)[if j < k then j else j - 1] == p;
  }

  lemma PushMirrors(pl: seq<Pool.PodRequest>, ps: seq<Pod>, name: string, id: string, e: Pool.PodRequest, q: Pod)
    requires Mirrors(pl, ps, name, id) && Pool.Find(e.key, pl) == None && q in ps && Matches(e, q, name, id)
    ensures Mirrors(pl + [e], ps, name, id)
  {
    var all := pl + [e];
    forall i | 0 <= i < |all| ensures HasPod(all[i], ps, name, id) {
      assert i < |pl| ==> HasPod(pl[i], ps, name, id);
    }
  }

  /** A pod on its GPU that is not listed yet fits there beside the requests of counted pods. */
  lemma PlacedFits(nodes: Nodes, s: State, q: Pod)
    requires Invariant(nodes, s) && q in s.ps && Uses(q, q.node) && q.node in nodes && q.node in s.pool
             && !Listed(s.pool, q)
    ensures var pl := Pool.GpuAt(s.pool[q.node], q.gpuid).podList;
            Pool.SumRequest(Current(pl, s.ps, q.node, q.gpuid)) + q.request.value <= 1.0
  {
    var pl := Pool.GpuAt(s.pool[q.node], q.gpuid).podList;
    var current := Current(pl, s.ps, q.node, q.gpuid);
    var e := Pool.PodRequest(q.name, q.request.value, 0.0, 0, 0);
    CurrentMirrors(pl, s.ps, q.node, q.gpuid);
    NotAmong(current, pl, q.name);
    PushMirrors(current, s.ps, q.node, q.gpuid, e, q);
    MirrorSum(current + [e], s.ps, q.node, q.gpuid);
    RoundingBound(Requests(current + [e]));
    RequestsSum(current + [e]);
    SumRealPushed(Pool.RequestOf(), current, e);
    assert q.gpuid in Ids(s.ps, q.node);
    assert NodeSafe(nodes[q.node], q.node, s.ps);
  }

  lemma NotAmong(part: seq<Pool.PodRequest>, pl: seq<Pool.PodRequest>, key: string)
    requires Pool.Find(key, pl) == None && forall e :: e in part ==> e in pl
    ensures Pool.Find(key, part) == None
  {
    assert forall e :: e in pl ==> e.key != key;
    NoneFound(part, key);
  }

  lemma {:induction false} NoneFound(pl: seq<Pool.PodRequest>, key: string)
    requires forall e :: e in pl ==> e.key != key
    ensures Pool.Find(key, pl) == None
  {
    if pl != [] {
      assert pl[0] in pl && forall e :: e in pl[1..] ==> e in pl;
      NoneFound(pl[1..], key);
    }
  }

  /** The answer to a registration of q, a pod that the scheduler counts. */
  function Answered(n: Pool.Node, q: Pod, port: int): int
    requires Pool.WellFormed(n) && AsksShare(q)
  {
    Pool.Register(n, q.gpuid, q.request.value, q.limit.value, q.memory.value, q.name, port).code
  }

  /**
   A placed pod is refused exactly when it is not listed and the stale requests of its GPU take more
   than the current ones and its own leave; without a stale request there is always room.
   */
  lemma RefusedExactly(nodes: Nodes, s: State, q: Pod, port: int)
    requires Invariant(nodes, s) && q in s.ps && Uses(q, q.node) && q.node in nodes && q.node in s.pool
    ensures Pool.WellFormed(s.pool[q.node])
    ensures var pl := Pool.GpuAt(s.pool[q.node], q.gpuid).podList;
            var current, stale := Current(pl, s.ps, q.node, q.gpuid), Stale(pl, s.ps, q.node, q.gpuid);
            && (Answered(s.pool[q.node], q, port) == 2
                <==> !Listed(s.pool, q)
                     && Pool.SumRequest(stale) > 1.0 - Pool.SumRequest(current) - q.request.value)
            && (Answered(s.pool[q.node], q, port) == 2 ==> stale != [])
  {
    var n := s.pool[q.node];
    var gpu := Pool.GpuAt(n, q.gpuid);
    assert Pool.Balanced(n);
    CurrentAndStale(gpu.podList, s.ps, q.node, q.gpuid);
    Pool.RefusedOnlyPastOne(n, q.gpuid, q.request.value, q.limit.value, q.memory.value, q.name, port);
    if !Listed(s.pool, q) {
      PlacedFits(nodes, s, q);
      assert gpu.usage == Pool.SumRequest(gpu.podList);
    }
  }

  // ----- Steps

  lemma ClusterKeeps(nodes: Nodes, s: State, e: C.Event)
    requires Invariant(nodes, s) && Enabled(nodes, s, Cluster(e))
    ensures Invariant(nodes, Next(s, Cluster(e)))
  {
    C.StepIsSafe(nodes, s.ps, e);
  }

  lemma EventKeysDiffer(pool: P.Nodes, e: P.Event, name: string, id: string)
    requires P.AllWellFormed(pool) && PoolKeysDiffer(pool) && name in P.Apply(pool, e)
    ensures Pool.KeysDiffer(Pool.GpuAt(P.Apply(pool, e)[name], id).podList)
  {
    if name in pool {
      var n := pool[name];
      assert Pool.KeysDiffer(Pool.GpuAt(n, id).podList);
      if e.node == name {
        match e
        case Attach(_, _) =>
        case Ask(_, g, request, limit, memory, key) =>
          Pool.RegisterKeysDiffer(n, g, request, limit, memory, key, 0, id);
        case Remove(_, g, key) => Pool.ReleaseKeysDiffer(n, g, key, id);
        case SetUuid(_, _, _) =>
      }
    }
  }

  lemma PoolKeeps(nodes: Nodes, s: State, e: P.Event)
    requires Invariant(nodes, s) && P.ValidEvent(e)
    ensures Invariant(nodes, s.(pool := Apply(s.pool, e)))
  {
    P.EventBalances(s.pool, e);
    forall name, id | name in P.Apply(s.pool, e)
      ensures Pool.KeysDiffer(Pool.GpuAt(P.Apply(s.pool, e)[name], id).podList)
    {
      EventKeysDiffer(s.pool, e, name, id);
    }
  }

  /** Every step keeps cluster and pool within bounds and no key listed twice. */
  lemma StepKeepsInvariant(nodes: Nodes, s: State, step: Step)
    requires Invariant(nodes, s) && Enabled(nodes, s, step)
    ensures Invariant(nodes, Next(s, step))
  {
    match step
    case Cluster(e) => ClusterKeeps(nodes, s, e);
    case Register(i) => PoolKeeps(nodes, s, AskOf(s.ps[i]));
    case Other(change) => PoolKeeps(nodes, s, change);
  }

  // ----- Runs

  ghost function Steps(nodes: Nodes): iset<(State, Step)> {
    iset s: (State, Step) | Enabled(nodes, s.0, s.1)
  }

  const NEXT: (State, Step) -> State := (s, step) => Next(s, step)

  lemma RunKeepsInvariant(nodes: Nodes, s: State, s': State)
    requires Invariant(nodes, s) && Reaches(Steps(nodes), NEXT, s, s')
    ensures Invariant(nodes, s')
  {
    var keep := iset t: State | Invariant(nodes, t);
    forall t, step | Reaches(Steps(nodes), NEXT, s, t) && t in keep && (t, step) in Steps(nodes)
      ensures NEXT(t, step) in keep
    {
      StepKeepsInvariant(nodes, t, step);
    }
    StaysInsideExactly(Steps(nodes), NEXT, s, keep);
    assert s' in keep;
  }

  /**
   Over every joint run a pod that was placed is refused by the pool of its node only if its GPU
   lists a request of no pod that the scheduler counts there.
   */
  lemma RefusedOnlyForStale(nodes: Nodes, s: State, s': State, q: Pod, port: int)
    requires Invariant(nodes, s) && Reaches(Steps(nodes), NEXT, s, s')
    requires q in s'.ps && Uses(q, q.node) && q.node in nodes && q.node in s'.pool
    ensures Pool.WellFormed(s'.pool[q.node])
    ensures Answered(s'.pool[q.node], q, port) == 2 ==>
              exists e :: e in Pool.GpuAt(s'.pool[q.node], q.gpuid).podList && !HasPod(e, s'.ps, q.node, q.gpuid)
  {
    RunKeepsInvariant(nodes, s, s');
    RefusedExactly(nodes, s', q, port);
    var pl := Pool.GpuAt(s'.pool[q.node], q.gpuid).podList;
    StaleIsListed(pl, s'.ps, q.node, q.gpuid);
    var stale := Stale(pl, s'.ps, q.node, q.gpuid);
    if stale != [] {
      assert stale[0] in stale;
    }
  }

  // ----- Pods that end only after their release

  lemma FewerMirrors(pl: seq<Pool.PodRequest>, ps: seq<Pod>, name: string, id: string, i: nat)
    requires Mirrors(pl, ps, name, id) && i < |pl|
    ensures Mirrors(RemoveAt(pl, i), ps, name, id)
  {
    forall j | 0 <= j < |RemoveAt(pl, i)| ensures HasPod(RemoveAt(pl, i)[j], ps, name, id) {
      assert RemoveAt(pl, i)[j] == pl[if j < i then j else j + 1];
    }
  }

  lemma MorePods(pl: seq<Pool.PodRequest>, ps: seq<Pod>, qs: seq<Pod>, name: string, id: string)
    requires Mirrors(pl, ps, name, id)
    requires forall q :: q in ps && UsesGpu(q, name, id) && (exists i :: 0 <= i < |pl| && pl[i].key == q.name) ==>
               q in qs
    ensures Mirrors(pl, qs, name, id)
  {
    forall i | 0 <= i < |pl| ensures HasPod(pl[i], qs, name, id) {
      assert HasPod(pl[i], ps, name, id);
      var q :| q in ps && Matches(pl[i], q, name, id);
      assert q in qs;
    }
  }

  /** A pod that ends is not listed, so every listed pod stays. */
  lemma ClusterMirrors(nodes: Nodes, s: State, e: C.Event)
    requires PoolMirrors(s) && Enabled(nodes, s, Cluster(e)) && ReleasedFirst(s, Cluster(e))
    ensures PoolMirrors(Next(s, Cluster(e)))
  {
    var qs := C.Next(s.ps, e);
    forall name, id | name in s.pool ensures Mirrors(Pool.GpuAt(s.pool[name], id).podList, qs, name, id) {
      var pl := Pool.GpuAt(s.pool[name], id).podList;
      forall q | q in s.ps && UsesGpu(q, name, id) && (exists i :: 0 <= i < |pl| && pl[i].key == q.name)
        ensures q in qs
      {
        if e.Schedule? {
          assert q in qs;
        } else {
          ListedIsNot(s.pool, q, s.ps[e.i], name, id);
          OthersStay(s.ps, e, q);
        }
      }
      MorePods(pl, s.ps, qs, name, id);
    }
  }

  lemma ListedIsNot(pool: P.Nodes, q: Pod, over: Pod, name: string, id: string)
    requires name in pool && UsesGpu(q, name, id) && !Listed(pool, over)
    requires var pl := Pool.GpuAt(pool[name], id).podList; exists i :: 0 <= i < |pl| && pl[i].key == q.name
    ensures q != over
  {
  }

  lemma OthersStay(ps: seq<Pod>, e: C.Event, q: Pod)
    requires !e.Schedule? && e.i < |ps| && q in ps && q != ps[e.i]
    ensures q in C.Next(ps, e)
  {
    if e.Delete? {
      StillThere(ps, e.i, q);
    } else {
      var j := PlaceOf(ps, q);
      assert C.Next(ps, e)[j] == q;
    }
  }

  lemma RegisterMirrors(n: Pool.Node, ps: seq<Pod>, name: string, q: Pod, id: string)
    requires Pool.WellFormed(n) && q in ps && Uses(q, name)
    requires Mirrors(Pool.GpuAt(n, id).podList, ps, name, id)
    ensures Mirrors(Pool.GpuAt(P.OnNode(n, AskOf(q)), id).podList, ps, name, id)
  {
    var gpu := Pool.GpuAt(n, q.gpuid);
    if id == q.gpuid && Pool.Accepts(n, id, q.request.value, q.name) {
      var e := Pool.PodRequest(q.name, q.request.value, q.limit.value, q.memory.value, Pool.PortOffered(n));
      assert Pool.Find(q.name, gpu.podList) == None;
      PushMirrors(gpu.podList, ps, name, id, e, q);
    }
  }

  lemma ReleaseMirrors(n: Pool.Node, ps: seq<Pod>, name: string, gpuid: string, key: string, id: string)
    requires Mirrors(Pool.GpuAt(n, id).podList, ps, name, id)
    ensures Mirrors(Pool.GpuAt(Pool.Release(n, gpuid, key).node, id).podList, ps, name, id)
  {
    var pl := Pool.GpuAt(n, id).podList;
    if id == gpuid && id in n.gpus && Pool.IndexOf(key, pl) < |pl| {
      FewerMirrors(pl, ps, name, id, Pool.IndexOf(key, pl));
    }
  }

  /** What an event on the pool does to the list of one GPU. */
  lemma PoolEventMirrors(pool: P.Nodes, ps: seq<Pod>, e: P.Event, name: string, id: string)
    requires P.AllWellFormed(pool) && name in P.Apply(pool, e)
    requires name in pool ==> Mirrors(Pool.GpuAt(pool[name], id).podList, ps, name, id)
    requires e.Ask? ==> exists q :: q in ps && Uses(q, q.node) && e == AskOf(q)
    ensures Mirrors(Pool.GpuAt(P.Apply(pool, e)[name], id).podList, ps, name, id)
  {
    if name in pool && e.node == name {
      match e
      case Attach(_, _) =>
      case Ask(_, _, _, _, _, _) =>
        var q :| q in ps && Uses(q, q.node) && e == AskOf(q);
        RegisterMirrors(pool[name], ps, name, q, id);
      case Remove(_, g, key) => ReleaseMirrors(pool[name], ps, name, g, key, id);
      case SetUuid(_, _, _) =>
    }
  }

  lemma PoolMirrorsAfter(s: State, e: P.Event)
    requires PoolMirrors(s) && P.AllWellFormed(s.pool)
    requires e.Ask? ==> exists q :: q in s.ps && Uses(q, q.node) && e == AskOf(q)
    ensures PoolMirrors(s.(pool := Apply(s.pool, e)))
  {
    forall name, id | name in P.Apply(s.pool, e)
      ensures Mirrors(Pool.GpuAt(P.Apply(s.pool, e)[name], id).podList, s.ps, name, id)
    {
      PoolEventMirrors(s.pool, s.ps, e, name, id);
    }
  }

  /** While pods end only after their release, every request the pool lists is that of a counted pod. */
  lemma StepKeepsMirror(nodes: Nodes, s: State, step: Step)
    requires Invariant(nodes, s) && PoolMirrors(s) && Enabled(nodes, s, step) && ReleasedFirst(s, step)
    ensures PoolMirrors(Next(s, step))
  {
    match step
    case Cluster(e) => ClusterMirrors(nodes, s, e);
    case Register(i) => PoolMirrorsAfter(s, AskOf(s.ps[i]));
    case Other(change) => PoolMirrorsAfter(s, change);
  }

  ghost function OrderlySteps(nodes: Nodes): iset<(State, Step)> {
    iset s: (State, Step) | Enabled(nodes, s.0, s.1) && ReleasedFirst(s.0, s.1)
  }

  lemma MirrorHasNoStale(nodes: Nodes, s: State, q: Pod, port: int)
    requires Invariant(nodes, s) && PoolMirrors(s) && q in s.ps && Uses(q, q.node) && q.node in nodes
             && q.node in s.pool
    ensures Pool.WellFormed(s.pool[q.node]) && Answered(s.pool[q.node], q, port) != 2
  {
    var pl := Pool.GpuAt(s.pool[q.node], q.gpuid).podList;
    RefusedExactly(nodes, s, q, port);
    StaleIsListed(pl, s.ps, q.node, q.gpuid);
    var stale := Stale(pl, s.ps, q.node, q.gpuid);
    assert Mirrors(pl, s.ps, q.node, q.gpuid);
    assert |stale| > 0 ==> stale[0] in stale;
  }

  /** So over every joint run in which pods end only after their release, no placed pod is refused. */
  lemma PlacedIsNeverRefused(nodes: Nodes, s: State, s': State, q: Pod, port: int)
    requires Invariant(nodes, s) && PoolMirrors(s) && Reaches(OrderlySteps(nodes), NEXT, s, s')
    requires q in s'.ps && Uses(q, q.node) && q.node in nodes && q.node in s'.pool
    ensures Pool.WellFormed(s'.pool[q.node]) && Answered(s'.pool[q.node], q, port) != 2
  {
    var steps, keep := OrderlySteps(nodes), iset t: State | Invariant(nodes, t) && PoolMirrors(t);
    forall t, step | Reaches(steps, NEXT, s, t) && t in keep && (t, step) in steps ensures NEXT(t, step) in keep {
      StepKeepsInvariant(nodes, t, step);
      StepKeepsMirror(nodes, t, step);
    }
    StaysInsideExactly(steps, NEXT, s, keep);
    assert s' in keep;
    MirrorHasNoStale(nodes, s', q, port);
  }
}
