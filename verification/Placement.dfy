/** Where a pod can be placed, stated on its annotations and on what is left of each GPU in use. */
module Placement {
  import opened Sums
  import opened Accounting
  import opened AccountingOrder
  import opened Filters
  import opened BestFit
  import opened Cluster
  import opened Executions
  import opened Isolation
  import opened GpuMemory

  /** g is in use, has what the pod asks for, and its tags and the pod's let them share it. */
  predicate Takes(r: Resources, p: Pod, g: string)
    requires AsksShare(p)
  {
    && Sum(CpuOf(), p.containers) <= r.cpuFree && Sum(MemOf(), p.containers) <= r.memFree
    && g in r.gpuFree
    && 1000.0 * p.request.value <= r.gpuFree[g].freeReq as real && p.memory.value <= r.gpuFree[g].freeMem
    && (p.affinity.Some? ==> p.affinity.value in r.gpuFree[g].affinity)
    && (p.antiAffinity.Some? ==> p.antiAffinity.value !in r.gpuFree[g].antiAffinity)
    && (forall t :: t in r.gpuFree[g].exclusion ==> t == Tag(p.exclusion))
    && (Tag(p.exclusion) != "" ==> r.gpuFree[g].exclusion != [])
  }

  /** Filters and search look for just that. */
  lemma TakesExactly(r: Resources, p: Pod, g: string)
    requires AsksShare(p)
    ensures Takes(r, p, g) <==> HasRoom(r, p, g) && Welcomes(r.gpuFree, g, Tag(p.exclusion))
  {
    JobIsTheAsk(p);
  }

  /** The exclusion filter's break does not decide: the pod has no exclusion tag, or the node does not mix. */
  predicate Filterable(r: Resources, p: Pod) {
    Tag(p.exclusion) == "" || !Mixed(Unfiltered(r, p), Tag(p.exclusion))
  }

  ghost predicate Decided(nodes: Nodes, ps: seq<Pod>, p: Pod) {
    forall name :: name in nodes ==> Filterable(RowAt(nodes, ps, name), p)
  }

  lemma FilterableAgrees(listed: Resources, r: Resources, p: Pod)
    requires SameRow(listed, r) && Filterable(r, p)
    ensures Filterable(listed, p)
  {
    forall id | id in Unfiltered(listed, p)
      ensures id in Unfiltered(r, p)
      ensures Untagged(listed.gpuFree[id]) <==> Untagged(r.gpuFree[id])
      ensures Foreign(listed.gpuFree[id], Tag(p.exclusion)) <==> Foreign(r.gpuFree[id], Tag(p.exclusion))
    {
      SameView(listed, r, p, id);
    }
  }

  /** No GPU that takes the pod, on any node, has less left than this one. */
  predicate Tightest(nodes: Nodes, ps: seq<Pod>, p: Pod, name: string, g: string)
    requires AsksShare(p)
  {
    forall k | k in nodes :: forall h | h in RowAt(nodes, ps, k).gpuFree ::
      Takes(RowAt(nodes, ps, k), p, h) ==> FreeReq(nodes, ps, name, g) <= FreeReq(nodes, ps, k, h)
  }

  /** The call can happen and finds g of this node. */
  ghost predicate Finds(nodes: Nodes, ps: seq<Pod>, p: Pod, call: Call, name: string, g: string) {
    Schedules(nodes, ps, p, call) && FreshWhereFound(ps, call) && call.end.best.node == name && call.end.best.gpuid == g
  }

  // ----- What is found takes the pod, and is a tightest fit

  lemma FoundRowTakes(listed: Resources, r: Resources, p: Pod, order: seq<string>, g: string)
    requires AsksShare(p) && Filterable(r, p) && SameRow(listed, r) && IsOrder(order, Unfiltered(listed, p).Keys)
    requires HasRoom(listed, p, g) && g in Filtered(listed.gpuFree, p, order)
    ensures Takes(r, p, g) && r.gpuFree[g].freeReq == listed.gpuFree[g].freeReq
  {
    FilterableAgrees(listed, r, p);
    LoopIsExact(Unfiltered(listed, p), Tag(p.exclusion), order);
    SameView(listed, r, p, g);
    TakesExactly(r, p, g);
  }

  lemma FoundTakes(nodes: Nodes, ps: seq<Pod>, p: Pod, call: Call, name: string, g: string)
    requires InitialRows(nodes) && Safe(nodes, ps) && Schedulable(p) && Decided(nodes, ps, p)
    requires name in nodes && g in RowAt(nodes, ps, name).gpuFree && Finds(nodes, ps, p, call, name, g)
    ensures Takes(RowAt(nodes, ps, name), p, g)
    ensures call.end.best.point == FreeReq(nodes, ps, name, g) - JobOf(p).milli
  {
    var listed := FoundRow(nodes, ps, p, call);
    RowsAgree(nodes, ps, call.listed, name);
    BestIsHoleOrNew(nodes, ps, p, call);
    FoundRowTakes(listed, RowAt(nodes, ps, name), p, call.orders[name], g);
  }

  lemma FoundIsTightest(nodes: Nodes, ps: seq<Pod>, p: Pod, call: Call, name: string, g: string)
    requires InitialRows(nodes) && Safe(nodes, ps) && Schedulable(p) && Decided(nodes, ps, p)
    requires name in nodes && g in RowAt(nodes, ps, name).gpuFree && Finds(nodes, ps, p, call, name, g)
    ensures Tightest(nodes, ps, p, name, g)
  {
    FoundTakes(nodes, ps, p, call, name, g);
    forall k, h | k in nodes && h in RowAt(nodes, ps, k).gpuFree && Takes(RowAt(nodes, ps, k), p, h)
      ensures FreeReq(nodes, ps, name, g) <= FreeReq(nodes, ps, k, h)
    {
      TakesExactly(RowAt(nodes, ps, k), p, h);
      SuitIsOffered(nodes, ps, p, call, k, h);
    }
  }

  // ----- A tightest fit can be found

  function NoFronts(nodes: Nodes): map<string, seq<string>> {
    map k | k in nodes :: []
  }

  lemma TakerIsOffered(nodes: Nodes, ps: seq<Pod>, p: Pod, name: string, g: string, newId: string) returns (call: Call)
    requires Schedulable(p) && Decided(nodes, ps, p) && name in nodes && Takes(RowAt(nodes, ps, name), p, g)
    requires FreeReq(nodes, ps, name, g) <= 1000
    ensures Schedules(nodes, ps, p, call) && call.listed == ps && call.newId == newId
    ensures var offer := HoleAt(name, RowAt(nodes, ps, name), JobOf(p), g);
            call.end.best == offer || call.end.best.point < offer.point
  {
    var r := RowAt(nodes, ps, name);
    var draft := Draft(nodes, ps, p, NoFronts(nodes));
    TakesExactly(r, p, g);
    LoopIsExact(Unfiltered(r, p), Tag(p.exclusion), draft.orders[name]);
    call := CanBeFirst(nodes, ps, p, draft, name, g, newId);
  }

  lemma TightestIsFound(nodes: Nodes, ps: seq<Pod>, p: Pod, name: string, g: string, call: Call)
    requires InitialRows(nodes) && Safe(nodes, ps) && Schedulable(p) && Decided(nodes, ps, p)
    requires name in nodes && Takes(RowAt(nodes, ps, name), p, g) && Tightest(nodes, ps, p, name, g)
    requires FreeReq(nodes, ps, name, g) <= 1000
    requires Schedules(nodes, ps, p, call) && FreshWhereFound(ps, call) && call.listed == ps
    requires var offer := HoleAt(name, RowAt(nodes, ps, name), JobOf(p), g);
             call.end.best == offer || call.end.best.point < offer.point
    ensures Finds(nodes, ps, p, call, name, g)
  {
    var best := call.end.best;
    BestIsHoleOrNew(nodes, ps, p, call);
    var r := RowAt(nodes, ps, best.node);
    if best.gpuid in FilteredTable(nodes, p, call)[best.node].gpuFree && HasRoom(r, p, best.gpuid) {
      SameRowSelf(r);
      FoundRowTakes(r, r, p, call.orders[best.node], best.gpuid);
    }
  }

  lemma SameRowSelf(r: Resources)
    ensures SameRow(r, r)
  {
  }

  /**
   Unless the filter's break decides, a pod can be placed on a GPU in use exactly when that GPU takes
   it and no GPU that takes it, on any node, is a tighter fit.
   */
  lemma FoundExactly(nodes: Nodes, ps: seq<Pod>, p: Pod, name: string, g: string)
    requires InitialRows(nodes) && Safe(nodes, ps) && Schedulable(p) && Decided(nodes, ps, p)
    requires name in nodes && g in RowAt(nodes, ps, name).gpuFree
    ensures (exists call :: Finds(nodes, ps, p, call, name, g))
            <==> Takes(RowAt(nodes, ps, name), p, g) && Tightest(nodes, ps, p, name, g)
  {
    if call :| Finds(nodes, ps, p, call, name, g) {
      FoundTakes(nodes, ps, p, call, name, g);
      FoundIsTightest(nodes, ps, p, call, name, g);
    }
    if Takes(RowAt(nodes, ps, name), p, g) && Tightest(nodes, ps, p, name, g) {
      FreeAtMostWhole(nodes, ps, name, g);
      var newId := FreshIdExists(ps);
      var call := TakerIsOffered(nodes, ps, p, name, g, newId);
      TightestIsFound(nodes, ps, p, name, g, call);
    }
  }

  // ----- Whether there is a place at all

  /** A GPU of the node takes the pod, or the node has the CPU and memory and a whole GPU free. */
  predicate CanHost(r: Resources, p: Pod)
    requires AsksShare(p)
  {
    || (exists g :: g in r.gpuFree && Takes(r, p, g))
    || (Sum(CpuOf(), p.containers) <= r.cpuFree && Sum(MemOf(), p.containers) <= r.memFree && r.gpuFreeCount > 0)
  }

  ghost predicate Places(nodes: Nodes, ps: seq<Pod>, p: Pod, call: Call) {
    Schedules(nodes, ps, p, call) && FreshWhereFound(ps, call)
  }

  lemma PlacedIsHosted(nodes: Nodes, ps: seq<Pod>, p: Pod, call: Call)
    requires InitialRows(nodes) && Safe(nodes, ps) && Schedulable(p) && Decided(nodes, ps, p)
    requires Places(nodes, ps, p, call)
    ensures call.end.best.node in nodes && CanHost(RowAt(nodes, ps, call.end.best.node), p)
  {
    var name, g := call.end.best.node, call.end.best.gpuid;
    var listed := FoundRow(nodes, ps, p, call);
    RowsAgree(nodes, ps, call.listed, name);
    JobIsTheAsk(p);
    if g in RowAt(nodes, ps, name).gpuFree {
      FoundTakes(nodes, ps, p, call, name, g);
    }
  }

  lemma FreeGpuIsOffered(nodes: Nodes, ps: seq<Pod>, p: Pod, name: string, newId: string) returns (call: Call)
    requires Schedulable(p) && Decided(nodes, ps, p) && name in nodes
    requires Feasible(RowAt(nodes, ps, name), JobOf(p)) && RowAt(nodes, ps, name).gpuFreeCount > 0
    requires forall g :: g in RowAt(nodes, ps, name).gpuFree ==> !Takes(RowAt(nodes, ps, name), p, g)
    ensures Schedules(nodes, ps, p, call) && call.listed == ps && call.newId == newId
  {
    var r := RowAt(nodes, ps, name);
    var draft := Draft(nodes, ps, p, NoFronts(nodes));
    LoopIsExact(Unfiltered(r, p), Tag(p.exclusion), draft.orders[name]);
    var left := FilteredTable(nodes, p, draft)[name];
    assert left == r.(gpuFree := Filtered(r.gpuFree, p, draft.orders[name]));
    NoneFits(r, p, draft.orders[name]);
    JobBounds(p);
    forall order | IsOrder(order, left.gpuFree.Keys) && [] <= order
      ensures Offers(name, left, JobOf(p), newId, order) == [FreshAt(name, JobOf(p), newId)]
    {
      OnlyNew(name, left, JobOf(p), newId, order);
    }
    call := CallExists(nodes, ps, p, draft, name, [], newId, FreshAt(name, JobOf(p), newId));
  }

  lemma NoneFits(r: Resources, p: Pod, order: seq<string>)
    requires AsksShare(p) && Filterable(r, p) && IsOrder(order, Unfiltered(r, p).Keys)
    requires Feasible(r, JobOf(p)) && forall g :: g in r.gpuFree ==> !Takes(r, p, g)
    ensures forall g :: g in Filtered(r.gpuFree, p, order) ==> !Fits(Filtered(r.gpuFree, p, order)[g], JobOf(p))
  {
    LoopIsExact(Unfiltered(r, p), Tag(p.exclusion), order);
    forall g | g in Filtered(r.gpuFree, p, order) ensures !Fits(Filtered(r.gpuFree, p, order)[g], JobOf(p)) {
      TakesExactly(r, p, g);
    }
  }

  lemma HostCanPlace(nodes: Nodes, ps: seq<Pod>, p: Pod, name: string) returns (call: Call)
    requires InitialRows(nodes) && Safe(nodes, ps) && Schedulable(p) && Decided(nodes, ps, p)
    requires name in nodes && CanHost(RowAt(nodes, ps, name), p)
    ensures Places(nodes, ps, p, call)
  {
    var newId := FreshIdExists(ps);
    var r := RowAt(nodes, ps, name);
    if g :| g in r.gpuFree && Takes(r, p, g) {
      FreeAtMostWhole(nodes, ps, name, g);
      call := TakerIsOffered(nodes, ps, p, name, g, newId);
    } else {
      JobIsTheAsk(p);
      call := FreeGpuIsOffered(nodes, ps, p, name, newId);
    }
  }

  ghost predicate SomePlace(nodes: Nodes, ps: seq<Pod>, p: Pod) {
    exists call :: Places(nodes, ps, p, call)
  }

  ghost predicate SomeHost(nodes: Nodes, ps: seq<Pod>, p: Pod)
    requires AsksShare(p)
  {
    exists name :: name in nodes && CanHost(RowAt(nodes, ps, name), p)
  }

  /** And it can be placed at all exactly when some node can host it. */
  lemma PlaceableExactly(nodes: Nodes, ps: seq<Pod>, p: Pod)
    requires InitialRows(nodes) && Safe(nodes, ps) && Schedulable(p) && Decided(nodes, ps, p)
    ensures SomePlace(nodes, ps, p) <==> SomeHost(nodes, ps, p)
  {
    if SomePlace(nodes, ps, p) {
      var call :| Places(nodes, ps, p, call);
      PlacedIsHosted(nodes, ps, p, call);
    }
    if SomeHost(nodes, ps, p) {
      var name :| name in nodes && CanHost(RowAt(nodes, ps, name), p);
      var call := HostCanPlace(nodes, ps, p, name);
    }
  }
}
