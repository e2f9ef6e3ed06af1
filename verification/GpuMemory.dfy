/** The memory of shared GPUs, which the search does not check on a new GPU. */
module GpuMemory {
  import opened Sums
  import opened Accounting
  import opened AccountingOrder
  import opened Filters
  import opened BestFit
  import opened Cluster
  import opened Executions

  lemma PlacedGpuMem(ps: seq<Pod>, p: Pod, best: Candidate, name: string, id: string)
    requires Schedulable(p) && best.node != ""
    ensures Sum(GpuMemOn(name, id), ps + [Place(p, best)])
            == Sum(GpuMemOn(name, id), ps) + if name == best.node && id == best.gpuid then JobOf(p).gpuMem else 0
    ensures id in Ids(ps + [Place(p, best)], name) <==> id in Ids(ps, name) || (name == best.node && id == best.gpuid)
  {
    PlacedUses(p, best);
    SumPushed(GpuMemOn(name, id), ps, Place(p, best));
    assert (ps + [Place(p, best)])[..|ps|] == ps;
    LastPod(ps + [Place(p, best)], name);
  }

  lemma MemAfterPlacing(nodes: Nodes, ps: seq<Pod>, p: Pod, best: Candidate)
    requires Schedulable(p) && best.node != "" && best.node in nodes && GpuMemSafe(nodes, ps)
    requires best.gpuid in Ids(ps, best.node) ==>
               Sum(GpuMemOn(best.node, best.gpuid), ps) + JobOf(p).gpuMem <= nodes[best.node].gpuMemTotal
    ensures GpuMemSafe(nodes, ps + [Place(p, best)])
            <==> best.gpuid in Ids(ps, best.node) || JobOf(p).gpuMem <= nodes[best.node].gpuMemTotal
  {
    var qs := ps + [Place(p, best)];
    if best.gpuid !in Ids(ps, best.node) {
      UnusedSums(ps, best.node, best.gpuid);
    }
    PlacedGpuMem(ps, p, best, best.node, best.gpuid);
    if MemFits(nodes[best.node], qs, best.node, best.gpuid) {
      forall name, id | name in nodes ensures MemFits(nodes[name], qs, name, id) {
        assert MemFits(nodes[name], ps, name, id);
        PlacedGpuMem(ps, p, best, name, id);
      }
    }
  }

  /**
   GPU memory stays within its total exactly when the pod shares a GPU in use or asks for no more
   than a whole one has: the search does not check the memory of a new GPU.
   */
  lemma PlacementGpuMem(nodes: Nodes, ps: seq<Pod>, p: Pod, call: Call)
    requires InitialRows(nodes) && Safe(nodes, ps) && Schedulable(p)
    requires Schedules(nodes, ps, p, call) && FreshWhereFound(ps, call)
    requires GpuMemSafe(nodes, ps)
    ensures var best := call.end.best;
            best.node in nodes &&
            (GpuMemSafe(nodes, ps + [Place(p, best)])
             <==> best.gpuid in Ids(ps, best.node) || JobOf(p).gpuMem <= nodes[best.node].gpuMemTotal)
  {
    var r := FoundRow(nodes, ps, p, call);
    MemAfterPlacing(nodes, ps, p, call.end.best);
  }

  // ----- The exact condition before a call

  /** A GPU in use that keeps a new one from being opened: any that fits, or any that is not whole. */
  predicate Preferred(r: Resources, p: Pod, id: string, any: bool) {
    HasRoom(r, p, id) && (any || r.gpuFree[id].freeReq < 1000)
  }

  /** The filter can drop them all: they are foreign, or they are the one untagged GPU it stops at. */
  predicate Avoids(r: Resources, p: Pod, any: bool, a: string) {
    forall id :: id in r.gpuFree && Preferred(r, p, id, any) ==>
      Foreign(r.gpuFree[id], Tag(p.exclusion)) || (Tag(p.exclusion) != "" && Untagged(r.gpuFree[id]) && id == a)
  }

  ghost predicate CanAvoid(r: Resources, p: Pod, any: bool) {
    exists a: string :: Avoids(r, p, any, a)
  }

  /** The pod asks for more memory than a whole GPU of m has, and a new GPU of m can be the best. */
  ghost predicate Overruns(nodes: Nodes, ps: seq<Pod>, p: Pod, m: string) {
    && m in nodes && JobOf(p).gpuMem > nodes[m].gpuMemTotal
    && Feasible(RowAt(nodes, ps, m), JobOf(p)) && RowAt(nodes, ps, m).gpuFreeCount > 0
    && forall k :: k in nodes ==> CanAvoid(RowAt(nodes, ps, k), p, k == m)
  }

  /** The call can happen and leaves some GPU with more memory charged than it has. */
  ghost predicate Exceeds(nodes: Nodes, ps: seq<Pod>, p: Pod, call: Call) {
    Schedules(nodes, ps, p, call) && FreshWhereFound(ps, call) && !GpuMemSafe(nodes, ps + [Place(p, call.end.best)])
  }

  // ----- A call that opens a new GPU

  ghost function Hidden(r: Resources, p: Pod, any: bool): (a: string)
    requires CanAvoid(r, p, any)
    ensures Avoids(r, p, any, a)
  {
    var a: string :| Avoids(r, p, any, a);
    a
  }

  function ForeignIds(gpus: GpuTable, tag: string): set<string> {
    set id | id in gpus && Foreign(gpus[id], tag)
  }

  /** First the foreign GPUs, then a. */
  ghost function HidingFront(gpus: GpuTable, tag: string, a: string): (front: seq<string>)
    ensures CanLead(front, gpus.Keys)
  {
    var foreign := AnOrder(ForeignIds(gpus, tag));
    if a in gpus && a !in ForeignIds(gpus, tag) then
      OrdersJoin(foreign, ForeignIds(gpus, tag), [a], {a});
      assert (set id | id in foreign + [a]) == ForeignIds(gpus, tag) + {a};
      foreign + [a]
    else
      assert (set id | id in foreign) == ForeignIds(gpus, tag);
      foreign
  }

  lemma HidingDrops(gpus: GpuTable, tag: string, a: string, order: seq<string>, id: string)
    requires IsOrder(order, gpus.Keys) && HidingFront(gpus, tag, a) <= order && id in gpus
    requires Foreign(gpus[id], tag) || (tag != "" && Untagged(gpus[id]) && id == a)
    ensures id !in ExclusionLoop(gpus, tag, order)
  {
    var foreign := AnOrder(ForeignIds(gpus, tag));
    var n := |foreign|;
    forall i | 0 <= i < n ensures Foreign(gpus[order[i]], tag) {
      assert order[i] == HidingFront(gpus, tag, a)[i] == foreign[i];
      assert foreign[i] in foreign;
    }
    LoopDropsFront(gpus, tag, order, n);
    if Foreign(gpus[id], tag) {
      assert id in foreign;
      var i :| 0 <= i < n && foreign[i] == id;
      assert order[i] == HidingFront(gpus, tag, a)[i] == id;
    } else {
      assert order[n] == HidingFront(gpus, tag, a)[n] == a;
    }
  }

  ghost function HidingFronts(nodes: Nodes, ps: seq<Pod>, p: Pod, m: string): (fronts: map<string, seq<string>>)
    requires forall k :: k in nodes ==> CanAvoid(RowAt(nodes, ps, k), p, k == m)
    ensures Fronts(nodes, ps, p, fronts)
  {
    map k | k in nodes ::
      HidingFront(Unfiltered(RowAt(nodes, ps, k), p), Tag(p.exclusion), Hidden(RowAt(nodes, ps, k), p, k == m))
  }

  /** With the filter's iterations in that order, nothing that is preferred to a new GPU is left. */
  lemma NothingPreferred(nodes: Nodes, ps: seq<Pod>, p: Pod, m: string, draft: Call, k: string, id: string)
    requires (forall k :: k in nodes ==> CanAvoid(RowAt(nodes, ps, k), p, k == m)) && k in nodes
    requires draft.orders.Keys == nodes.Keys && HidingFronts(nodes, ps, p, m)[k] <= draft.orders[k]
    requires IsOrder(draft.orders[k], Unfiltered(RowAt(nodes, ps, k), p).Keys)
    requires Preferred(RowAt(nodes, ps, k), p, id, k == m)
    ensures id !in Filtered(RowAt(nodes, ps, k).gpuFree, p, draft.orders[k])
  {
    var r := RowAt(nodes, ps, k);
    HidingDrops(Unfiltered(r, p), Tag(p.exclusion), Hidden(r, p, k == m), draft.orders[k], id);
  }

  lemma {:induction false} NoHoles(name: string, left: Resources, job: Job, order: seq<string>)
    requires forall id :: id in order ==> id in left.gpuFree && !Fits(left.gpuFree[id], job)
    ensures Holes(name, left, job, order) == []
  {
    if order != [] {
      NoHoles(name, left, job, order[..|order| - 1]);
    }
  }

  lemma OnlyNew(name: string, left: Resources, job: Job, newId: string, order: seq<string>)
    requires IsOrder(order, left.gpuFree.Keys) && job.shared && Feasible(left, job) && left.gpuFreeCount > 0
    requires forall id :: id in left.gpuFree ==> !Fits(left.gpuFree[id], job)
    ensures Offers(name, left, job, newId, order) == [FreshAt(name, job, newId)]
  {
    NoHoles(name, left, job, order);
  }

  lemma NewGpuIsOffered(nodes: Nodes, ps: seq<Pod>, p: Pod, m: string, newId: string) returns (call: Call)
    requires Schedulable(p) && Overruns(nodes, ps, p, m)
    ensures Schedules(nodes, ps, p, call) && call.listed == ps && call.newId == newId
    ensures forall k, id :: k in nodes && Preferred(RowAt(nodes, ps, k), p, id, k == m) ==>
              id !in Filtered(RowAt(nodes, ps, k).gpuFree, p, call.orders[k])
    ensures var offer := FreshAt(m, JobOf(p), newId);
            call.end.best == offer || call.end.best.point < offer.point
  {
    var draft := Draft(nodes, ps, p, HidingFronts(nodes, ps, p, m));
    forall k, id | k in nodes && Preferred(RowAt(nodes, ps, k), p, id, k == m)
      ensures id !in Filtered(RowAt(nodes, ps, k).gpuFree, p, draft.orders[k])
    {
      NothingPreferred(nodes, ps, p, m, draft, k, id);
    }
    var r := RowAt(nodes, ps, m);
    var left := FilteredTable(nodes, p, draft)[m];
    FilteredIsSubset(r, p, draft.orders[m]);
    assert left == r.(gpuFree := Filtered(r.gpuFree, p, draft.orders[m]));
    JobBounds(p);
    forall id | id in left.gpuFree ensures !Fits(left.gpuFree[id], JobOf(p)) {
      assert Preferred(r, p, id, true) <==> Fits(left.gpuFree[id], JobOf(p));
    }
    forall order | IsOrder(order, left.gpuFree.Keys) && [] <= order
      ensures Offers(m, left, JobOf(p), newId, order) == [FreshAt(m, JobOf(p), newId)]
    {
      OnlyNew(m, left, JobOf(p), newId, order);
    }
    call := CallExists(nodes, ps, p, draft, m, [], newId, FreshAt(m, JobOf(p), newId));
  }

  lemma NewGpuIsTaken(nodes: Nodes, ps: seq<Pod>, p: Pod, m: string, call: Call)
    requires InitialRows(nodes) && Safe(nodes, ps) && Schedulable(p) && GpuMemSafe(nodes, ps)
    requires Overruns(nodes, ps, p, m)
    requires Schedules(nodes, ps, p, call) && FreshWhereFound(ps, call) && call.listed == ps
    requires forall k, id :: k in nodes && Preferred(RowAt(nodes, ps, k), p, id, k == m) ==>
               id !in Filtered(RowAt(nodes, ps, k).gpuFree, p, call.orders[k])
    requires var offer := FreshAt(m, JobOf(p), call.newId);
             call.end.best == offer || call.end.best.point < offer.point
    ensures Exceeds(nodes, ps, p, call)
  {
    var best := call.end.best;
    BestIsHoleOrNew(nodes, ps, p, call);
    assert Preferred(RowAt(nodes, ps, best.node), p, best.gpuid, best.node == m) ==>
             best.gpuid !in Filtered(RowAt(nodes, ps, best.node).gpuFree, p, call.orders[best.node]);
    assert best == FreshAt(m, JobOf(p), call.newId);
    PlacementGpuMem(nodes, ps, p, call);
  }

  // ----- The other half

  lemma AvoidedRow(listed: Resources, r: Resources, p: Pod, order: seq<string>, any: bool)
    requires SameRow(listed, r) && IsOrder(order, Unfiltered(listed, p).Keys)
    requires forall id :: id in Filtered(listed.gpuFree, p, order) ==> !Preferred(listed, p, id, any)
    ensures CanAvoid(r, p, any)
  {
    var a := LoopDropsForeign(Unfiltered(listed, p), Tag(p.exclusion), order);
    forall id | id in r.gpuFree && Preferred(r, p, id, any)
      ensures Foreign(r.gpuFree[id], Tag(p.exclusion)) || (Tag(p.exclusion) != "" && Untagged(r.gpuFree[id]) && id == a)
    {
      SameView(listed, r, p, id);
      assert Preferred(listed, p, id, any);
    }
    assert Avoids(r, p, any, a);
  }

  /** A new GPU of m was found: nothing preferred to it was left on any node. */
  lemma NewMeansNonePreferred(nodes: Nodes, ps: seq<Pod>, p: Pod, call: Call, k: string, id: string)
    requires Schedules(nodes, ps, p, call) && Schedulable(p) && k in nodes
    requires var best := call.end.best;
             best.node in nodes && best.gpuid !in RowAt(nodes, call.listed, best.node).gpuFree
    requires id in Filtered(RowAt(nodes, call.listed, k).gpuFree, p, call.orders[k])
    ensures !Preferred(RowAt(nodes, call.listed, k), p, id, k == call.end.best.node)
  {
    var r := RowAt(nodes, call.listed, k);
    var left := FilteredTable(nodes, p, call)[k];
    assert left == r.(gpuFree := Filtered(r.gpuFree, p, call.orders[k]));
    FilteredIsSubset(r, p, call.orders[k]);
    BestIsHoleOrNew(nodes, ps, p, call);
    JobBounds(p);
    if HasRoom(r, p, id) {
      assert Offered(HoleAt(k, left, JobOf(p), id), k, left, JobOf(p), call.newId);
      OfferBounds(nodes, ps, p, call, k, HoleAt(k, left, JobOf(p), id));
      if k == call.end.best.node {
        NoHoleBesideNew(nodes, ps, p, call, id);
      }
    }
  }

  lemma NoHoleBesideNew(nodes: Nodes, ps: seq<Pod>, p: Pod, call: Call, id: string)
    requires Schedules(nodes, ps, p, call) && Schedulable(p) && call.end.best.node in nodes
    requires call.end.best.gpuid !in FilteredTable(nodes, p, call)[call.end.best.node].gpuFree
    ensures !HasHole(FilteredTable(nodes, p, call)[call.end.best.node], JobOf(p))
  {
    FoundIsBest(nodes, ps, p, call);
  }

  lemma FoundOverruns(nodes: Nodes, ps: seq<Pod>, p: Pod, call: Call)
    requires InitialRows(nodes) && Safe(nodes, ps) && Schedulable(p) && GpuMemSafe(nodes, ps)
    requires Exceeds(nodes, ps, p, call)
    ensures Overruns(nodes, ps, p, call.end.best.node)
  {
    var m := call.end.best.node;
    PlacementGpuMem(nodes, ps, p, call);
    var listed := FoundRow(nodes, ps, p, call);
    RowsAgree(nodes, ps, call.listed, m);
    forall k | k in nodes ensures CanAvoid(RowAt(nodes, ps, k), p, k == m) {
      RowsAgree(nodes, ps, call.listed, k);
      var r := RowAt(nodes, call.listed, k);
      forall id | id in Filtered(r.gpuFree, p, call.orders[k]) ensures !Preferred(r, p, id, k == m) {
        NewMeansNonePreferred(nodes, ps, p, call, k, id);
      }
      AvoidedRow(r, RowAt(nodes, ps, k), p, call.orders[k], k == m);
    }
  }

  /** Some possible call charges a GPU with more memory than it has exactly when some node overruns. */
  lemma GpuMemFailsExactly(nodes: Nodes, ps: seq<Pod>, p: Pod)
    requires InitialRows(nodes) && Safe(nodes, ps) && Schedulable(p) && GpuMemSafe(nodes, ps)
    ensures (exists call :: Exceeds(nodes, ps, p, call)) <==> exists m :: Overruns(nodes, ps, p, m)
  {
    if call :| Exceeds(nodes, ps, p, call) {
      FoundOverruns(nodes, ps, p, call);
    }
    if m :| Overruns(nodes, ps, p, m) {
      var newId := FreshIdExists(ps);
      var call := NewGpuIsOffered(nodes, ps, p, m, newId);
      NewGpuIsTaken(nodes, ps, p, m, call);
    }
  }
}
