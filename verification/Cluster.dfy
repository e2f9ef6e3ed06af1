/**
 pkg/scheduler end to end: list the pods, charge them, filter, search, place the pod, and do it
 again. The state is the pods that exist; every table is recomputed from it.
 */
module Cluster {
  import opened Sums
  import opened Accounting
  import opened AccountingOrder
  import opened Filters
  import opened BestFit

  /** Each node's initial row: nothing charged yet. */
  type Nodes = map<string, Resources>

  ghost predicate InitialRows(nodes: Nodes) {
    forall name :: name in nodes ==> name != "" && nodes[name].gpuFree == map[]
  }

  /** The GPUs of a row that pass the affinity and anti-affinity filters. */
  function Unfiltered(r: Resources, p: Pod): GpuTable {
    KeepAntiAffinity(KeepAffinity(r.gpuFree, p.affinity), p.antiAffinity)
  }

  /** All the nondeterminism of one scheduling call. */
  datatype Call = Call(
    listed: seq<Pod>,                       // the order in which the lister returned the pods
    orders: map<string, seq<string>>,       // the exclusion filter's iteration order on each node
    visits: map<string, seq<string>>,       // the search's iteration order on each node
    newId: string,                          // the id a new GPU would get
    picks: seq<string>, end: Race)          // the interleaving of the goroutines and its result

  ghost predicate Orders(nodes: Nodes, p: Pod, call: Call) {
    && call.orders.Keys == call.visits.Keys == nodes.Keys
    && forall name :: name in nodes ==>
         IsOrder(call.orders[name], Unfiltered(After(nodes[name], name, call.listed), p).Keys)
  }

  function FilteredTable(nodes: Nodes, p: Pod, call: Call): Table
    requires Orders(nodes, p, call)
  {
    map name | name in nodes ::
      var r := After(nodes[name], name, call.listed);
      r.(gpuFree := Filtered(r.gpuFree, p, call.orders[name]))
  }

  ghost predicate Visits(table: Table, call: Call) {
    && call.visits.Keys == table.Keys
    && forall name :: name in table ==> IsOrder(call.visits[name], table[name].gpuFree.Keys)
  }

  function Threads(table: Table, job: Job, call: Call): map<string, seq<Candidate>>
    requires Visits(table, call)
  {
    map name | name in table :: Offers(name, table[name], job, call.newId, call.visits[name])
  }

  /** The call is a possible execution of scheduleSharePod on the pods ps, and finds a node. */
  ghost predicate Schedules(nodes: Nodes, ps: seq<Pod>, p: Pod, call: Call) {
    && multiset(call.listed) == multiset(ps)
    && Orders(nodes, p, call)
    && var table := FilteredTable(nodes, p, call);
       && Visits(table, call)
       && Runs(Race(NONE, Threads(table, JobOf(p), call)), call.picks, call.end)
       && Finished(call.end) && call.end.best != NONE
  }

  /** What the binding writes into the pod. */
  function Place(p: Pod, best: Candidate): Pod {
    p.(node := best.node, gpuid := best.gpuid)
  }

  lemma ThreadsOfferTheTable(table: Table, job: Job, call: Call)
    requires Visits(table, call)
    ensures AllOffers(Race(NONE, Threads(table, job, call))) == TableOffers(table, job, call.newId)
  {
    var s := Race(NONE, Threads(table, job, call));
    forall c: Candidate ensures Pending(s, c) <==> OfferedIn(c, table, job, call.newId) {
      if Pending(s, c) {
        var name :| name in s.rest && c in s.rest[name];
        OffersAre(name, table[name], job, call.newId, call.visits[name]);
      }
      if OfferedIn(c, table, job, call.newId) {
        var name :| name in table && Offered(c, name, table[name], job, call.newId);
        OffersAre(name, table[name], job, call.newId, call.visits[name]);
        assert c in s.rest[name];
      }
    }
  }

  /** Whatever the orders and the interleaving, the node found is a least candidate of the filtered table. */
  lemma FoundIsBest(nodes: Nodes, ps: seq<Pod>, p: Pod, call: Call)
    requires Schedules(nodes, ps, p, call)
    ensures var table := FilteredTable(nodes, p, call);
            var best := call.end.best;
            && BestOf(best, TableOffers(table, JobOf(p), call.newId))
            && best.node in table && Offered(best, best.node, table[best.node], JobOf(p), call.newId)
  {
    var table := FilteredTable(nodes, p, call);
    EveryInterleavingFindsTheBest(Threads(table, JobOf(p), call), call.picks, call.end);
    ThreadsOfferTheTable(table, JobOf(p), call);
    assert call.end.best in TableOffers(table, JobOf(p), call.newId);
  }

  // ----- Nothing is overcommitted

  ghost predicate NodeSafe(n: Resources, name: string, ps: seq<Pod>) {
    && Sum(CpuOn(name), ps) <= n.cpuFree && Sum(MemOn(name), ps) <= n.memFree
    && GpusSuffice(n, name, ps)
    && forall id :: id in Ids(ps, name) ==> Sum(MilliOn(name, id), ps) <= 1000
  }

  ghost predicate Safe(nodes: Nodes, ps: seq<Pod>) {
    ValidPods(ps) && forall name :: name in nodes ==> NodeSafe(nodes[name], name, ps)
  }

  ghost predicate MemFits(n: Resources, ps: seq<Pod>, name: string, id: string) {
    id in Ids(ps, name) ==> Sum(GpuMemOn(name, id), ps) <= n.gpuMemTotal
  }

  ghost predicate GpuMemSafe(nodes: Nodes, ps: seq<Pod>) {
    forall name, id :: name in nodes ==> MemFits(nodes[name], ps, name, id)
  }

  lemma SafeRowIs(nodes: Nodes, ps: seq<Pod>, listed: seq<Pod>, name: string)
    requires InitialRows(nodes) && Safe(nodes, ps) && multiset(listed) == multiset(ps) && name in nodes
    ensures RowIs(After(nodes[name], name, listed), nodes[name], name, listed)
    ensures CountsEveryGpu(nodes[name], name, listed)
  {
    assert NodeSafe(nodes[name], name, ps);
    SamePods(ps, listed, name);
    SumReordered(WholeOn(name), ps, listed);
    SufficeCounts(nodes[name], name, listed);
    ClosedForm(nodes[name], name, listed);
  }

  /** In a safe state every quantity of every node's row is non-negative, whatever the list order. */
  lemma SafeRows(nodes: Nodes, ps: seq<Pod>, listed: seq<Pod>, name: string)
    requires InitialRows(nodes) && Safe(nodes, ps) && multiset(listed) == multiset(ps) && name in nodes
    ensures var r := After(nodes[name], name, listed);
            && RowIs(r, nodes[name], name, listed)
            && r.cpuFree >= 0 && r.memFree >= 0 && r.gpuFreeCount >= 0
            && Ids(listed, name) == Ids(ps, name)
            && forall id :: id in r.gpuFree ==>
                 && 0 <= r.gpuFree[id].freeReq == 1000 - Sum(MilliOn(name, id), ps)
                 && r.gpuFree[id].freeMem == nodes[name].gpuMemTotal - Sum(GpuMemOn(name, id), ps)
  {
    var n, r := nodes[name], After(nodes[name], name, listed);
    SafeRowIs(nodes, ps, listed, name);
    assert NodeSafe(n, name, ps);
    SamePods(ps, listed, name);
    SumReordered(WholeOn(name), ps, listed);
    SumReordered(CpuOn(name), ps, listed);
    SumReordered(MemOn(name), ps, listed);
    forall id | id in r.gpuFree
      ensures 0 <= r.gpuFree[id].freeReq == 1000 - Sum(MilliOn(name, id), ps)
      ensures r.gpuFree[id].freeMem == n.gpuMemTotal - Sum(GpuMemOn(name, id), ps)
    {
      assert GpuIs(r.gpuFree[id], n.gpuMemTotal, listed, name, id);
      SumReordered(MilliOn(name, id), ps, listed);
      SumReordered(GpuMemOn(name, id), ps, listed);
    }
  }

  /** What syncHandler lets through to the search. */
  predicate Schedulable(p: Pod) {
    && AsksShare(p) && !p.dummy && !p.finished && p.node == "" && p.gpuid == ""
    && forall c :: c in p.containers ==> c.cpu >= 0 && c.mem >= 0 && c.gpus >= 0
  }

  lemma PlacedUses(p: Pod, best: Candidate)
    requires Schedulable(p) && best.node != ""
    ensures var q := Place(p, best);
            && Uses(q, best.node) && (q.request, q.limit, q.memory) == (p.request, p.limit, p.memory)
            && forall name :: name != best.node ==> !OnNode(q, name)
  {
  }

  lemma MilliBounds(request: real)
    requires 0.0 <= request <= 1.0
    ensures 0 <= Milli(request) <= 1000
    ensures 1000.0 * request <= Milli(request) as real < 1000.0 * request + 1.0
  {
  }

  lemma FilteredIsSubset(r: Resources, p: Pod, order: seq<string>)
    requires IsOrder(order, Unfiltered(r, p).Keys)
    ensures forall id :: id in Filtered(r.gpuFree, p, order) ==>
              id in Unfiltered(r, p) && Filtered(r.gpuFree, p, order)[id] == r.gpuFree[id]
  {
    LoopShrinks(Unfiltered(r, p), Tag(p.exclusion), order);
  }

  lemma {:induction false} LoopShrinks(gpus: GpuTable, tag: string, order: seq<string>)
    requires forall i :: 0 <= i < |order| ==> order[i] in gpus
    requires forall i, j :: 0 <= i < j < |order| ==> order[i] != order[j]
    ensures forall id :: id in ExclusionLoop(gpus, tag, order) ==>
              id in gpus && ExclusionLoop(gpus, tag, order)[id] == gpus[id]
    decreases |order|
  {
    if order != [] {
      var id := order[0];
      if tag != "" && Untagged(gpus[id]) {
      } else if Foreign(gpus[id], tag) {
        LoopShrinks(gpus - {id}, tag, order[1..]);
      } else {
        LoopShrinks(gpus, tag, order[1..]);
      }
    }
  }

  /** What the chosen node and GPU are known to hold, in the unfiltered row. */
  ghost predicate Room(r: Resources, job: Job, best: Candidate, newId: string) {
    && Feasible(r, job)
    && (if best.gpuid in r.gpuFree then Fits(r.gpuFree[best.gpuid], job)
        else best.gpuid == newId && r.gpuFreeCount > 0)
  }

  lemma FoundHasRoom(nodes: Nodes, ps: seq<Pod>, p: Pod, call: Call)
    requires Schedules(nodes, ps, p, call) && Schedulable(p)
    requires var name := call.end.best.node;
             name in nodes ==> call.newId !in After(nodes[name], name, call.listed).gpuFree
    ensures var best := call.end.best;
            && best.node in nodes
            && Room(After(nodes[best.node], best.node, call.listed), JobOf(p), best, call.newId)
            && (best.gpuid in After(nodes[best.node], best.node, call.listed).gpuFree
                ==> best.gpuid in FilteredTable(nodes, p, call)[best.node].gpuFree)
  {
    FoundIsBest(nodes, ps, p, call);
    var best := call.end.best;
    var r := After(nodes[best.node], best.node, call.listed);
    FilteredIsSubset(r, p, call.orders[best.node]);
  }

  /** The placed pod's own GPU keeps within a whole one, and the other GPUs do not change. */
  lemma PlacedGpuFits(n: Resources, name: string, ps: seq<Pod>, r: Resources, p: Pod, best: Candidate, newId: string,
                      k: string)
    requires NodeSafe(n, name, ps) && RowIs(r, n, name, ps)
    requires Schedulable(p) && best.node == name != "" && Room(r, JobOf(p), best, newId)
    requires k in Ids(ps, name) || k == best.gpuid
    ensures Sum(MilliOn(name, k), ps + [Place(p, best)]) <= 1000
  {
    PlacedUses(p, best);
    MilliBounds(p.request.value);
    SumPushed(MilliOn(name, k), ps, Place(p, best));
    if k !in Ids(ps, name) {
      UnusedSums(ps, name, k);
    }
  }

  lemma PlacedWeights(p: Pod, best: Candidate)
    requires Schedulable(p) && best.node != ""
    ensures CpuOn(best.node)(Place(p, best)) == JobOf(p).cpu
    ensures MemOn(best.node)(Place(p, best)) == JobOf(p).mem
    ensures WholeOn(best.node)(Place(p, best)) == 0
  {
    PlacedUses(p, best);
  }

  lemma PlacedIds(ps: seq<Pod>, p: Pod, best: Candidate)
    requires Schedulable(p) && best.node != ""
    ensures Ids(ps + [Place(p, best)], best.node) == Ids(ps, best.node) + {best.gpuid}
  {
    assert (ps + [Place(p, best)])[..|ps|] == ps;
    LastPod(ps + [Place(p, best)], best.node);
    PlacedUses(p, best);
  }

  lemma PlacedTotals(n: Resources, name: string, ps: seq<Pod>, p: Pod, best: Candidate)
    requires Schedulable(p) && best.node == name != "" && GpusSuffice(n, name, ps)
    requires Sum(CpuOn(name), ps) + JobOf(p).cpu <= n.cpuFree && Sum(MemOn(name), ps) + JobOf(p).mem <= n.memFree
    requires best.gpuid in Ids(ps, name) || |Ids(ps, name)| + Sum(WholeOn(name), ps) < n.gpuFreeCount
    ensures var qs := ps + [Place(p, best)];
            Sum(CpuOn(name), qs) <= n.cpuFree && Sum(MemOn(name), qs) <= n.memFree && GpusSuffice(n, name, qs)
  {
    PlacedWeights(p, best);
    PlacedIds(ps, p, best);
    SumPushed(CpuOn(name), ps, Place(p, best));
    SumPushed(MemOn(name), ps, Place(p, best));
    SumPushed(WholeOn(name), ps, Place(p, best));
    assert best.gpuid in Ids(ps, name) ==> Ids(ps, name) + {best.gpuid} == Ids(ps, name);
  }

  /** What the row's room means in totals. */
  lemma RoomInTotals(n: Resources, name: string, ps: seq<Pod>, r: Resources, job: Job, best: Candidate, newId: string)
    requires RowIs(r, n, name, ps) && Room(r, job, best, newId)
    ensures Sum(CpuOn(name), ps) + job.cpu <= n.cpuFree && Sum(MemOn(name), ps) + job.mem <= n.memFree
    ensures best.gpuid in Ids(ps, name) || |Ids(ps, name)| + Sum(WholeOn(name), ps) < n.gpuFreeCount
  {
  }

  /** Adding the placed pod to its node. */
  lemma PlacedNodeSafe(n: Resources, name: string, ps: seq<Pod>, r: Resources, p: Pod, best: Candidate, newId: string)
    requires NodeSafe(n, name, ps) && RowIs(r, n, name, ps)
    requires Schedulable(p) && best.node == name != "" && Room(r, JobOf(p), best, newId)
    ensures NodeSafe(n, name, ps + [Place(p, best)])
  {
    RoomInTotals(n, name, ps, r, JobOf(p), best, newId);
    PlacedTotals(n, name, ps, p, best);
    PlacedIds(ps, p, best);
    forall k | k in Ids(ps + [Place(p, best)], name)
      ensures Sum(MilliOn(name, k), ps + [Place(p, best)]) <= 1000
    {
      PlacedGpuFits(n, name, ps, r, p, best, newId, k);
    }
  }

  lemma OtherNodeSafe(n: Resources, name: string, ps: seq<Pod>, q: Pod)
    requires NodeSafe(n, name, ps) && !OnNode(q, name)
    ensures NodeSafe(n, name, ps + [q])
  {
    var qs := ps + [q];
    assert qs[..|ps|] == ps;
    LastPod(qs, name);
    SumPushed(CpuOn(name), ps, q);
    SumPushed(MemOn(name), ps, q);
    SumPushed(WholeOn(name), ps, q);
    forall k | k in Ids(qs, name) ensures Sum(MilliOn(name, k), qs) <= 1000 {
      SumPushed(MilliOn(name, k), ps, q);
    }
  }

  /** The id drawn for a new GPU is not in use on the node that is found. */
  ghost predicate FreshWhereFound(ps: seq<Pod>, call: Call) {
    call.newId !in Ids(ps, call.end.best.node)
  }

  /** The row of a node read off ps rather than off the list order. */
  lemma RowReordered(r: Resources, n: Resources, name: string, ps: seq<Pod>, listed: seq<Pod>)
    requires RowIs(r, n, name, listed) && multiset(listed) == multiset(ps)
    ensures RowIs(r, n, name, ps)
  {
    SamePods(ps, listed, name);
    SumReordered(WholeOn(name), ps, listed);
    SumReordered(CpuOn(name), ps, listed);
    SumReordered(MemOn(name), ps, listed);
    forall id | id in r.gpuFree ensures GpuIs(r.gpuFree[id], n.gpuMemTotal, ps, name, id) {
      GpuReordered(r.gpuFree[id], n.gpuMemTotal, name, ps, listed, id);
    }
  }

  lemma GpuReordered(g: GpuLeft, gpuMem: int, name: string, ps: seq<Pod>, listed: seq<Pod>, id: string)
    requires GpuIs(g, gpuMem, listed, name, id) && multiset(listed) == multiset(ps)
    ensures GpuIs(g, gpuMem, ps, name, id)
  {
    SamePods(ps, listed, name);
    SumReordered(MilliOn(name, id), ps, listed);
    SumReordered(GpuMemOn(name, id), ps, listed);
    assert forall tag: Pod -> string, t: string :: Tagged(tag, t, listed, name, id) <==> Tagged(tag, t, ps, name, id);
  }

  /** The row of the chosen node, read off the pods, with the room found there. */
  lemma FoundRow(nodes: Nodes, ps: seq<Pod>, p: Pod, call: Call) returns (r: Resources)
    requires InitialRows(nodes) && Safe(nodes, ps) && Schedulable(p)
    requires Schedules(nodes, ps, p, call) && FreshWhereFound(ps, call)
    ensures call.end.best.node in nodes && r == After(nodes[call.end.best.node], call.end.best.node, call.listed)
    ensures RowIs(r, nodes[call.end.best.node], call.end.best.node, ps) && Room(r, JobOf(p), call.end.best, call.newId)
    ensures var best := call.end.best;
            best.gpuid in r.gpuFree ==> best.gpuid in FilteredTable(nodes, p, call)[best.node].gpuFree
  {
    var best := call.end.best;
    FoundIsBest(nodes, ps, p, call);
    r := After(nodes[best.node], best.node, call.listed);
    SafeRows(nodes, ps, call.listed, best.node);
    FoundHasRoom(nodes, ps, p, call);
    RowReordered(r, nodes[best.node], best.node, ps, call.listed);
  }

  /**
   Closed-loop safety: placing the pod where any execution of the search puts it keeps CPU, memory,
   whole GPUs and every GPU's thousandths within their totals.
   */
  lemma PlacementIsSafe(nodes: Nodes, ps: seq<Pod>, p: Pod, call: Call)
    requires InitialRows(nodes) && Safe(nodes, ps) && Schedulable(p)
    requires Schedules(nodes, ps, p, call) && FreshWhereFound(ps, call)
    ensures Safe(nodes, ps + [Place(p, call.end.best)])
  {
    var best := call.end.best;
    var r := FoundRow(nodes, ps, p, call);
    PlacedUses(p, best);
    assert ValidPods(ps + [Place(p, best)]);
    forall name | name in nodes ensures NodeSafe(nodes[name], name, ps + [Place(p, best)]) {
      if name == best.node {
        PlacedNodeSafe(nodes[name], name, ps, r, p, best, call.newId);
      } else {
        OtherNodeSafe(nodes[name], name, ps, Place(p, best));
      }
    }
  }
}
