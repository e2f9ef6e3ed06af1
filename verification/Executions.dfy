/** Scheduling calls that can happen: how the nondeterminism of one call can be resolved. */
module Executions {
  import opened Sums
  import opened Accounting
  import opened AccountingOrder
  import opened Filters
  import opened BestFit
  import opened Cluster

  /** The row of a node when the pods are listed in this order. */
  function RowAt(nodes: Nodes, ps: seq<Pod>, name: string): Resources
    requires name in nodes
  {
    After(nodes[name], name, ps)
  }

  /** For each node, GPUs that its exclusion filter is to meet first. */
  ghost predicate Fronts(nodes: Nodes, ps: seq<Pod>, p: Pod, fronts: map<string, seq<string>>) {
    && fronts.Keys == nodes.Keys
    && forall name :: name in nodes ==> CanLead(fronts[name], Unfiltered(RowAt(nodes, ps, name), p).Keys)
  }

  ghost predicate CanLead(front: seq<string>, keys: set<string>) {
    IsOrder(front, set id | id in front) && forall id :: id in front ==> id in keys
  }

  ghost function Draft(nodes: Nodes, ps: seq<Pod>, p: Pod, fronts: map<string, seq<string>>): (call: Call)
    requires Fronts(nodes, ps, p, fronts)
    ensures call.listed == ps && call.orders.Keys == nodes.Keys && Orders(nodes, p, call)
    ensures forall name :: name in nodes ==> fronts[name] <= call.orders[name]
  {
    var orders := map name | name in nodes :: OrderFrom(fronts[name], Unfiltered(RowAt(nodes, ps, name), p).Keys);
    Call(ps, orders, map name | name in nodes :: [], "", [], Race(NONE, map[]))
  }

  /** The draft with the search's part filled in: the node name visits `first` before its other GPUs. */
  ghost function Searching(table: Table, draft: Call, name: string, first: seq<string>, newId: string): (call: Call)
    requires name in table && CanLead(first, table[name].gpuFree.Keys)
    ensures Visits(table, call) && call.listed == draft.listed && call.orders == draft.orders && call.newId == newId
    ensures first <= call.visits[name]
  {
    var visits := map k | k in table :: OrderFrom(if k == name then first else [], table[k].gpuFree.Keys);
    draft.(visits := visits, newId := newId)
  }

  lemma SameTable(nodes: Nodes, p: Pod, draft: Call, call: Call)
    requires Orders(nodes, p, draft) && call.listed == draft.listed && call.orders == draft.orders
    requires call.visits.Keys == nodes.Keys
    ensures Orders(nodes, p, call) && FilteredTable(nodes, p, call) == FilteredTable(nodes, p, draft)
  {
  }

  /** Running the search's goroutines on the drafted table makes the draft a possible call. */
  lemma DraftRuns(nodes: Nodes, ps: seq<Pod>, p: Pod, draft: Call, c: Call, picks: seq<string>, end: Race)
    requires draft.listed == ps && Orders(nodes, p, draft) && c.listed == ps && c.orders == draft.orders
    requires var table := FilteredTable(nodes, p, draft);
             && Visits(table, c) && Runs(Race(NONE, Threads(table, JobOf(p), c)), picks, end)
             && Finished(end) && end.best != NONE
    ensures Schedules(nodes, ps, p, c.(picks := picks, end := end))
  {
    var call := c.(picks := picks, end := end);
    SameTable(nodes, p, draft, call);
    var table := FilteredTable(nodes, p, draft);
    assert Threads(table, JobOf(p), call) == Threads(table, JobOf(p), c);
  }

  /** A call in which the node name makes its first offer before any other does. */
  lemma CallExists(nodes: Nodes, ps: seq<Pod>, p: Pod, draft: Call, name: string, first: seq<string>, newId: string,
                   offer: Candidate) returns (call: Call)
    requires draft.listed == ps && Orders(nodes, p, draft) && name in nodes
    requires CanLead(first, FilteredTable(nodes, p, draft)[name].gpuFree.Keys)
    requires forall order :: IsOrder(order, FilteredTable(nodes, p, draft)[name].gpuFree.Keys) && first <= order ==>
               var offers := Offers(name, FilteredTable(nodes, p, draft)[name], JobOf(p), newId, order);
               offers != [] && offers[0] == offer
    requires offer.point < MAX_POINT
    ensures Schedules(nodes, ps, p, call) && call.listed == ps && call.orders == draft.orders && call.newId == newId
    ensures call.end.best == offer || call.end.best.point < offer.point
  {
    var table := FilteredTable(nodes, p, draft);
    var c := Searching(table, draft, name, first, newId);
    var threads := Threads(table, JobOf(p), c);
    assert threads[name] == Offers(name, table[name], JobOf(p), newId, c.visits[name]);
    var picks, end := FirstToOffer(threads, name);
    DraftRuns(nodes, ps, p, draft, c, picks, end);
    call := c.(picks := picks, end := end);
  }

  // ----- A fresh id

  function Longest(ps: seq<Pod>): nat {
    if ps == [] then 0
    else
      var rest := Longest(ps[..|ps| - 1]);
      if |ps[|ps| - 1].gpuid| > rest then |ps[|ps| - 1].gpuid| else rest
  }

  lemma {:induction false} LongestIsLongest(ps: seq<Pod>, p: Pod)
    requires p in ps
    ensures |p.gpuid| <= Longest(ps)
  {
    var front, last := ps[..|ps| - 1], ps[|ps| - 1];
    assert ps == front + [last];
    if p in front {
      LongestIsLongest(front, p);
    }
  }

  lemma FreshIdExists(ps: seq<Pod>) returns (id: string)
    ensures forall name :: id !in Ids(ps, name)
  {
    id := seq(Longest(ps) + 1, _ => 'g');
    forall name, k | k in Ids(ps, name) ensures k != id {
      var p :| p in ps && Uses(p, name) && p.gpuid == k;
      LongestIsLongest(ps, p);
    }
  }

  // ----- Another list order

  lemma RowsAgree(nodes: Nodes, ps: seq<Pod>, listed: seq<Pod>, name: string)
    requires InitialRows(nodes) && Safe(nodes, ps) && multiset(listed) == multiset(ps) && name in nodes
    ensures SameRow(RowAt(nodes, listed, name), RowAt(nodes, ps, name))
  {
    SamePods(ps, listed, name);
    SafeRows(nodes, ps, listed, name);
    SafeRows(nodes, ps, ps, name);
    OrderDoesNotMatter(nodes[name], name, listed, ps);
  }

  /** Nothing that the filters and the search look at depends on the order of tags. */
  lemma SameView(r: Resources, s: Resources, p: Pod, id: string)
    requires SameRow(r, s)
    ensures id in Unfiltered(r, p) <==> id in Unfiltered(s, p)
    ensures id in r.gpuFree <==> id in s.gpuFree
    ensures id in r.gpuFree ==>
              && (forall tag :: Foreign(r.gpuFree[id], tag) <==> Foreign(s.gpuFree[id], tag))
              && (Untagged(r.gpuFree[id]) <==> Untagged(s.gpuFree[id]))
              && r.gpuFree[id].freeReq == s.gpuFree[id].freeReq && r.gpuFree[id].freeMem == s.gpuFree[id].freeMem
  {
    if id in r.gpuFree {
      SameGpuView(r.gpuFree[id], s.gpuFree[id]);
    }
  }

  lemma SameGpuView(g: GpuLeft, h: GpuLeft)
    requires SameGpu(g, h)
    ensures forall t :: t in g.affinity <==> t in h.affinity
    ensures forall t :: t in g.antiAffinity <==> t in h.antiAffinity
    ensures forall t :: t in g.exclusion <==> t in h.exclusion
    ensures g.exclusion == [] <==> h.exclusion == []
  {
    assert forall t :: t in g.affinity <==> t in multiset(g.affinity);
    assert forall t :: t in h.affinity <==> t in multiset(h.affinity);
    assert forall t :: t in g.antiAffinity <==> t in multiset(g.antiAffinity);
    assert forall t :: t in h.antiAffinity <==> t in multiset(h.antiAffinity);
    assert forall t :: t in g.exclusion <==> t in multiset(g.exclusion);
    assert forall t :: t in h.exclusion <==> t in multiset(h.exclusion);
    assert |multiset(g.exclusion)| == |g.exclusion| && |multiset(h.exclusion)| == |h.exclusion|;
  }

  // ----- What is found

  /** g is a GPU of the node that passes the affinity filters and has room for the pod. */
  predicate HasRoom(r: Resources, p: Pod, g: string) {
    Feasible(r, JobOf(p)) && g in Unfiltered(r, p) && Fits(r.gpuFree[g], JobOf(p))
  }

  /** The thousandths left of a GPU in use. */
  function FreeReq(nodes: Nodes, ps: seq<Pod>, k: string, h: string): int {
    if k in nodes && h in RowAt(nodes, ps, k).gpuFree then RowAt(nodes, ps, k).gpuFree[h].freeReq else 0
  }

  lemma JobBounds(p: Pod)
    requires Schedulable(p)
    ensures JobOf(p).shared && 0 <= JobOf(p).milli <= 1000 && JobOf(p).gpuMem >= 0
  {
    MilliBounds(p.request.value);
  }

  lemma BestIsHoleOrNew(nodes: Nodes, ps: seq<Pod>, p: Pod, call: Call)
    requires Schedules(nodes, ps, p, call) && Schedulable(p)
    ensures var best := call.end.best;
            && best.node in nodes
            && (best == FreshAt(best.node, JobOf(p), call.newId)
                || var r := RowAt(nodes, call.listed, best.node);
                   && HasRoom(r, p, best.gpuid) && best == HoleAt(best.node, r, JobOf(p), best.gpuid)
                   && best.gpuid in FilteredTable(nodes, p, call)[best.node].gpuFree)
  {
    FoundIsBest(nodes, ps, p, call);
    var best := call.end.best;
    FilteredIsSubset(RowAt(nodes, call.listed, best.node), p, call.orders[best.node]);
  }

  lemma OfferBounds(nodes: Nodes, ps: seq<Pod>, p: Pod, call: Call, k: string, c: Candidate)
    requires Schedules(nodes, ps, p, call) && k in nodes
    requires Offered(c, k, FilteredTable(nodes, p, call)[k], JobOf(p), call.newId)
    ensures call.end.best.point <= c.point
  {
    FoundIsBest(nodes, ps, p, call);
    assert c in TableOffers(FilteredTable(nodes, p, call), JobOf(p), call.newId);
  }

  /** A GPU that passes the filters and fits is offered, so what is found is no looser. */
  lemma PassedIsOffered(nodes: Nodes, ps: seq<Pod>, p: Pod, call: Call, k: string, h: string)
    requires Schedules(nodes, ps, p, call) && Schedulable(p) && k in nodes
    requires Feasible(RowAt(nodes, call.listed, k), JobOf(p))
    requires var kept := Filtered(RowAt(nodes, call.listed, k).gpuFree, p, call.orders[k]);
             h in kept && Fits(kept[h], JobOf(p))
    ensures var kept := Filtered(RowAt(nodes, call.listed, k).gpuFree, p, call.orders[k]);
            call.end.best.point <= kept[h].freeReq - JobOf(p).milli
  {
    var listed := RowAt(nodes, call.listed, k);
    var left := FilteredTable(nodes, p, call)[k];
    JobBounds(p);
    assert left == listed.(gpuFree := Filtered(listed.gpuFree, p, call.orders[k]));
    assert Offered(HoleAt(k, left, JobOf(p), h), k, left, JobOf(p), call.newId);
    OfferBounds(nodes, ps, p, call, k, HoleAt(k, left, JobOf(p), h));
  }

  lemma FreeAtMostWhole(nodes: Nodes, ps: seq<Pod>, name: string, g: string)
    requires InitialRows(nodes) && Safe(nodes, ps)
    ensures FreeReq(nodes, ps, name, g) <= 1000
  {
    if name in nodes && g in RowAt(nodes, ps, name).gpuFree {
      SafeRows(nodes, ps, ps, name);
      forall p | p in ps ensures MilliOn(name, g)(p) >= 0 {
        if UsesGpu(p, name, g) { MilliBounds(p.request.value); }
      }
      SumNonNegative(MilliOn(name, g), ps);
    }
  }

  /** The first GPU visited, if it fits, is the first offer. */
  lemma {:induction false} FirstHole(name: string, r: Resources, job: Job, order: seq<string>)
    requires order != [] && (forall id :: id in order ==> id in r.gpuFree) && Fits(r.gpuFree[order[0]], job)
    ensures Holes(name, r, job, order) != [] && Holes(name, r, job, order)[0] == HoleAt(name, r, job, order[0])
  {
    if |order| == 1 {
      assert Holes(name, r, job, order[..0]) == [];
    } else {
      FirstHole(name, r, job, order[..|order| - 1]);
    }
  }

  /** A GPU with room that the filters of the draft let through can be the first that is offered. */
  lemma CanBeFirst(nodes: Nodes, ps: seq<Pod>, p: Pod, draft: Call, name: string, g: string, newId: string)
    returns (call: Call)
    requires Schedulable(p) && draft.listed == ps && Orders(nodes, p, draft) && name in nodes
    requires HasRoom(RowAt(nodes, ps, name), p, g) && FreeReq(nodes, ps, name, g) <= 1000
    requires g in Filtered(RowAt(nodes, ps, name).gpuFree, p, draft.orders[name])
    ensures Schedules(nodes, ps, p, call) && call.listed == ps && call.newId == newId && call.orders == draft.orders
    ensures var offer := HoleAt(name, RowAt(nodes, ps, name), JobOf(p), g);
            call.end.best == offer || call.end.best.point < offer.point
  {
    var r := RowAt(nodes, ps, name);
    var left := FilteredTable(nodes, p, draft)[name];
    FilteredIsSubset(r, p, draft.orders[name]);
    assert left == r.(gpuFree := Filtered(r.gpuFree, p, draft.orders[name]));
    JobBounds(p);
    forall order | IsOrder(order, left.gpuFree.Keys) && [g] <= order
      ensures var offers := Offers(name, left, JobOf(p), newId, order);
              offers != [] && offers[0] == HoleAt(name, r, JobOf(p), g)
    {
      assert order[0] == g;
      FirstHole(name, left, JobOf(p), order);
    }
    call := CallExists(nodes, ps, p, draft, name, [g], newId, HoleAt(name, r, JobOf(p), g));
  }
}
