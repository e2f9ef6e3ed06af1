/** Which pods may share a GPU, and when a scheduling call can put two on one GPU that may not. */
module Isolation {
  import opened Accounting
  import opened AccountingOrder
  import opened Filters
  import opened BestFit
  import opened Cluster
  import opened Executions

  ghost predicate ShareGpu(p: Pod, q: Pod) {
    Uses(p, p.node) && Uses(q, q.node) && p.node == q.node && p.gpuid == q.gpuid
  }

  /** Two pods whose tags let them share a GPU. */
  predicate Compatible(p: Pod, q: Pod) {
    && (Tag(p.antiAffinity) != "" ==> Tag(p.antiAffinity) != Tag(q.antiAffinity))
    && (Tag(p.affinity) != "" && Tag(q.affinity) != "" ==> Tag(p.affinity) == Tag(q.affinity))
    && Tag(p.exclusion) == Tag(q.exclusion)
  }

  /** No GPU hosts two pods with one anti-affinity tag, two affinity tags, or two exclusion tags. */
  ghost predicate Isolated(ps: seq<Pod>) {
    forall i, j :: 0 <= i < j < |ps| && ShareGpu(ps[i], ps[j]) ==> Compatible(ps[i], ps[j])
  }

  /** Some pod on the GPU carries each tag that the row shows. */
  lemma TagHolder(tags: seq<string>, tag: Pod -> string, ps: seq<Pod>, name: string, id: string, t: string)
    returns (k: nat)
    requires TagsAre(tags, tag, ps, name, id) && t in tags
    ensures k < |ps| && UsesGpu(ps[k], name, id) && tag(ps[k]) == t && t != ""
  {
    assert Tagged(tag, t, ps, name, id);
    var q :| q in ps && UsesGpu(q, name, id) && tag(q) == t;
    k :| 0 <= k < |ps| && ps[k] == q;
  }

  lemma TagShown(tags: seq<string>, tag: Pod -> string, ps: seq<Pod>, name: string, id: string, k: nat)
    requires TagsAre(tags, tag, ps, name, id) && k < |ps| && UsesGpu(ps[k], name, id) && tag(ps[k]) != ""
    ensures tag(ps[k]) in tags
  {
    assert Tagged(tag, tag(ps[k]), ps, name, id);
  }

  lemma PairCompatible(ps: seq<Pod>, i: nat, j: nat)
    requires Isolated(ps) && i < |ps| && j < |ps| && i != j && ShareGpu(ps[i], ps[j])
    ensures Compatible(ps[i], ps[j]) || Compatible(ps[j], ps[i])
    ensures Tag(ps[i].exclusion) == Tag(ps[j].exclusion)
    ensures Tag(ps[i].affinity) != "" && Tag(ps[j].affinity) != "" ==> Tag(ps[i].affinity) == Tag(ps[j].affinity)
  {
    if i < j {
      assert Compatible(ps[i], ps[j]);
    } else {
      assert Compatible(ps[j], ps[i]);
    }
  }

  /** A pod that passes the filters of a GPU is compatible with each pod already there. */
  lemma PassedIsCompatible(g: GpuLeft, gpuMem: int, ps: seq<Pod>, name: string, id: string, p: Pod, i: nat)
    requires GpuIs(g, gpuMem, ps, name, id) && Isolated(ps)
    requires i < |ps| && UsesGpu(ps[i], name, id)
    requires p.affinity.Some? ==> p.affinity.value in g.affinity
    requires p.antiAffinity.Some? ==> p.antiAffinity.value !in g.antiAffinity
    requires !Foreign(g, Tag(p.exclusion)) && (Tag(p.exclusion) == "" || !Untagged(g))
    ensures Compatible(ps[i], p)
  {
    var q := ps[i];
    if Tag(q.antiAffinity) != "" {
      TagShown(g.antiAffinity, AntiAffinityOf(), ps, name, id, i);
    }
    if p.affinity.Some? {
      var k := TagHolder(g.affinity, AffinityOf(), ps, name, id, p.affinity.value);
      if k != i { PairCompatible(ps, i, k); }
    }
    if Tag(q.exclusion) != "" {
      TagShown(g.exclusion, ExclusionOf(), ps, name, id, i);
    } else if Tag(p.exclusion) != "" {
      var k := TagHolder(g.exclusion, ExclusionOf(), ps, name, id, g.exclusion[0]);
      if k != i { PairCompatible(ps, i, k); }
    }
  }

  lemma GpuOfPod(gpus: GpuTable, gpuMem: int, name: string, ps: seq<Pod>, i: nat)
    requires GpusAre(gpus, gpuMem, name, ps) && i < |ps| && Uses(ps[i], name)
    ensures ps[i].gpuid in gpus && GpuIs(gpus[ps[i].gpuid], gpuMem, ps, name, ps[i].gpuid)
  {
    assert ps[i] in ps && ps[i].gpuid in Ids(ps, name);
  }

  lemma SameTagsCompatible(q: Pod, p: Pod, best: Candidate)
    requires Compatible(q, p)
    ensures Compatible(q, Place(p, best))
  {
  }

  lemma JoinsCompatibly(r: Resources, gpuMem: int, name: string, ps: seq<Pod>, p: Pod, best: Candidate, i: nat)
    requires GpusAre(r.gpuFree, gpuMem, name, ps) && Isolated(ps) && best.node == name
    requires i < |ps| && ShareGpu(ps[i], Place(p, best))
    requires best.gpuid in r.gpuFree ==> best.gpuid in Unfiltered(r, p)
    requires Welcomes(r.gpuFree, best.gpuid, Tag(p.exclusion))
    ensures Compatible(ps[i], Place(p, best))
  {
    GpuOfPod(r.gpuFree, gpuMem, name, ps, i);
    PassedIsCompatible(r.gpuFree[best.gpuid], gpuMem, ps, name, best.gpuid, p, i);
    SameTagsCompatible(ps[i], p, best);
  }

  /** The exclusion tags of the GPU, if it is in use, let the pod onto it. */
  predicate Welcomes(gpus: GpuTable, id: string, tag: string) {
    id in gpus ==> !Foreign(gpus[id], tag) && (tag == "" || !Untagged(gpus[id]))
  }

  /** A pod on a GPU that does not welcome it meets one that it may not share with. */
  lemma UnwelcomeConflicts(g: GpuLeft, gpuMem: int, ps: seq<Pod>, name: string, id: string, p: Pod) returns (k: nat)
    requires GpuIs(g, gpuMem, ps, name, id) && id in Ids(ps, name)
    requires Foreign(g, Tag(p.exclusion)) || (Tag(p.exclusion) != "" && Untagged(g))
    ensures k < |ps| && UsesGpu(ps[k], name, id) && !Compatible(ps[k], p)
  {
    if Foreign(g, Tag(p.exclusion)) {
      var t :| t in g.exclusion && t != Tag(p.exclusion);
      k := TagHolder(g.exclusion, ExclusionOf(), ps, name, id, t);
    } else {
      var q :| q in ps && Uses(q, name) && q.gpuid == id;
      k :| 0 <= k < |ps| && ps[k] == q;
      if Tag(q.exclusion) != "" {
        TagShown(g.exclusion, ExclusionOf(), ps, name, id, k);
      }
    }
  }

  /** Isolation survives a placement exactly when the GPU that was found welcomes the pod. */
  lemma PlacementIsolatedExactly(nodes: Nodes, ps: seq<Pod>, p: Pod, call: Call)
    requires InitialRows(nodes) && Safe(nodes, ps) && Schedulable(p) && Isolated(ps)
    requires Schedules(nodes, ps, p, call) && FreshWhereFound(ps, call)
    ensures var best := call.end.best;
            best.node in nodes &&
            (Isolated(ps + [Place(p, best)])
             <==> Welcomes(After(nodes[best.node], best.node, call.listed).gpuFree, best.gpuid, Tag(p.exclusion)))
  {
    var best := call.end.best;
    var r := FoundRow(nodes, ps, p, call);
    var gpuMem := nodes[best.node].gpuMemTotal;
    FilteredIsSubset(r, p, call.orders[best.node]);
    if Welcomes(r.gpuFree, best.gpuid, Tag(p.exclusion)) {
      JoinsIsolated(r, gpuMem, best.node, ps, p, best);
    } else {
      var k := UnwelcomeConflicts(r.gpuFree[best.gpuid], gpuMem, ps, best.node, best.gpuid, p);
      ConflictIsNotIsolated(ps, p, best, k);
    }
  }

  lemma ConflictIsNotIsolated(ps: seq<Pod>, p: Pod, best: Candidate, k: nat)
    requires Schedulable(p) && best.node != ""
    requires k < |ps| && UsesGpu(ps[k], best.node, best.gpuid) && !Compatible(ps[k], p)
    ensures !Isolated(ps + [Place(p, best)])
  {
    var qs := ps + [Place(p, best)];
    PlacedUses(p, best);
    assert qs[k] == ps[k] && qs[|ps|] == Place(p, best);
    assert ShareGpu(qs[k], qs[|ps|]);
    assert !Compatible(qs[k], qs[|ps|]);
  }

  lemma JoinsIsolated(r: Resources, gpuMem: int, name: string, ps: seq<Pod>, p: Pod, best: Candidate)
    requires GpusAre(r.gpuFree, gpuMem, name, ps) && Isolated(ps) && best.node == name
    requires best.gpuid in r.gpuFree ==> best.gpuid in Unfiltered(r, p)
    requires Welcomes(r.gpuFree, best.gpuid, Tag(p.exclusion))
    ensures Isolated(ps + [Place(p, best)])
  {
    var qs := ps + [Place(p, best)];
    forall i, j | 0 <= i < j < |qs| && ShareGpu(qs[i], qs[j]) ensures Compatible(qs[i], qs[j]) {
      if j == |ps| {
        JoinsCompatibly(r, gpuMem, name, ps, p, best, i);
      } else {
        assert ShareGpu(ps[i], ps[j]);
      }
    }
  }

  // ----- The exact condition before a call

  /** Another GPU of the row is untagged, so that the filter can stop before it meets g. */
  ghost predicate Shielded(gpus: GpuTable, g: string) {
    exists a :: a in gpus && a != g && Untagged(gpus[a])
  }

  /** The pod fits on g of this node, and may be there. */
  predicate Suits(nodes: Nodes, ps: seq<Pod>, p: Pod, k: string, h: string) {
    k in nodes && HasRoom(RowAt(nodes, ps, k), p, h) && Welcomes(RowAt(nodes, ps, k).gpuFree, h, Tag(p.exclusion))
  }

  /**
   g has room but does not welcome the pod, another GPU shields it from the filter, and no GPU
   anywhere that suits the pod is a tighter fit.
   */
  ghost predicate Slips(nodes: Nodes, ps: seq<Pod>, p: Pod, name: string, g: string) {
    && name in nodes && Tag(p.exclusion) != "" && HasRoom(RowAt(nodes, ps, name), p, g)
    && !Welcomes(RowAt(nodes, ps, name).gpuFree, g, Tag(p.exclusion))
    && Shielded(Unfiltered(RowAt(nodes, ps, name), p), g)
    && forall k, h :: Suits(nodes, ps, p, k, h) ==> FreeReq(nodes, ps, name, g) <= FreeReq(nodes, ps, k, h)
  }

  /** The call can happen and leaves two pods on one GPU that may not share it. */
  ghost predicate Mixes(nodes: Nodes, ps: seq<Pod>, p: Pod, call: Call) {
    Schedules(nodes, ps, p, call) && FreshWhereFound(ps, call) && !Isolated(ps + [Place(p, call.end.best)])
  }

  /** With the shield met first, the filter drops it and nothing else. */
  lemma ShieldOnly(gpus: GpuTable, tag: string, order: seq<string>, a: string)
    requires IsOrder(order, gpus.Keys) && [a] <= order && a in gpus && Untagged(gpus[a]) && tag != ""
    ensures ExclusionLoop(gpus, tag, order) == gpus - {a}
  {
    assert order[0] == a;
  }

  function OneFront(nodes: Nodes, name: string, a: string): map<string, seq<string>> {
    map k | k in nodes :: if k == name then [a] else []
  }

  lemma FrontOfOne(nodes: Nodes, ps: seq<Pod>, p: Pod, name: string, a: string)
    requires name in nodes && a in Unfiltered(RowAt(nodes, ps, name), p)
    ensures Fronts(nodes, ps, p, OneFront(nodes, name, a))
  {
  }

  /** An order of the filter's iterations that lets g through. */
  lemma SlipDraft(nodes: Nodes, ps: seq<Pod>, p: Pod, name: string, g: string) returns (draft: Call)
    requires name in nodes && Tag(p.exclusion) != ""
    requires g in Unfiltered(RowAt(nodes, ps, name), p) && Shielded(Unfiltered(RowAt(nodes, ps, name), p), g)
    ensures draft.listed == ps && Orders(nodes, p, draft)
    ensures g in Filtered(RowAt(nodes, ps, name).gpuFree, p, draft.orders[name])
  {
    var gpus := Unfiltered(RowAt(nodes, ps, name), p);
    var a :| a in gpus && a != g && Untagged(gpus[a]);
    FrontOfOne(nodes, ps, p, name, a);
    draft := Draft(nodes, ps, p, OneFront(nodes, name, a));
    assert OneFront(nodes, name, a)[name] == [a] <= draft.orders[name];
    ShieldOnly(gpus, Tag(p.exclusion), draft.orders[name], a);
  }

  /** An unwelcome GPU that is shielded from the filter can be visited first. */
  lemma SlipIsOffered(nodes: Nodes, ps: seq<Pod>, p: Pod, name: string, g: string, newId: string) returns (call: Call)
    requires Schedulable(p) && Slips(nodes, ps, p, name, g) && FreeReq(nodes, ps, name, g) <= 1000
    ensures Schedules(nodes, ps, p, call) && call.listed == ps && call.newId == newId
    ensures var offer := HoleAt(name, RowAt(nodes, ps, name), JobOf(p), g);
            call.end.best == offer || call.end.best.point < offer.point
  {
    var draft := SlipDraft(nodes, ps, p, name, g);
    call := CanBeFirst(nodes, ps, p, draft, name, g, newId);
  }

  /** A smaller offer than that of a slipping GPU is one of an unwelcome GPU too. */
  lemma SlipIsTaken(nodes: Nodes, ps: seq<Pod>, p: Pod, name: string, g: string, call: Call)
    requires InitialRows(nodes) && Safe(nodes, ps) && Schedulable(p) && Isolated(ps)
    requires Schedules(nodes, ps, p, call) && FreshWhereFound(ps, call) && call.listed == ps
    requires Slips(nodes, ps, p, name, g) && FreeReq(nodes, ps, name, g) <= 1000
    requires var offer := HoleAt(name, RowAt(nodes, ps, name), JobOf(p), g);
             call.end.best == offer || call.end.best.point < offer.point
    ensures Mixes(nodes, ps, p, call)
  {
    var best := call.end.best;
    BestIsHoleOrNew(nodes, ps, p, call);
    if Welcomes(RowAt(nodes, ps, best.node).gpuFree, best.gpuid, Tag(p.exclusion)) {
      assert Suits(nodes, ps, p, best.node, best.gpuid);
      assert false;
    }
    PlacementIsolatedExactly(nodes, ps, p, call);
  }

  // ----- The other half

  /** A GPU that survives the filter though it is not to be kept has a shield. */
  lemma ShieldExists(gpus: GpuTable, tag: string, order: seq<string>, g: string)
    requires IsOrder(order, gpus.Keys) && g in ExclusionLoop(gpus, tag, order) && g !in KeepExclusion(gpus, tag)
    ensures tag != "" && g in gpus && Shielded(gpus, g)
  {
    LoopKeepsWanted(gpus, tag, order);
    if tag == "" || forall a :: a in gpus && a != g ==> !Untagged(gpus[a]) {
      LoopDropsUnwanted(gpus, tag, order, g);
    }
  }

  lemma SameShield(r: Resources, s: Resources, p: Pod, g: string)
    requires SameRow(r, s) && Shielded(Unfiltered(r, p), g)
    ensures Shielded(Unfiltered(s, p), g)
  {
    var a :| a in Unfiltered(r, p) && a != g && Untagged(Unfiltered(r, p)[a]);
    SameView(r, s, p, a);
    assert a in Unfiltered(s, p) && Untagged(Unfiltered(s, p)[a]);
  }

  /** A GPU that suits the pod passes the filters and is offered. */
  lemma SuitSurvives(listed: Resources, r: Resources, p: Pod, order: seq<string>, h: string)
    requires SameRow(listed, r) && IsOrder(order, Unfiltered(listed, p).Keys)
    requires HasRoom(r, p, h) && Welcomes(r.gpuFree, h, Tag(p.exclusion))
    ensures Feasible(listed, JobOf(p))
    ensures var kept := Filtered(listed.gpuFree, p, order);
            h in kept && kept[h].freeReq == r.gpuFree[h].freeReq && Fits(kept[h], JobOf(p))
  {
    SameView(listed, r, p, h);
    assert h in KeepExclusion(Unfiltered(listed, p), Tag(p.exclusion));
    LoopKeepsWanted(Unfiltered(listed, p), Tag(p.exclusion), order);
  }

  lemma SuitInRowIsOffered(nodes: Nodes, ps: seq<Pod>, p: Pod, call: Call, k: string, h: string, r: Resources)
    requires Schedulable(p) && Schedules(nodes, ps, p, call) && k in nodes
    requires SameRow(RowAt(nodes, call.listed, k), r) && HasRoom(r, p, h) && Welcomes(r.gpuFree, h, Tag(p.exclusion))
    ensures call.end.best.point <= r.gpuFree[h].freeReq - JobOf(p).milli
  {
    SuitSurvives(RowAt(nodes, call.listed, k), r, p, call.orders[k], h);
    PassedIsOffered(nodes, ps, p, call, k, h);
  }

  lemma SuitIsOffered(nodes: Nodes, ps: seq<Pod>, p: Pod, call: Call, k: string, h: string)
    requires InitialRows(nodes) && Safe(nodes, ps) && Schedulable(p) && Schedules(nodes, ps, p, call)
    requires Suits(nodes, ps, p, k, h)
    ensures call.end.best.point <= FreeReq(nodes, ps, k, h) - JobOf(p).milli
  {
    RowsAgree(nodes, ps, call.listed, k);
    SuitInRowIsOffered(nodes, ps, p, call, k, h, RowAt(nodes, ps, k));
  }

  /** An unwelcome GPU was found: it was shielded from the filter, and no GPU that suits fits tighter. */
  lemma FoundSlips(nodes: Nodes, ps: seq<Pod>, p: Pod, call: Call)
    requires InitialRows(nodes) && Safe(nodes, ps) && Schedulable(p) && Isolated(ps) && Mixes(nodes, ps, p, call)
    ensures Slips(nodes, ps, p, call.end.best.node, call.end.best.gpuid)
  {
    var name, g := call.end.best.node, call.end.best.gpuid;
    PlacementIsolatedExactly(nodes, ps, p, call);
    UnwelcomeWasShielded(nodes, ps, p, call);
    forall k, h | Suits(nodes, ps, p, k, h) ensures FreeReq(nodes, ps, name, g) <= FreeReq(nodes, ps, k, h) {
      SuitIsOffered(nodes, ps, p, call, k, h);
    }
  }

  lemma UnwelcomeRow(listed: Resources, r: Resources, p: Pod, order: seq<string>, g: string)
    requires SameRow(listed, r) && IsOrder(order, Unfiltered(listed, p).Keys)
    requires HasRoom(listed, p, g) && g in Filtered(listed.gpuFree, p, order)
    requires !Welcomes(listed.gpuFree, g, Tag(p.exclusion))
    ensures Tag(p.exclusion) != "" && HasRoom(r, p, g) && !Welcomes(r.gpuFree, g, Tag(p.exclusion))
    ensures Shielded(Unfiltered(r, p), g) && r.gpuFree[g].freeReq == listed.gpuFree[g].freeReq
  {
    SameView(listed, r, p, g);
    ShieldExists(Unfiltered(listed, p), Tag(p.exclusion), order, g);
    SameShield(listed, r, p, g);
  }

  lemma UnwelcomeWasShielded(nodes: Nodes, ps: seq<Pod>, p: Pod, call: Call)
    requires InitialRows(nodes) && Safe(nodes, ps) && Schedulable(p)
    requires Schedules(nodes, ps, p, call) && FreshWhereFound(ps, call) && call.end.best.node in nodes
    requires !Welcomes(RowAt(nodes, call.listed, call.end.best.node).gpuFree, call.end.best.gpuid, Tag(p.exclusion))
    ensures var name, g := call.end.best.node, call.end.best.gpuid;
            var r := RowAt(nodes, ps, name);
            && Tag(p.exclusion) != "" && HasRoom(r, p, g) && !Welcomes(r.gpuFree, g, Tag(p.exclusion))
            && Shielded(Unfiltered(r, p), g)
            && call.end.best.point == FreeReq(nodes, ps, name, g) - JobOf(p).milli
  {
    var name, g := call.end.best.node, call.end.best.gpuid;
    var listed := FoundRow(nodes, ps, p, call);
    BestIsHoleOrNew(nodes, ps, p, call);
    RowsAgree(nodes, ps, call.listed, name);
    assert FilteredTable(nodes, p, call)[name].gpuFree == Filtered(listed.gpuFree, p, call.orders[name]);
    UnwelcomeRow(listed, RowAt(nodes, ps, name), p, call.orders[name], g);
  }

  /** Some possible call mixes pods that may not share a GPU exactly when some GPU slips. */
  lemma IsolationFailsExactly(nodes: Nodes, ps: seq<Pod>, p: Pod)
    requires InitialRows(nodes) && Safe(nodes, ps) && Schedulable(p) && Isolated(ps)
    ensures (exists call :: Mixes(nodes, ps, p, call)) <==> exists name, g :: Slips(nodes, ps, p, name, g)
  {
    if call :| Mixes(nodes, ps, p, call) {
      FoundSlips(nodes, ps, p, call);
    }
    if name, g :| Slips(nodes, ps, p, name, g) {
      FreeAtMostWhole(nodes, ps, name, g);
      var newId := FreshIdExists(ps);
      var call := SlipIsOffered(nodes, ps, p, name, g, newId);
      SlipIsTaken(nodes, ps, p, name, g, call);
    }
  }
}
