/** A run in which the pool refuses a pod that the scheduler placed. */
module StaleRequest {
  import opened Options
  import RoundRobin
  import opened Accounting
  import opened Filters
  import opened BestFit
  import opened Cluster
  import opened Executions
  import opened Isolation
  import opened Reachability
  import opened JointRuns
  import opened Witnesses
  import C = ClusterRuns
  import P = PoolRuns
  import Pool = GpuPool

  /** A node with one GPU. */
  const ONE := Initial(0, 0, 1, 0)

  function Named(name: string, node: string, g: string): Pod {
    Half(node, g, None).(name := name)
  }

  /** A new node after one pod, and then a second, has registered half of g. */
  function One(g: string): (n: Pool.Node)
    ensures Pool.WellFormed(n)
  {
    Pool.Register(Pool.NewNode({}), g, 0.5, 0.5, 0, "a", 0).node
  }

  function Both(g: string): (n: Pool.Node)
    ensures Pool.WellFormed(n)
  {
    Pool.Register(One(g), g, 0.5, 0.5, 0, "b", 0).node
  }

  function Entry(key: string, port: int): Pool.PodRequest {
    Pool.PodRequest(key, 0.5, 0.5, 0, port)
  }

  lemma Accepted(n: Pool.Node, g: string, key: string)
    requires Pool.WellFormed(n) && Pool.Accepts(n, g, 0.5, key)
    ensures Pool.Register(n, g, 0.5, 0.5, 0, key, 0).node
            == Pool.Push(n, g, Entry(key, Pool.PortOffered(n)), RoundRobin.AfterNext(Pool.PORTS, n.ports))
  {
  }

  lemma OneListed(g: string) returns (p: int)
    ensures One(g).gpus == map[g := Pool.Gpu("", 0.5, 0, [Entry("a", p)])]
  {
    p := Pool.PortOffered(Pool.NewNode({}));
    Accepted(Pool.NewNode({}), g, "a");
    assert [] + [Entry("a", p)] == [Entry("a", p)];
  }

  lemma BothListed(g: string) returns (p: int, r: int)
    ensures Both(g).gpus == map[g := Pool.Gpu("", 1.0, 0, [Entry("a", p), Entry("b", r)])]
  {
    p := OneListed(g);
    r := Pool.PortOffered(One(g));
    assert Pool.Accepts(One(g), g, 0.5, "b");
    Accepted(One(g), g, "b");
    assert [Entry("a", p)] + [Entry("b", r)] == [Entry("a", p), Entry("b", r)];
  }

  /** Two pods that take half of g each, both listed by the pool. */
  function Full(node: string, g: string): State {
    State([Named("a", node, g), Named("b", node, g)], map[node := Both(g)])
  }

  lemma PodsAreSafe(node: string, g: string)
    requires node != ""
    ensures InitialRows(map[node := ONE]) && Safe(map[node := ONE], Full(node, g).ps)
  {
    var ps := Full(node, g).ps;
    SumOfTwo(CpuOn(node), ps[0], ps[1]);
    SumOfTwo(MemOn(node), ps[0], ps[1]);
    SumOfTwo(WholeOn(node), ps[0], ps[1]);
    assert Uses(ps[0], node) && Uses(ps[1], node);
    assert Ids(ps, node) == {g};
    assert Milli(0.5) == 500;
    SumOfTwo(MilliOn(node, g), ps[0], ps[1]);
    assert NodeSafe(ONE, node, ps);
  }

  lemma FullIsSound(node: string, g: string)
    requires node != ""
    ensures Invariant(map[node := ONE], Full(node, g))
  {
    PodsAreSafe(node, g);
    PoolIsSound(node, g);
  }

  lemma PoolIsSound(node: string, g: string)
    ensures P.AllBalanced(map[node := Both(g)]) && PoolKeysDiffer(map[node := Both(g)])
  {
    Pool.RegisterBalances(Pool.NewNode({}), g, 0.5, 0.5, 0, "a", 0);
    Pool.RegisterBalances(One(g), g, 0.5, 0.5, 0, "b", 0);
    forall id ensures Pool.KeysDiffer(Pool.GpuAt(Both(g), id).podList) {
      Pool.RegisterKeysDiffer(Pool.NewNode({}), g, 0.5, 0.5, 0, "a", 0, id);
      Pool.RegisterKeysDiffer(One(g), g, 0.5, 0.5, 0, "b", 0, id);
    }
  }

  // ----- Once b is deleted

  lemma RowOfOne(node: string, g: string)
    requires node != ""
    ensures After(ONE, node, [Named("a", node, g)]) == Resources(0, 0, 1, 0, 0, 0, 0, map[g := Left(None)])
    ensures Ids([Named("a", node, g)], node) == {g}
  {
    var a := Named("a", node, g);
    assert Milli(0.5) == 500 && ReadAsk(a) == Shared(0.5, 0);
    assert [a][..0] == [] && ChargeCpu(ONE, a) == ONE;
    assert After(ONE, node, [a]) == Accounting.Step(ONE, a);
    assert AddTags(GpuLeft(500, 0, [], [], []), a) == Left(None);
    assert Uses(a, node);
  }

  lemma DraftOnG(node: string, g: string, c: Pod) returns (draft: Call)
    requires node != "" && c == Named("c", "", "")
    ensures draft.listed == [Named("a", node, g)] && Orders(map[node := ONE], c, draft)
    ensures FilteredTable(map[node := ONE], c, draft)[node] == Resources(0, 0, 1, 0, 0, 0, 0, map[g := Left(None)])
  {
    var nodes, ps := map[node := ONE], [Named("a", node, g)];
    var r := RowAt(nodes, ps, node);
    RowOfOne(node, g);
    assert Unfiltered(r, c) == r.gpuFree;
    assert CanLead([], Unfiltered(r, c).Keys);
    draft := Draft(nodes, ps, c, map[node := []]);
    LoopIsExact(r.gpuFree, "", draft.orders[node]);
    assert KeepExclusion(r.gpuFree, "") == r.gpuFree;
  }

  lemma JobOfHalf(name: string)
    ensures JobOf(Named(name, "", "")) == Job(0, 0, true, 500, 0)
  {
    assert Milli(0.5) == 500 && ReadAsk(Named(name, "", "")) == Shared(0.5, 0);
  }

  /** The only room is on g, where half is free again as far as the scheduler counts. */
  lemma CallOnG(node: string, g: string, newId: string) returns (call: Call)
    requires node != ""
    ensures Schedules(map[node := ONE], [Named("a", node, g)], Named("c", "", ""), call)
    ensures call.listed == [Named("a", node, g)] && call.newId == newId
    ensures call.end.best == Candidate(0, node, g) || call.end.best.point < 0
  {
    var nodes, ps, c := map[node := ONE], [Named("a", node, g)], Named("c", "", "");
    var draft := DraftOnG(node, g, c);
    var left := FilteredTable(nodes, c, draft)[node];
    JobOfHalf("c");
    assert CanLead([g], left.gpuFree.Keys);
    forall order | IsOrder(order, left.gpuFree.Keys) && [g] <= order
      ensures var offers := Offers(node, left, JobOf(c), newId, order);
              offers != [] && offers[0] == Candidate(0, node, g)
    {
      assert order[0] == g;
      FirstHole(node, left, JobOf(c), order);
    }
    call := CallExists(nodes, ps, c, draft, node, [g], newId, Candidate(0, node, g));
  }

  lemma PlacedOnG(node: string, g: string) returns (call: Call)
    requires node != ""
    ensures Schedules(map[node := ONE], [Named("a", node, g)], Named("c", "", ""), call)
    ensures call.end.best == Candidate(0, node, g) && FreshWhereFound([Named("a", node, g)], call)
  {
    var newId := FreshIdExists([Named("a", node, g)]);
    call := CallOnG(node, g, newId);
    RowOfOne(node, g);
    JobOfHalf("c");
    BestIsHoleOrNew(map[node := ONE], [Named("a", node, g)], Named("c", "", ""), call);
  }

  /** The state after b was deleted and c placed on g: the pool still lists b. */
  function Blocked(node: string, g: string): State {
    State([Named("a", node, g), Named("c", node, g)], map[node := Both(g)])
  }

  lemma DeletionHappens(node: string, g: string, mid: State)
    requires mid == State([Named("a", node, g)], map[node := Both(g)])
    ensures Enabled(map[node := ONE], Full(node, g), JointRuns.Cluster(C.Delete(1)))
    ensures Next(Full(node, g), JointRuns.Cluster(C.Delete(1))) == mid
  {
  }

  lemma PlacementHappens(node: string, g: string, mid: State, call: Call)
    requires mid == State([Named("a", node, g)], map[node := Both(g)])
    requires call.end.best == Candidate(0, node, g) && FreshWhereFound(mid.ps, call)
    requires Schedules(map[node := ONE], mid.ps, Named("c", "", ""), call)
    ensures Enabled(map[node := ONE], mid, JointRuns.Cluster(C.Schedule(Named("c", "", ""), call)))
    ensures Next(mid, JointRuns.Cluster(C.Schedule(Named("c", "", ""), call))) == Blocked(node, g)
  {
    JobOfHalf("c");
  }

  lemma BlockedHappens(node: string, g: string)
    requires node != ""
    ensures Reaches(Steps(map[node := ONE]), NEXT, Full(node, g), Blocked(node, g))
  {
    var mid := State([Named("a", node, g)], map[node := Both(g)]);
    var call := PlacedOnG(node, g);
    var deletion, placement := JointRuns.Cluster(C.Delete(1)), JointRuns.Cluster(C.Schedule(Named("c", "", ""), call));
    DeletionHappens(node, g, mid);
    PlacementHappens(node, g, mid, call);
    TwoSteps(Steps(map[node := ONE]), NEXT, Full(node, g), deletion, mid, placement, Blocked(node, g));
  }

  lemma RefusesC(node: string, g: string)
    requires node != ""
    ensures var c := Named("c", node, g);
            c in Blocked(node, g).ps && Uses(c, node) && Answered(Both(g), c, 0) == 2
  {
    var p, r := BothListed(g);
    Pool.RefusedOnlyPastOne(Both(g), g, 0.5, 0.5, 0, "c", 0);
    assert Blocked(node, g).ps[1] == Named("c", node, g);
  }

  /**
   The deletion of a pod that the pool still lists, and the placement of another one on the room it
   left, are steps that can happen; the pool then refuses the second.
   */
  lemma DeletedPodBlocksPlaced(node: string, g: string)
    requires node != ""
    ensures Invariant(map[node := ONE], Full(node, g))
    ensures Reaches(Steps(map[node := ONE]), NEXT, Full(node, g), Blocked(node, g))
    ensures var c := Named("c", node, g);
            c in Blocked(node, g).ps && Uses(c, node) && Answered(Blocked(node, g).pool[node], c, 0) == 2
  {
    FullIsSound(node, g);
    BlockedHappens(node, g);
    RefusesC(node, g);
  }
}
