/** Every run of placements, ends and deletions: what it keeps, and exactly when. */
module ClusterRuns {
  import opened Sums
  import opened Accounting
  import opened BestFit
  import opened Cluster
  import opened Isolation
  import opened GpuMemory
  import opened Reachability

  // ----- Pods that end or go away

  datatype Event = Schedule(p: Pod, call: Call) | Delete(i: nat) | Finish(i: nat)

  function Next(ps: seq<Pod>, e: Event): seq<Pod> {
    match e
    case Schedule(p, call) => ps + [Place(p, call.end.best)]
    case Delete(i) => if i < |ps| then RemoveAt(ps, i) else ps
    case Finish(i) => if i < |ps| then ps[i := ps[i].(finished := true)] else ps
  }

  /** The step can happen: the call is an execution of the scheduler on the pods that exist. */
  ghost predicate Possible(nodes: Nodes, ps: seq<Pod>, e: Event) {
    match e
    case Schedule(p, call) => Schedulable(p) && Schedules(nodes, ps, p, call) && FreshWhereFound(ps, call)
    case Delete(i) => i < |ps|
    case Finish(i) => i < |ps|
  }

  lemma SumReplaced<T>(f: T -> int, s: seq<T>, i: nat, x: T)
    requires i < |s|
    ensures Sum(f, s[i := x]) == Sum(f, s) - f(s[i]) + f(x)
  {
    SumRemoved(f, s, i);
    SumRemoved(f, s[i := x], i);
    assert RemoveAt(s[i := x], i) == RemoveAt(s, i);
  }

  /** A pod weighs nothing negative, and nothing at all once it has finished. */
  lemma Weights(p: Pod, name: string, id: string)
    requires forall c :: c in p.containers ==> c.cpu >= 0 && c.mem >= 0 && c.gpus >= 0
    ensures CpuOn(name)(p) >= 0 && MemOn(name)(p) >= 0 && WholeOn(name)(p) >= 0
    ensures MilliOn(name, id)(p) >= 0
  {
    SumNonNegative(CpuOf(), p.containers);
    SumNonNegative(MemOf(), p.containers);
    SumNonNegative(GpusOf(), p.containers);
  }

  /** A pod that ends or goes away gives back exactly what it used, on every node and GPU. */
  lemma EndFreesExactly(ps: seq<Pod>, e: Event, name: string, id: string)
    requires !e.Schedule? && e.i < |ps|
    ensures var p, qs := ps[e.i], Next(ps, e);
            && Sum(CpuOn(name), qs) == Sum(CpuOn(name), ps) - CpuOn(name)(p)
            && Sum(MemOn(name), qs) == Sum(MemOn(name), ps) - MemOn(name)(p)
            && Sum(WholeOn(name), qs) == Sum(WholeOn(name), ps) - WholeOn(name)(p)
            && Sum(MilliOn(name, id), qs) == Sum(MilliOn(name, id), ps) - MilliOn(name, id)(p)
            && Sum(GpuMemOn(name, id), qs) == Sum(GpuMemOn(name, id), ps) - GpuMemOn(name, id)(p)
  {
    var over := ps[e.i].(finished := true);
    EndWeighs(CpuOn(name), ps, e.i, over);
    EndWeighs(MemOn(name), ps, e.i, over);
    EndWeighs(WholeOn(name), ps, e.i, over);
    EndWeighs(MilliOn(name, id), ps, e.i, over);
    EndWeighs(GpuMemOn(name, id), ps, e.i, over);
  }

  lemma EndWeighs<T>(f: T -> int, s: seq<T>, i: nat, x: T)
    requires i < |s| && f(x) == 0
    ensures Sum(f, s[i := x]) == Sum(f, s) - f(s[i]) && Sum(f, RemoveAt(s, i)) == Sum(f, s) - f(s[i])
  {
    SumReplaced(f, s, i, x);
    SumRemoved(f, s, i);
  }

  lemma EndWeighsLess<T>(f: T -> int, s: seq<T>, i: nat, x: T)
    requires i < |s| && f(s[i]) >= 0 && f(x) == 0
    ensures Sum(f, s[i := x]) <= Sum(f, s) && Sum(f, RemoveAt(s, i)) <= Sum(f, s)
  {
    SumReplaced(f, s, i, x);
    SumRemoved(f, s, i);
  }

  lemma FewerIds(ps: seq<Pod>, e: Event, name: string)
    requires !e.Schedule? && e.i < |ps|
    ensures Ids(Next(ps, e), name) <= Ids(ps, name)
    ensures |Ids(Next(ps, e), name)| <= |Ids(ps, name)|
  {
    var qs := Next(ps, e);
    forall q | q in qs && Uses(q, name) ensures q in ps {
      assert e.Finish? ==> q != ps[e.i].(finished := true);
    }
    assert Ids(ps, name) == Ids(qs, name) + (Ids(ps, name) - Ids(qs, name));
  }

  lemma EndNodeSafe(n: Resources, name: string, ps: seq<Pod>, e: Event)
    requires ValidPods(ps) && NodeSafe(n, name, ps) && !e.Schedule? && e.i < |ps|
    ensures NodeSafe(n, name, Next(ps, e))
  {
    var over := ps[e.i].(finished := true);
    Weights(ps[e.i], name, "");
    EndWeighsLess(CpuOn(name), ps, e.i, over);
    EndWeighsLess(MemOn(name), ps, e.i, over);
    EndWeighsLess(WholeOn(name), ps, e.i, over);
    FewerIds(ps, e, name);
    forall id | id in Ids(Next(ps, e), name) ensures Sum(MilliOn(name, id), Next(ps, e)) <= 1000 {
      Weights(ps[e.i], name, id);
      EndWeighsLess(MilliOn(name, id), ps, e.i, over);
    }
  }

  /** Where the pod at k of the new list was, unless it is the finished one. */
  lemma EndKeepsPod(ps: seq<Pod>, e: Event, k: nat)
    requires !e.Schedule? && e.i < |ps| && k < |Next(ps, e)|
    requires Uses(Next(ps, e)[k], Next(ps, e)[k].node)
    ensures var k' := if e.Delete? && k >= e.i then k + 1 else k;
            k' < |ps| && Next(ps, e)[k] == ps[k']
  {
  }

  lemma EndIsolated(ps: seq<Pod>, e: Event)
    requires Isolated(ps) && !e.Schedule? && e.i < |ps|
    ensures Isolated(Next(ps, e))
  {
    var qs := Next(ps, e);
    forall i, j | 0 <= i < j < |qs| && ShareGpu(qs[i], qs[j]) ensures Compatible(qs[i], qs[j]) {
      EndKeepsPod(ps, e, i);
      EndKeepsPod(ps, e, j);
      var i' := if e.Delete? && i >= e.i then i + 1 else i;
      var j' := if e.Delete? && j >= e.i then j + 1 else j;
      assert ShareGpu(ps[i'], ps[j']);
    }
  }

  /** GPU memory is only given back. */
  lemma EndGpuMem(nodes: Nodes, ps: seq<Pod>, e: Event)
    requires GpuMemSafe(nodes, ps) && !e.Schedule? && e.i < |ps|
    ensures GpuMemSafe(nodes, Next(ps, e))
  {
    var over := ps[e.i].(finished := true);
    forall name, id | name in nodes ensures MemFits(nodes[name], Next(ps, e), name, id) {
      assert MemFits(nodes[name], ps, name, id);
      FewerIds(ps, e, name);
      EndWeighsLess(GpuMemOn(name, id), ps, e.i, over);
    }
  }

  lemma EndValid(ps: seq<Pod>, e: Event)
    requires ValidPods(ps) && !e.Schedule? && e.i < |ps|
    ensures ValidPods(Next(ps, e))
  {
    forall q, c | q in Next(ps, e) && c in q.containers ensures c.cpu >= 0 && c.mem >= 0 && c.gpus >= 0 {
      var p := if e.Finish? && q !in ps then ps[e.i] else q;
      assert p in ps && c in p.containers;
    }
  }

  lemma StepIsSafe(nodes: Nodes, ps: seq<Pod>, e: Event)
    requires InitialRows(nodes) && Safe(nodes, ps) && Possible(nodes, ps, e)
    ensures Safe(nodes, Next(ps, e))
  {
    if e.Schedule? {
      PlacementIsSafe(nodes, ps, e.p, e.call);
    } else {
      EndValid(ps, e);
      forall name | name in nodes ensures NodeSafe(nodes[name], name, Next(ps, e)) {
        EndNodeSafe(nodes[name], name, ps, e);
      }
    }
  }

  // ----- Runs

  /** The steps that can happen when users submit only these pods. */
  ghost function Steps(nodes: Nodes, pods: iset<Pod>): iset<(seq<Pod>, Event)> {
    iset s: (seq<Pod>, Event) | Possible(nodes, s.0, s.1) && (s.1.Schedule? ==> s.1.p in pods)
  }

  const NEXT: (seq<Pod>, Event) -> seq<Pod> := (ps, e) => Next(ps, e)

  ghost predicate Runs(nodes: Nodes, pods: iset<Pod>, ps: seq<Pod>, es: seq<Event>, ps': seq<Pod>) {
    Run(Steps(nodes, pods), NEXT, ps, es, ps')
  }

  ghost predicate Arises(nodes: Nodes, pods: iset<Pod>, ps: seq<Pod>, qs: seq<Pod>) {
    Reaches(Steps(nodes, pods), NEXT, ps, qs)
  }

  /** Closed-loop safety of every run of placements, ends and deletions. */
  lemma {:induction false} EveryRunIsSafe(nodes: Nodes, pods: iset<Pod>, ps: seq<Pod>, es: seq<Event>, ps': seq<Pod>)
    requires InitialRows(nodes) && Safe(nodes, ps) && Runs(nodes, pods, ps, es, ps')
    ensures Safe(nodes, ps')
    decreases |es|
  {
    if es != [] {
      StepIsSafe(nodes, ps, es[0]);
      EveryRunIsSafe(nodes, pods, Next(ps, es[0]), es[1..], ps');
    }
  }

  // ----- Isolation over runs

  /** In no state of the run does a GPU slip for the pod that is placed next. */
  ghost predicate NoneSlips(nodes: Nodes, ps: seq<Pod>, es: seq<Event>)
    decreases |es|
  {
    es == [] ||
    (&& (es[0].Schedule? ==> !exists name, g :: Slips(nodes, ps, es[0].p, name, g))
     && NoneSlips(nodes, Next(ps, es[0]), es[1..]))
  }

  /** Tag isolation of every run in which no GPU slips. */
  lemma {:induction false} EveryRunIsIsolated(nodes: Nodes, pods: iset<Pod>, ps: seq<Pod>, es: seq<Event>,
                                              ps': seq<Pod>)
    requires InitialRows(nodes) && Safe(nodes, ps) && Isolated(ps)
    requires Runs(nodes, pods, ps, es, ps') && NoneSlips(nodes, ps, es)
    ensures Isolated(ps')
    decreases |es|
  {
    if es != [] {
      StepIsSafe(nodes, ps, es[0]);
      if es[0].Schedule? {
        IsolationFailsExactly(nodes, ps, es[0].p);
        assert !Mixes(nodes, ps, es[0].p, es[0].call);
      } else {
        EndIsolated(ps, es[0]);
      }
      EveryRunIsIsolated(nodes, pods, Next(ps, es[0]), es[1..], ps');
    }
  }

  /** No GPU slips for one of these pods, in any state that arises. */
  ghost predicate NeverSlips(nodes: Nodes, pods: iset<Pod>, ps: seq<Pod>) {
    forall qs, p, name, g :: Arises(nodes, pods, ps, qs) && p in pods && Schedulable(p) ==>
      !Slips(nodes, qs, p, name, g)
  }

  lemma ArisesSafe(nodes: Nodes, pods: iset<Pod>, ps: seq<Pod>, qs: seq<Pod>)
    requires InitialRows(nodes) && Safe(nodes, ps) && Arises(nodes, pods, ps, qs)
    ensures Safe(nodes, qs)
  {
    var es :| Run(Steps(nodes, pods), NEXT, ps, es, qs);
    EveryRunIsSafe(nodes, pods, ps, es, qs);
  }

  /** A step leads out of the isolated states only where a GPU slips, and there some step does. */
  lemma IsolatedStep(nodes: Nodes, ps: seq<Pod>, e: Event)
    requires InitialRows(nodes) && Safe(nodes, ps) && Isolated(ps) && Possible(nodes, ps, e)
    ensures !Isolated(Next(ps, e)) ==> e.Schedule? && exists name, g :: Slips(nodes, ps, e.p, name, g)
  {
    if e.Schedule? {
      IsolationFailsExactly(nodes, ps, e.p);
      assert !Isolated(Next(ps, e)) ==> Mixes(nodes, ps, e.p, e.call);
    } else {
      EndIsolated(ps, e);
    }
  }

  lemma SlipStep(nodes: Nodes, ps: seq<Pod>, p: Pod, name: string, g: string) returns (e: Event)
    requires InitialRows(nodes) && Safe(nodes, ps) && Isolated(ps) && Schedulable(p) && Slips(nodes, ps, p, name, g)
    ensures e.Schedule? && e.p == p && Possible(nodes, ps, e) && !Isolated(Next(ps, e))
  {
    IsolationFailsExactly(nodes, ps, p);
    var call :| Mixes(nodes, ps, p, call);
    e := Schedule(p, call);
  }

  /** Every state that arises is isolated exactly when no GPU slips in any of them. */
  lemma RunsStayIsolatedExactly(nodes: Nodes, pods: iset<Pod>, ps: seq<Pod>)
    requires InitialRows(nodes) && Safe(nodes, ps) && Isolated(ps)
    ensures (forall qs :: Arises(nodes, pods, ps, qs) ==> Isolated(qs)) <==> NeverSlips(nodes, pods, ps)
  {
    var steps, keep := Steps(nodes, pods), iset qs: seq<Pod> | Isolated(qs);
    StaysInsideExactly(steps, NEXT, ps, keep);
    assert (forall qs :: Arises(nodes, pods, ps, qs) ==> Isolated(qs))
           <==> forall qs :: Reaches(steps, NEXT, ps, qs) ==> qs in keep;
    if NeverSlips(nodes, pods, ps) {
      forall qs, e | Reaches(steps, NEXT, ps, qs) && qs in keep && (qs, e) in steps ensures NEXT(qs, e) in keep {
        assert Arises(nodes, pods, ps, qs);
        ArisesSafe(nodes, pods, ps, qs);
        IsolatedStep(nodes, qs, e);
      }
    }
    if qs, p, name, g :| Arises(nodes, pods, ps, qs) && p in pods && Schedulable(p) && Slips(nodes, qs, p, name, g) {
      ArisesSafe(nodes, pods, ps, qs);
      if qs in keep {
        var e := SlipStep(nodes, qs, p, name, g);
        assert (qs, e) in steps && NEXT(qs, e) !in keep;
      }
    }
  }

  // ----- GPU memory over runs

  /** None of these pods asks for more GPU memory than a whole GPU of any node has. */
  ghost predicate AsksFit(nodes: Nodes, pods: iset<Pod>) {
    forall p, name :: p in pods && name in nodes ==> JobOf(p).gpuMem <= nodes[name].gpuMemTotal
  }

  /** GPU memory stays within its total over every run of such pods. */
  lemma {:induction false} EveryRunKeepsGpuMem(nodes: Nodes, pods: iset<Pod>, ps: seq<Pod>, es: seq<Event>,
                                               ps': seq<Pod>)
    requires InitialRows(nodes) && Safe(nodes, ps) && GpuMemSafe(nodes, ps)
    requires Runs(nodes, pods, ps, es, ps') && AsksFit(nodes, pods)
    ensures GpuMemSafe(nodes, ps')
    decreases |es|
  {
    if es != [] {
      StepIsSafe(nodes, ps, es[0]);
      if es[0].Schedule? {
        PlacementGpuMem(nodes, ps, es[0].p, es[0].call);
      } else {
        EndGpuMem(nodes, ps, es[0]);
      }
      EveryRunKeepsGpuMem(nodes, pods, Next(ps, es[0]), es[1..], ps');
    }
  }

  /** No node overruns for one of these pods, in any state that arises. */
  ghost predicate NeverOverruns(nodes: Nodes, pods: iset<Pod>, ps: seq<Pod>) {
    forall qs, p, m :: Arises(nodes, pods, ps, qs) && p in pods && Schedulable(p) ==> !Overruns(nodes, qs, p, m)
  }

  lemma GpuMemStep(nodes: Nodes, ps: seq<Pod>, e: Event)
    requires InitialRows(nodes) && Safe(nodes, ps) && GpuMemSafe(nodes, ps) && Possible(nodes, ps, e)
    ensures !GpuMemSafe(nodes, Next(ps, e)) ==> e.Schedule? && exists m :: Overruns(nodes, ps, e.p, m)
  {
    if e.Schedule? {
      GpuMemFailsExactly(nodes, ps, e.p);
      assert !GpuMemSafe(nodes, Next(ps, e)) ==> Exceeds(nodes, ps, e.p, e.call);
    } else {
      EndGpuMem(nodes, ps, e);
    }
  }

  lemma OverrunStep(nodes: Nodes, ps: seq<Pod>, p: Pod, m: string) returns (e: Event)
    requires InitialRows(nodes) && Safe(nodes, ps) && GpuMemSafe(nodes, ps) && Schedulable(p)
             && Overruns(nodes, ps, p, m)
    ensures e.Schedule? && e.p == p && Possible(nodes, ps, e) && !GpuMemSafe(nodes, Next(ps, e))
  {
    GpuMemFailsExactly(nodes, ps, p);
    var call :| Exceeds(nodes, ps, p, call);
    e := Schedule(p, call);
  }

  /** Every state that arises keeps GPU memory within its total exactly when no node overruns in any of them. */
  lemma RunsKeepGpuMemExactly(nodes: Nodes, pods: iset<Pod>, ps: seq<Pod>)
    requires InitialRows(nodes) && Safe(nodes, ps) && GpuMemSafe(nodes, ps)
    ensures (forall qs :: Arises(nodes, pods, ps, qs) ==> GpuMemSafe(nodes, qs)) <==> NeverOverruns(nodes, pods, ps)
  {
    var steps, keep := Steps(nodes, pods), iset qs: seq<Pod> | GpuMemSafe(nodes, qs);
    StaysInsideExactly(steps, NEXT, ps, keep);
    assert (forall qs :: Arises(nodes, pods, ps, qs) ==> GpuMemSafe(nodes, qs))
           <==> forall qs :: Reaches(steps, NEXT, ps, qs) ==> qs in keep;
    if NeverOverruns(nodes, pods, ps) {
      forall qs, e | Reaches(steps, NEXT, ps, qs) && qs in keep && (qs, e) in steps ensures NEXT(qs, e) in keep {
        assert Arises(nodes, pods, ps, qs);
        ArisesSafe(nodes, pods, ps, qs);
        GpuMemStep(nodes, qs, e);
      }
    }
    if qs, p, m :| Arises(nodes, pods, ps, qs) && p in pods && Schedulable(p) && Overruns(nodes, qs, p, m) {
      ArisesSafe(nodes, pods, ps, qs);
      if qs in keep {
        var e := OverrunStep(nodes, qs, p, m);
        assert (qs, e) in steps && NEXT(qs, e) !in keep;
      }
    }
  }
}
