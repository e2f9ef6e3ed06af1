/** Small clusters on which a scheduling call breaks what it is meant to keep. */
module Witnesses {
  import opened Options
  import opened Sums
  import opened Accounting
  import opened Filters
  import opened Cluster
  import opened Executions
  import opened Isolation
  import opened GpuMemory

  /** Half a GPU, and nothing else, under the given exclusion tag. */
  function Half(node: string, gpuid: string, exclusion: Option<string>): Pod {
    Pod("pod", node, false, false, false, [], Number(0.5), Number(0.5), Number(0), gpuid, None, None, exclusion)
  }

  function Left(exclusion: Option<string>): GpuLeft {
    GpuLeft(500, 0, [], [], if Tag(exclusion) == "" then [] else [Tag(exclusion)])
  }

  /** A node of two GPUs and nothing else. */
  const TWO := Initial(0, 0, 2, 0)

  lemma StepHalf(r: Resources, node: string, id: string, exclusion: Option<string>)
    requires id !in r.gpuFree && r.gpuFreeCount > 0 && r.gpuMemTotal == 0
    ensures Step(r, Half(node, id, exclusion))
            == r.(gpuFreeCount := r.gpuFreeCount - 1, gpuFree := r.gpuFree[id := Left(exclusion)])
  {
    var p := Half(node, id, exclusion);
    assert Milli(0.5) == 500;
    assert ReadAsk(p) == Shared(0.5, 0);
    assert ChargeCpu(r, p) == r;
    assert [] + [Tag(exclusion)] == [Tag(exclusion)];
    assert AddTags(GpuLeft(500, 0, [], [], []), p) == Left(exclusion);
  }

  /** An untagged pod on GPU a and one tagged y on GPU b. */
  function Residents(node: string, a: string, b: string, y: string): seq<Pod> {
    [Half(node, a, None), Half(node, b, Some(y))]
  }

  lemma Row(node: string, a: string, b: string, y: string)
    requires node != "" && a != b
    ensures After(TWO, node, Residents(node, a, b, y))
            == Resources(0, 0, 2, 0, 0, 0, 0, map[a := Left(None), b := Left(Some(y))])
  {
    var ps := Residents(node, a, b, y);
    assert ps[..1] == [ps[0]] && [ps[0]][..0] == [];
    StepHalf(TWO, node, a, None);
    StepHalf(TWO.(gpuFreeCount := 1, gpuFree := map[a := Left(None)]), node, b, Some(y));
    assert After(TWO, node, ps[..1]) == Step(TWO, ps[0]);
  }

  lemma SumOfTwo(f: Pod -> int, p: Pod, q: Pod)
    ensures Sum(f, [p, q]) == f(p) + f(q)
  {
    assert [p, q][..1] == [p] && [p][..0] == [];
    assert Sum(f, [p]) == Sum(f, []) + f(p);
  }

  lemma ResidentsSafe(node: string, a: string, b: string, y: string)
    requires node != "" && a != b
    ensures var ps := Residents(node, a, b, y);
            NodeSafe(TWO, node, ps) && Ids(ps, node) == {a, b} && ValidPods(ps) && Isolated(ps)
  {
    var ps := Residents(node, a, b, y);
    SumOfTwo(CpuOn(node), ps[0], ps[1]);
    SumOfTwo(MemOn(node), ps[0], ps[1]);
    SumOfTwo(WholeOn(node), ps[0], ps[1]);
    assert Uses(ps[0], node) && Uses(ps[1], node);
    assert Ids(ps, node) == {ps[0].gpuid, ps[1].gpuid};
    assert Milli(0.5) == 500;
    forall id ensures Sum(MilliOn(node, id), ps) <= 1000 {
      SumOfTwo(MilliOn(node, id), ps[0], ps[1]);
    }
  }

  /** On b the pod has room, but not its tag; a, untagged, shields b from the filter; nothing suits. */
  lemma SlipsBehindUntagged(node: string, a: string, b: string, x: string, y: string)
    requires node != "" && a != b && x != "" && y != "" && x != y
    ensures Slips(map[node := TWO], Residents(node, a, b, y), Half("", "", Some(x)), node, b)
  {
    var nodes, ps, p := map[node := TWO], Residents(node, a, b, y), Half("", "", Some(x));
    Row(node, a, b, y);
    var r := RowAt(nodes, ps, node);
    assert Milli(0.5) == 500 && ReadAsk(p) == Shared(0.5, 0);
    assert r.gpuFree[b].exclusion[0] == y && y in r.gpuFree[b].exclusion;
    assert Unfiltered(r, p) == r.gpuFree && Untagged(r.gpuFree[a]);
  }

  /**
   From a safe and isolated state the scheduler can put a pod tagged x on the GPU of a pod tagged
   y: the filter stopped at the untagged GPU a before it reached b.
   */
  lemma BreakMixesTags(node: string, a: string, b: string, x: string, y: string)
    requires node != "" && a != b && x != "" && y != "" && x != y
    ensures var nodes, ps, p := map[node := TWO], Residents(node, a, b, y), Half("", "", Some(x));
            && InitialRows(nodes) && Safe(nodes, ps) && Isolated(ps) && Schedulable(p)
            && exists call :: Mixes(nodes, ps, p, call)
  {
    ResidentsSafe(node, a, b, y);
    SlipsBehindUntagged(node, a, b, x, y);
    IsolationFailsExactly(map[node := TWO], Residents(node, a, b, y), Half("", "", Some(x)));
  }

  /** One byte of GPU memory asked for on an empty node whose GPU has none. */
  lemma NewGpuOverrunsMemory(node: string)
    requires node != ""
    ensures var nodes, p := map[node := Initial(0, 0, 1, 0)], Half("", "", None).(memory := Number(1));
            && InitialRows(nodes) && Safe(nodes, []) && GpuMemSafe(nodes, []) && Schedulable(p)
            && exists call :: Exceeds(nodes, [], p, call)
  {
    var nodes, p := map[node := Initial(0, 0, 1, 0)], Half("", "", None).(memory := Number(1));
    assert ReadAsk(p) == Shared(0.5, 1);
    assert Avoids(RowAt(nodes, [], node), p, true, "");
    assert Overruns(nodes, [], p, node);
    GpuMemFailsExactly(nodes, [], p);
  }
}
