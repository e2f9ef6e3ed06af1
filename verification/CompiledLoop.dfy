/** What the compiled accounting loop, whose GPU branch is never reached, does to the closed loop. */
module CompiledLoop {
  import opened Options
  import opened Sums
  import opened Accounting
  import opened BestFit

  /** A list of GPU pods leaves the row of an empty node: neither CPU, memory nor GPU is charged. */
  lemma {:induction false} CompiledIgnoresGpuPods(n: Resources, name: string, ps: seq<Pod>)
    requires forall p :: p in ps ==> !p.request.Missing?
    ensures Compiled(n, name, ps) == n
  {
    if ps != [] {
      assert forall p :: p in ps[..|ps| - 1] ==> p in ps;
      assert ps[|ps| - 1] in ps;
      CompiledIgnoresGpuPods(n, name, ps[..|ps| - 1]);
    }
  }

  // ----- The compiled row, read off the pods

  /** The GPU branch's own charge: only of pods that a SharePod owns and that name no request. */
  predicate ChargedInBranch(p: Pod, name: string) {
    p.node == name && name != "" && !p.dummy && p.request.Missing? && p.owned
  }

  /** The charge of the branch for other pods, which those pods fall through to. */
  predicate ChargedAfter(p: Pod, name: string) {
    p.node == name && name != "" && !p.dummy && p.request.Missing? && !p.finished
    && (p.owned ==> p.limit.Missing? && p.memory.Missing? && p.gpuid == "")
  }

  function CompiledCpuOn(name: string): Pod -> int {
    (p: Pod) =>
      (if ChargedInBranch(p, name) then Sum(CpuOf(), p.containers) else 0)
      + if ChargedAfter(p, name) then Sum(CpuOf(), p.containers) else 0
  }

  function CompiledMemOn(name: string): Pod -> int {
    (p: Pod) =>
      (if ChargedInBranch(p, name) then Sum(MemOf(), p.containers) else 0)
      + if ChargedAfter(p, name) then Sum(MemOf(), p.containers) else 0
  }

  function CompiledWholeOn(name: string): Pod -> int {
    (p: Pod) => if ChargedAfter(p, name) then Sum(GpusOf(), p.containers) else 0
  }

  /** Pods with a request are charged nothing, owned ones without a request may be charged twice. */
  lemma {:induction false} CompiledCharges(n: Resources, name: string, ps: seq<Pod>)
    ensures Compiled(n, name, ps) == n.(cpuFree := n.cpuFree - Sum(CompiledCpuOn(name), ps),
                                        memFree := n.memFree - Sum(CompiledMemOn(name), ps),
                                        gpuFreeCount := n.gpuFreeCount - Sum(CompiledWholeOn(name), ps))
  {
    if ps != [] {
      CompiledCharges(n, name, ps[..|ps| - 1]);
    }
  }

  /** No pod that shares a GPU finds one free: there is none, or whole-GPU pods before it took them all. */
  ghost predicate NoneFindsFree(n: Resources, name: string, ps: seq<Pod>) {
    forall i :: 0 <= i < |ps| && Uses(ps[i], name) ==> n.gpuFreeCount <= Sum(WholeOn(name), ps[..i])
  }

  lemma NoneFindsFreePushed(n: Resources, name: string, ps: seq<Pod>)
    requires ps != []
    ensures var front := ps[..|ps| - 1];
            NoneFindsFree(n, name, ps)
            <==> NoneFindsFree(n, name, front)
                 && (Uses(ps[|ps| - 1], name) ==> n.gpuFreeCount <= Sum(WholeOn(name), front))
  {
    var front, last := ps[..|ps| - 1], |ps| - 1;
    assert forall i :: 0 <= i < last ==> front[i] == ps[i] && front[..i] == ps[..i];
  }

  /** The accounting opens no GPU exactly when no pod that shares one finds one free. */
  lemma {:induction false} OpensNothingExactly(n: Resources, name: string, ps: seq<Pod>)
    requires n.gpuFree == map[]
    ensures After(n, name, ps).gpuFree == map[] <==> NoneFindsFree(n, name, ps)
  {
    if ps != [] {
      OpensNothingExactly(n, name, ps[..|ps| - 1]);
      AccountsConserved(n, name, ps[..|ps| - 1]);
      NoneFindsFreePushed(n, name, ps);
    }
  }

  /**
   The two rows are the same exactly when no pod that shares a GPU finds one free and the charged
   CPU, memory and whole GPUs add up to the same.
   */
  lemma CompiledAgreesExactly(n: Resources, name: string, ps: seq<Pod>)
    requires n.gpuFree == map[]
    ensures Compiled(n, name, ps) == After(n, name, ps)
            <==> && NoneFindsFree(n, name, ps)
                 && Sum(CompiledCpuOn(name), ps) == Sum(CpuOn(name), ps)
                 && Sum(CompiledMemOn(name), ps) == Sum(MemOn(name), ps)
                 && Sum(CompiledWholeOn(name), ps) == Sum(WholeOn(name), ps)
  {
    CompiledCharges(n, name, ps);
    AccountsConserved(n, name, ps);
    OpensNothingExactly(n, name, ps);
  }

  // ----- A node that never fills

  /** A GPU pod that asks for all of one GPU and nothing else. */
  function WholeShare(node: string, id: string): Pod {
    Pod("pod", node, false, false, false, [], Number(1.0), Number(1.0), Number(0), id, None, None, None)
  }

  function Id(k: nat): string {
    seq(k, _ => 'g')
  }

  function Shares(name: string, k: nat): seq<Pod> {
    if k == 0 then [] else Shares(name, k - 1) + [WholeShare(name, Id(k))]
  }

  lemma ShareUses(name: string, id: string)
    requires name != ""
    ensures Uses(WholeShare(name, id), name)
  {
  }

  lemma SharesPushed(name: string, k: nat)
    requires name != "" && k > 0
    ensures Ids(Shares(name, k), name) == Ids(Shares(name, k - 1), name) + {Id(k)}
  {
    var ps := Shares(name, k);
    assert ps[..|ps| - 1] == Shares(name, k - 1) && ps[|ps| - 1] == WholeShare(name, Id(k));
    LastPod(ps, name);
    ShareUses(name, Id(k));
  }

  ghost predicate ShortIds(ids: set<string>, k: nat) {
    |ids| == k && forall id :: id in ids ==> |id| <= k
  }

  lemma LongerId(ids: set<string>, k: nat)
    requires ShortIds(ids, k)
    ensures ShortIds(ids + {Id(k + 1)}, k + 1)
  {
    assert |Id(k + 1)| == k + 1;
    assert Id(k + 1) !in ids;
  }

  lemma {:induction false} ShareIds(name: string, k: nat) returns (ids: set<string>)
    requires name != ""
    ensures ids == Ids(Shares(name, k), name) && ShortIds(ids, k)
  {
    if k == 0 {
      ids := {};
      assert Ids([], name) == {};
    } else {
      var fewer := ShareIds(name, k - 1);
      LongerId(fewer, k - 1);
      SharesPushed(name, k);
      ids := fewer + {Id(k)};
    }
  }

  lemma {:induction false} ShareRequests(name: string, k: nat)
    ensures forall p :: p in Shares(name, k) ==> p.request.Number?
  {
    if k > 0 {
      ShareRequests(name, k - 1);
    }
  }

  lemma OneOffer(name: string, offer: Candidate, picks: seq<string>, end: Race)
    requires Runs(Race(NONE, map[name := [offer]]), picks, end) && Finished(end) && offer.point < MAX_POINT
    ensures end.best == offer
  {
    var start := Race(NONE, map[name := [offer]]);
    EveryInterleavingFindsTheBest(start.rest, picks, end);
    assert offer in start.rest[name];
    assert Pending(start, offer);
    assert forall c :: Pending(start, c) ==> c == offer;
  }

  /**
   With the compiled loop a node with one GPU never fills: after any number k of pods that each took
   a whole GPU of it, every search over it ends with yet another new GPU.
   */
  lemma CompiledNeverFills(n: Resources, name: string, k: nat, unplaced: Pod, picks: seq<string>, end: Race)
    requires name != "" && n.gpuFree == map[] && n.gpuFreeCount == 1 && n.cpuFree >= 0 && n.memFree >= 0
    requires unplaced == WholeShare("", "")
    requires var row := Compiled(n, name, Shares(name, k));
             && Runs(Race(NONE, map[name := Offers(name, row, JobOf(unplaced), Id(k + 1), [])]), picks, end)
             && Finished(end)
    ensures |Ids(Shares(name, k), name)| == k
    ensures end.best == FreshAt(name, JobOf(unplaced), Id(k + 1))
    ensures Shares(name, k + 1) == Shares(name, k) + [unplaced.(node := end.best.node, gpuid := end.best.gpuid)]
  {
    var ids := ShareIds(name, k);
    ShareRequests(name, k);
    CompiledIgnoresGpuPods(n, name, Shares(name, k));
    var offer := FreshAt(name, JobOf(unplaced), Id(k + 1));
    assert JobOf(unplaced) == Job(0, 0, true, 1000, 0);
    assert Offers(name, n, JobOf(unplaced), Id(k + 1), []) == [offer];
    OneOffer(name, offer, picks, end);
  }
}
