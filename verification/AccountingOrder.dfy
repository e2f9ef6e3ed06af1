/** The order in which the lister returns the pods, and when it does not matter. */
module AccountingOrder {
  import opened Sums
  import opened Accounting

  /** Equal rows but for the order in which tags were first seen. */
  ghost predicate SameGpu(g: GpuLeft, h: GpuLeft) {
    && g.freeReq == h.freeReq && g.freeMem == h.freeMem
    && multiset(g.affinity) == multiset(h.affinity)
    && multiset(g.antiAffinity) == multiset(h.antiAffinity)
    && multiset(g.exclusion) == multiset(h.exclusion)
  }

  ghost predicate SameRow(r: Resources, s: Resources) {
    && r.(gpuFree := map[]) == s.(gpuFree := map[])
    && r.gpuFree.Keys == s.gpuFree.Keys
    && forall id :: id in r.gpuFree ==> SameGpu(r.gpuFree[id], s.gpuFree[id])
  }

  lemma {:induction false} NoDuplicates(s: seq<string>)
    requires forall i, j :: 0 <= i < j < |s| ==> s[i] != s[j]
    ensures forall x :: multiset(s)[x] == if x in s then 1 else 0
  {
    if s != [] {
      var rest := s[..|s| - 1];
      assert s == rest + [s[|s| - 1]];
      NoDuplicates(rest);
    }
  }

  lemma SameTags(s: seq<string>, t: seq<string>, tag: Pod -> string, ps: seq<Pod>, qs: seq<Pod>, name: string,
                 id: string)
    requires TagsAre(s, tag, ps, name, id) && TagsAre(t, tag, qs, name, id)
    requires forall p :: p in ps <==> p in qs
    ensures multiset(s) == multiset(t)
  {
    NoDuplicates(s);
    NoDuplicates(t);
    assert forall x :: Tagged(tag, x, ps, name, id) <==> Tagged(tag, x, qs, name, id);
    assert forall x :: multiset(s)[x] == multiset(t)[x];
  }

  lemma SamePods(ps: seq<Pod>, qs: seq<Pod>, name: string)
    requires multiset(ps) == multiset(qs)
    ensures forall p :: p in ps <==> p in qs
    ensures Ids(ps, name) == Ids(qs, name)
  {
    assert forall p :: p in ps <==> p in multiset(ps);
    assert forall p :: p in qs <==> p in multiset(qs);
  }

  lemma SameGpuRow(g: GpuLeft, h: GpuLeft, gpuMem: int, ps: seq<Pod>, qs: seq<Pod>, name: string, id: string)
    requires GpuIs(g, gpuMem, ps, name, id) && GpuIs(h, gpuMem, qs, name, id)
    requires multiset(ps) == multiset(qs)
    ensures SameGpu(g, h)
  {
    SamePods(ps, qs, name);
    SumReordered(MilliOn(name, id), ps, qs);
    SumReordered(GpuMemOn(name, id), ps, qs);
    SameTags(g.affinity, h.affinity, AffinityOf(), ps, qs, name, id);
    SameTags(g.antiAffinity, h.antiAffinity, AntiAffinityOf(), ps, qs, name, id);
    SameTags(g.exclusion, h.exclusion, ExclusionOf(), ps, qs, name, id);
  }

  /** Two orders of the pods give the same row whenever neither of them has a charge passed over. */
  lemma OrderDoesNotMatter(n: Resources, name: string, ps: seq<Pod>, qs: seq<Pod>)
    requires n.gpuFree == map[] && ValidPods(ps) && multiset(ps) == multiset(qs)
    requires CountsEveryGpu(n, name, ps) && CountsEveryGpu(n, name, qs)
    ensures SameRow(After(n, name, ps), After(n, name, qs))
  {
    SamePods(ps, qs, name);
    SumReordered(WholeOn(name), ps, qs);
    SumReordered(CpuOn(name), ps, qs);
    SumReordered(MemOn(name), ps, qs);
    ClosedForm(n, name, ps);
    ClosedForm(n, name, qs);
    AccountsConserved(n, name, ps);
    AccountsConserved(n, name, qs);
    SameGpuRows(After(n, name, ps).gpuFree, After(n, name, qs).gpuFree, n.gpuMemTotal, name, ps, qs);
  }

  lemma SameGpuRows(gs: map<string, GpuLeft>, hs: map<string, GpuLeft>, gpuMem: int, name: string,
                    ps: seq<Pod>, qs: seq<Pod>)
    requires GpusAre(gs, gpuMem, name, ps) && GpusAre(hs, gpuMem, name, qs) && multiset(ps) == multiset(qs)
    ensures gs.Keys == hs.Keys && forall id :: id in gs ==> SameGpu(gs[id], hs[id])
  {
    SamePods(ps, qs, name);
    forall id | id in gs ensures SameGpu(gs[id], hs[id]) {
      SameGpuRow(gs[id], hs[id], gpuMem, ps, qs, name, id);
    }
  }

  // ----- When some order passes over a charge

  lemma {:induction false} AfterConcat(n: Resources, name: string, s: seq<Pod>, t: seq<Pod>)
    ensures After(n, name, s + t) == After(After(n, name, s), name, t)
  {
    if t == [] {
      assert s + t == s;
    } else {
      AfterConcat(n, name, s, t[..|t| - 1]);
      assert (s + t)[..|s + t| - 1] == s + t[..|t| - 1];
    }
  }

  function Users(ps: seq<Pod>, name: string): seq<Pod> {
    if ps == [] then []
    else Users(ps[..|ps| - 1], name) + if Uses(ps[|ps| - 1], name) then [ps[|ps| - 1]] else []
  }

  function Others(ps: seq<Pod>, name: string): seq<Pod> {
    if ps == [] then []
    else Others(ps[..|ps| - 1], name) + if Uses(ps[|ps| - 1], name) then [] else [ps[|ps| - 1]]
  }

  lemma {:induction false} Partition(ps: seq<Pod>, name: string)
    ensures multiset(Others(ps, name)) + multiset(Users(ps, name)) == multiset(ps)
  {
    if ps != [] {
      var front, last := ps[..|ps| - 1], ps[|ps| - 1];
      Partition(front, name);
      assert ps == front + [last];
      MultisetPushed(front, last);
      if Uses(last, name) {
        MultisetPushed(Users(front, name), last);
        assert Others(ps, name) == Others(front, name);
      } else {
        MultisetPushed(Others(front, name), last);
        assert Users(ps, name) == Users(front, name);
      }
    }
  }

  lemma {:induction false} PartitionUses(ps: seq<Pod>, name: string)
    ensures forall p :: p in Users(ps, name) ==> Uses(p, name)
    ensures forall p :: p in Others(ps, name) ==> !Uses(p, name)
  {
    if ps != [] {
      PartitionUses(ps[..|ps| - 1], name);
    }
  }

  lemma {:induction false} OthersOpenNothing(n: Resources, name: string, ps: seq<Pod>)
    requires forall p :: p in ps ==> !Uses(p, name)
    ensures After(n, name, ps).gpuFree == n.gpuFree
  {
    if ps != [] {
      assert forall p :: p in ps[..|ps| - 1] ==> p in ps;
      assert ps[|ps| - 1] in ps;
      OthersOpenNothing(n, name, ps[..|ps| - 1]);
    }
  }

  lemma {:induction false} UsersStopAtZero(n: Resources, name: string, ps: seq<Pod>)
    requires n.gpuFree == map[] && forall p :: p in ps ==> Uses(p, name)
    ensures After(n, name, ps).gpuFree == map[] || After(n, name, ps).gpuFreeCount >= 0
  {
    if ps != [] {
      assert forall p :: p in ps[..|ps| - 1] ==> p in ps;
      UsersStopAtZero(n, name, ps[..|ps| - 1]);
      StepGpusAny(After(n, name, ps[..|ps| - 1]), ps[|ps| - 1], name);
    }
  }

  /** A charge opens a GPU only while one is free. */
  lemma StepGpusAny(r: Resources, p: Pod, name: string)
    requires Uses(p, name)
    ensures Step(r, p).gpuFreeCount
            == if p.gpuid !in r.gpuFree && r.gpuFreeCount > 0 then r.gpuFreeCount - 1 else r.gpuFreeCount
    ensures p.gpuid !in r.gpuFree && r.gpuFreeCount <= 0 ==> Step(r, p).gpuFree == r.gpuFree
  {
  }

  /** Whole-GPU pods first is the order that leaves the shares the fewest GPUs. */
  lemma WorstOrder(n: Resources, name: string, ps: seq<Pod>)
    requires n.gpuFree == map[]
    ensures var worst := Others(ps, name) + Users(ps, name);
            && multiset(worst) == multiset(ps)
            && (After(n, name, worst).gpuFree.Keys == Ids(ps, name) && Ids(ps, name) != {} ==> GpusSuffice(n, name, ps))
  {
    var worst := Others(ps, name) + Users(ps, name);
    Partition(ps, name);
    PartitionUses(ps, name);
    AfterConcat(n, name, Others(ps, name), Users(ps, name));
    OthersOpenNothing(n, name, Others(ps, name));
    UsersStopAtZero(After(n, name, Others(ps, name)), name, Users(ps, name));
    AccountsConserved(n, name, worst);
    SumReordered(WholeOn(name), worst, ps);
    var r := After(n, name, worst);
    assert |r.gpuFree| == |r.gpuFree.Keys|;
  }

  lemma EnoughInEveryOrder(n: Resources, name: string, ps: seq<Pod>, qs: seq<Pod>)
    requires n.gpuFree == map[] && ValidPods(ps) && multiset(qs) == multiset(ps)
    requires Ids(ps, name) == {} || GpusSuffice(n, name, ps)
    ensures After(n, name, qs).gpuFree.Keys == Ids(ps, name)
  {
    SamePods(ps, qs, name);
    OnlyPodsOpen(n, name, qs);
    if GpusSuffice(n, name, ps) {
      SumReordered(WholeOn(name), ps, qs);
      SufficeCounts(n, name, qs);
    }
  }

  /**
   Every order of the pods accounts for every GPUID in use exactly when none is in use or there are
   enough GPUs: otherwise listing the whole-GPU pods first makes a charge be passed over.
   */
  lemma EveryOrderCountsEveryGpu(n: Resources, name: string, ps: seq<Pod>)
    requires n.gpuFree == map[] && ValidPods(ps)
    ensures (forall qs: seq<Pod> :: multiset(qs) == multiset(ps) ==> CountsEveryGpu(n, name, qs))
            <==> Ids(ps, name) == {} || GpusSuffice(n, name, ps)
  {
    forall qs: seq<Pod> | multiset(qs) == multiset(ps)
      ensures Ids(qs, name) == Ids(ps, name)
      ensures Ids(ps, name) == {} || GpusSuffice(n, name, ps) ==> CountsEveryGpu(n, name, qs)
    {
      SamePods(ps, qs, name);
      if Ids(ps, name) == {} || GpusSuffice(n, name, ps) {
        EnoughInEveryOrder(n, name, ps, qs);
      }
    }
    WorstOrder(n, name, ps);
    if forall qs: seq<Pod> :: multiset(qs) == multiset(ps) ==> CountsEveryGpu(n, name, qs) {
      assert CountsEveryGpu(n, name, Others(ps, name) + Users(ps, name));
    }
  }
}
