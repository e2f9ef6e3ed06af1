/** pkg/scheduler: the mutable table of node resources, and the loops that charge, filter and search it. */
module SchedulerObjects {
  import opened Options
  import opened Text
  import opened Accounting
  import opened Filters
  import opened BestFit

  /** The isFound loop over a tag list. */
  method AppendTag(tags: seq<string>, tag: string) returns (tags': seq<string>)
    ensures tags' == AddTag(tags, tag)
  {
    if tag == "" {
      return tags;
    }
    var isFound := false;
    for i := 0 to |tags|
      invariant isFound <==> tag in tags[..i]
    {
      if tags[i] == tag {
        isFound := true;
        break;
      }
    }
    tags' := if isFound then tags else tags + [tag];
  }

  /** Visits the keys of a map in some order. */
  method Iterate(keys: set<string>) returns (order: seq<string>)
    ensures IsOrder(order, keys)
  {
    order := [];
    var todo := keys;
    while todo != {}
      invariant todo <= keys && IsOrder(order, keys - todo)
      decreases todo
    {
      var id :| id in todo;
      todo := todo - {id};
      order := order + [id];
    }
  }

  /** The best node so far; its lock makes TryBestNode one step. */
  class BestNode {
    var Point: int
    var NodeName: string
    var GPUID: string

    constructor ()
      ensures State() == NONE
    {
      Point, NodeName, GPUID := MAX_POINT, "", "";
    }

    function State(): Candidate
      reads this
    {
      Candidate(Point, NodeName, GPUID)
    }

    method TryBestNode(point: int, nodeName: string, gpuid: string)
      modifies this
      ensures State() == Try(old(State()), Candidate(point, nodeName, gpuid))
    {
      if point < Point {
        Point, NodeName, GPUID := point, nodeName, gpuid;
      }
    }
  }

  class NodeResource {
    const name: string
    const CpuTotal: int
    const MemTotal: int
    const GpuTotal: int
    const GpuMemTotal: int
    var CpuFree: int
    var MemFree: int
    var GpuFreeCount: int
    var GpuFree: map<string, GpuLeft>

    constructor (name: string, cpu: int, mem: int, gpus: int, gpuMem: int)
      ensures this.name == name && State() == Initial(cpu, mem, gpus, gpuMem)
    {
      this.name := name;
      CpuTotal, MemTotal, GpuTotal, GpuMemTotal := cpu, mem, gpus, gpuMem;
      CpuFree, MemFree, GpuFreeCount, GpuFree := cpu, mem, gpus, map[];
    }

    function State(): Resources
      reads this
    {
      Resources(CpuTotal, MemTotal, GpuTotal, GpuMemTotal, CpuFree, MemFree, GpuFreeCount, GpuFree)
    }

    /** The loop over a pod's containers, with or without the whole GPUs they ask for. */
    method ChargeContainers(p: Pod, whole: bool)
      modifies this
      ensures State() == if whole then ChargeWhole(old(State()), p) else ChargeCpu(old(State()), p)
    {
      var cs := p.containers;
      for i := 0 to |cs|
        invariant GpuFree == old(GpuFree)
        invariant CpuFree == old(CpuFree) - Cpu(cs[..i]) && MemFree == old(MemFree) - Mem(cs[..i])
        invariant GpuFreeCount == old(GpuFreeCount) - if whole then Gpus(cs[..i]) else 0
      {
        assert cs[..i + 1][..i] == cs[..i];
        CpuFree := CpuFree - cs[i].cpu;
        MemFree := MemFree - cs[i].mem;
        if whole {
          GpuFreeCount := GpuFreeCount - cs[i].gpus;
        }
      }
      assert cs[..|cs|] == cs;
    }

    /** The GPU branch: open or charge the GPU, then add the pod's tags to it. */
    method ChargeSharedGpu(p: Pod, request: real, mem: int)
      modifies this
      ensures State() == ChargeGpu(old(State()), p, request, mem)
    {
      if p.gpuid !in GpuFree {
        if GpuFreeCount > 0 {
          GpuFreeCount := GpuFreeCount - 1;
          GpuFree := GpuFree[p.gpuid := GpuLeft(1000 - Milli(request), GpuMemTotal - mem, [], [], [])];
        } else {
          return;
        }
      } else {
        var g := GpuFree[p.gpuid];
        GpuFree := GpuFree[p.gpuid := g.(freeReq := g.freeReq - Milli(request), freeMem := g.freeMem - mem)];
      }
      var g := GpuFree[p.gpuid];
      var affinity := AppendTag(g.affinity, Tag(p.affinity));
      var antiAffinity := AppendTag(g.antiAffinity, Tag(p.antiAffinity));
      var exclusion := AppendTag(g.exclusion, Tag(p.exclusion));
      g := g.(affinity := affinity, antiAffinity := antiAffinity, exclusion := exclusion);
      GpuFree := GpuFree[p.gpuid := g];
    }

    /** One pod on this node, as the GPU branch and the branch for other pods charge it. */
    method ChargePod(p: Pod)
      modifies this
      ensures State() == Step(old(State()), p)
    {
      if p.finished {
        return;
      }
      var shared := p.owned || !p.request.Missing?;
      ChargeContainers(p, !shared);
      if shared {
        match ReadAsk(p) {
          case Shared(request, mem) => ChargeSharedGpu(p, request, mem);
          case _ =>
        }
      }
    }

    /** GPUAffinityFilter on this node. */
    method FilterAffinity(annotation: Option<string>)
      modifies this`GpuFree
      ensures GpuFree == KeepAffinity(old(GpuFree), annotation)
    {
      if annotation.None? {
        return;
      }
      ghost var before := GpuFree;
      var todo := GpuFree.Keys;
      while todo != {}
        invariant todo <= before.Keys
        invariant GpuFree == map id | && id in before
                                      && (id in todo || annotation.value in before[id].affinity) :: before[id]
        decreases todo
      {
        var id :| id in todo;
        todo := todo - {id};
        if annotation.value !in GpuFree[id].affinity {
          GpuFree := GpuFree - {id};
        }
      }
    }

    /** GPUAntiAffinityFilter on this node. */
    method FilterAntiAffinity(annotation: Option<string>)
      modifies this`GpuFree
      ensures GpuFree == KeepAntiAffinity(old(GpuFree), annotation)
    {
      if annotation.None? {
        return;
      }
      ghost var before := GpuFree;
      var todo := GpuFree.Keys;
      while todo != {}
        invariant todo <= before.Keys
        invariant GpuFree == map id | && id in before
                                      && (id in todo || annotation.value !in before[id].antiAffinity) :: before[id]
        decreases todo
      {
        var id :| id in todo;
        todo := todo - {id};
        if annotation.value in GpuFree[id].antiAffinity {
          GpuFree := GpuFree - {id};
        }
      }
    }

    /** GPUExclusionFilter on this node, with the break that ends its loop. */
    method FilterExclusion(annotation: Option<string>) returns (ghost order: seq<string>)
      modifies this`GpuFree
      ensures IsOrder(order, old(GpuFree).Keys)
      ensures GpuFree == ExclusionLoop(old(GpuFree), Tag(annotation), order)
    {
      var tag := Tag(annotation);
      var ids := Iterate(GpuFree.Keys);
      order := ids;
      for i := 0 to |ids|
        invariant forall j :: i <= j < |ids| ==> ids[j] in GpuFree
        invariant forall j, k :: 0 <= j < k < |ids| ==> ids[j] != ids[k]
        invariant ExclusionLoop(old(GpuFree), tag, ids) == ExclusionLoop(GpuFree, tag, ids[i..])
      {
        assert ids[i..][0] == ids[i] && ids[i..][1..] == ids[i + 1..];
        if tag != "" && |GpuFree[ids[i]].exclusion| == 0 {
          GpuFree := GpuFree - {ids[i]};
          return;
        }
        var foreign := HasForeignTag(GpuFree[ids[i]], tag);
        if foreign {
          GpuFree := GpuFree - {ids[i]};
        }
      }
    }

    /** The loop over the GPUs in use: offer each that fits. */
    method OfferHoles(job: Job, ids: seq<string>, best: BestNode) returns (findTheHole: bool)
      requires forall id :: id in ids ==> id in GpuFree
      modifies best
      ensures best.State() == TryAll(old(best.State()), Holes(name, State(), job, ids))
      ensures findTheHole <==> Holes(name, State(), job, ids) != []
    {
      findTheHole := false;
      ghost var r, start := State(), best.State();
      ghost var offers := [];
      for i := 0 to |ids|
        invariant offers == Holes(name, r, job, ids[..i])
        invariant best.State() == TryAll(start, offers)
        invariant findTheHole <==> offers != []
      {
        HolesPushed(name, r, job, ids[..i], ids[i]);
        assert ids[..i + 1] == ids[..i] + [ids[i]];
        var gpu := GpuFree[ids[i]];
        if gpu.freeReq < job.milli || gpu.freeMem < job.gpuMem {
          continue;
        }
        findTheHole := true;
        OfferPushed(start, offers, HoleAt(name, r, job, ids[i]));
        best.TryBestNode(gpu.freeReq - job.milli, name, ids[i]);
        offers := offers + [HoleAt(name, r, job, ids[i])];
      }
      assert ids[..|ids|] == ids;
    }

    /** scheduleNode: this node's offers to the best node. */
    method ScheduleNode(job: Job, newId: string, best: BestNode) returns (ghost order: seq<string>)
      modifies best
      ensures IsOrder(order, GpuFree.Keys)
      ensures best.State() == TryAll(old(best.State()), Offers(name, State(), job, newId, order))
    {
      var ids := Iterate(GpuFree.Keys);
      order := ids;
      if CpuFree < job.cpu || MemFree < job.mem {
        return;
      }
      if job.shared {
        var findTheHole := OfferHoles(job, ids, best);
        if !findTheHole {
          if GpuFreeCount > 0 {
            best.TryBestNode(1000 - job.milli, name, newId);
            OneOffer(old(best.State()), FreshAt(name, job, newId));
          }
        }
      } else {
        best.TryBestNode(CpuFree - job.cpu, name, "");
        OneOffer(old(best.State()), Candidate(CpuFree - job.cpu, name, ""));
      }
    }
  }

  lemma OfferPushed(best: Candidate, cs: seq<Candidate>, c: Candidate)
    ensures TryAll(best, cs + [c]) == Try(TryAll(best, cs), c)
  {
    assert (cs + [c])[..|cs|] == cs;
  }

  lemma HolesPushed(name: string, r: Resources, job: Job, ids: seq<string>, id: string)
    requires id in r.gpuFree && forall i :: i in ids ==> i in r.gpuFree
    ensures Holes(name, r, job, ids + [id])
            == Holes(name, r, job, ids) + if Fits(r.gpuFree[id], job) then [HoleAt(name, r, job, id)] else []
    ensures Holes(name, r, job, ids) + [] == Holes(name, r, job, ids)
  {
    assert (ids + [id])[..|ids|] == ids;
  }

  lemma OneOffer(best: Candidate, c: Candidate)
    ensures TryAll(best, [c]) == Try(best, c)
  {
    assert [c][..0] == [];
  }

  /** The inner loop of the exclusion filter. */
  method HasForeignTag(g: GpuLeft, tag: string) returns (r: bool)
    ensures r <==> Foreign(g, tag)
  {
    for i := 0 to |g.exclusion|
      invariant forall j :: 0 <= j < i ==> g.exclusion[j] == tag
    {
      if g.exclusion[i] != tag {
        assert g.exclusion[i] in g.exclusion;
        return true;
      }
    }
    return false;
  }

  /** The pod loop over a table whose rows are distinct objects. */
  method SyncPodResources(nodeRes: map<string, NodeResource>, podList: seq<Pod>)
    requires forall a :: a in nodeRes ==> nodeRes[a].name == a
    modifies nodeRes.Values
    ensures forall a :: a in nodeRes ==> nodeRes[a].State() == After(old(nodeRes[a].State()), a, podList)
  {
    for i := 0 to |podList|
      invariant forall a :: a in nodeRes ==> nodeRes[a].State() == After(old(nodeRes[a].State()), a, podList[..i])
    {
      assert podList[..i + 1][..i] == podList[..i];
      var pod := podList[i];
      if pod.node == "" || pod.dummy {
      } else if pod.node in nodeRes {
        nodeRes[pod.node].ChargePod(pod);
      }
    }
    assert podList[..|podList|] == podList;
  }

  // ----- The initial table

  /** strconv.ParseInt(s, 10, 64): an optional sign and digits, within int64. */
  function ParseInt(s: string): Option<int> {
    var signed := s != "" && (s[0] == '-' || s[0] == '+');
    var digits := if signed then s[1..] else s;
    if digits == "" || exists c :: c in digits && !IsDigit(c) then None
    else
      var v: int := NumeralValue(digits);
      var n := if signed && s[0] == '-' then -v else v;
      if -0x8000_0000_0000_0000 <= n < 0x8000_0000_0000_0000 then Some(n) else None
  }

  /** The first GPU's memory in the node's annotation, 0 when it is absent or badly formed. */
  function GpuMem(annotation: Option<string>): int {
    match annotation
    case None => 0
    case Some(gpuInfo) =>
      var gpuArr := Split(Split(gpuInfo, ',')[0], ':');
      if |gpuArr| != 2 then 0
      else
        match ParseInt(gpuArr[1])
        case None => 0
        case Some(mem) => mem
  }

  datatype NodeSpec = NodeSpec(name: string, noSchedule: bool, cpu: int, mem: int, gpus: int, gpuInfo: Option<string>)

  /** GPU memory is announced in MiB and counted in bytes. */
  function GpuBytes(annotation: Option<string>): int {
    GpuMem(annotation) * 1024 * 1024
  }

  /** An all-free row with the node's allocatable amounts. */
  ghost predicate IsRowFor(r: Resources, spec: NodeSpec) {
    && r.cpuTotal == spec.cpu && r.cpuFree == spec.cpu
    && r.memTotal == spec.mem && r.memFree == spec.mem
    && r.gpuTotal == spec.gpus && r.gpuFreeCount == spec.gpus
    && r.gpuMemTotal == GpuBytes(spec.gpuInfo) && r.gpuFree == map[]
  }

  /** syncNodeResources, one node after the other: tainted nodes get no row. */
  method SyncNodeResources(nodeList: seq<NodeSpec>) returns (nodeRes: map<string, NodeResource>)
    requires forall i, j :: 0 <= i < j < |nodeList| ==> nodeList[i].name != nodeList[j].name
    ensures forall a :: a in nodeRes ==> fresh(nodeRes[a]) && nodeRes[a].name == a
    ensures nodeRes.Keys == set j | 0 <= j < |nodeList| && !nodeList[j].noSchedule :: nodeList[j].name
    ensures forall j :: 0 <= j < |nodeList| && !nodeList[j].noSchedule ==>
              nodeList[j].name in nodeRes && IsRowFor(nodeRes[nodeList[j].name].State(), nodeList[j])
  {
    nodeRes := map[];
    for i := 0 to |nodeList|
      invariant forall a :: a in nodeRes ==> fresh(nodeRes[a]) && nodeRes[a].name == a
      invariant nodeRes.Keys == set j | 0 <= j < i && !nodeList[j].noSchedule :: nodeList[j].name
      invariant forall j :: 0 <= j < i && !nodeList[j].noSchedule ==>
                  nodeList[j].name in nodeRes && IsRowFor(nodeRes[nodeList[j].name].State(), nodeList[j])
    {
      var spec := nodeList[i];
      if !spec.noSchedule {
        var row := new NodeResource(spec.name, spec.cpu, spec.mem, spec.gpus, GpuBytes(spec.gpuInfo));
        nodeRes := nodeRes[spec.name := row];
      }
    }
  }

  /** UpdateNodeGPUInfo's annotation for the devices of a node, in its map's order. */
  function GpuInfoText(devices: seq<(string, nat)>): string {
    if devices == [] then "" else devices[0].0 + ":" + Decimal(devices[0].1) + "," + GpuInfoText(devices[1..])
  }

  /** A node without the annotation, or whose first entry is not a pair with a number, counts no GPU memory. */
  lemma BadInfoCountsNothing(text: string)
    ensures GpuBytes(None) == 0
    ensures |Split(Split(text, ',')[0], ':')| != 2 ==> GpuBytes(Some(text)) == 0
    ensures |Split(Split(text, ',')[0], ':')| == 2 && ParseInt(Split(Split(text, ',')[0], ':')[1]) == None ==>
              GpuBytes(Some(text)) == 0
  {
  }

  /** What the device manager writes there the scheduler reads: the MiB of the device printed first. */
  lemma GpuInfoReadBack(devices: seq<(string, nat)>)
    requires devices != [] && devices[0].1 < 0x8000_0000_0000_0000
    requires ':' !in devices[0].0 && ',' !in devices[0].0
    ensures GpuMem(Some(GpuInfoText(devices))) == devices[0].1
    ensures GpuBytes(Some(GpuInfoText(devices))) == 1048576 * devices[0].1
  {
    var id, mem, rest := devices[0].0, NatText(devices[0].1), GpuInfoText(devices[1..]);
    var first := id + [':'] + mem;
    ParseDecimal(devices[0].1);
    assert forall c :: c in mem ==> IsDigit(c);
    assert GpuInfoText(devices) == first + [','] + rest;
    SplitFirst(first, ',', rest);
    SplitFirst(id, ':', mem);
    SplitNone(mem, ':');
  }

  /** ParseInt reads back every printed int64, and nothing beyond. */
  lemma ParseDecimal(n: int)
    ensures ParseInt(Decimal(n)) == if -0x8000_0000_0000_0000 <= n < 0x8000_0000_0000_0000 then Some(n) else None
  {
    var d := NatText(if n < 0 then -n else n);
    NatTextValue(if n < 0 then -n else n);
    assert d[0] in d;
    assert n < 0 ==> Decimal(n)[1..] == d;
  }
}
