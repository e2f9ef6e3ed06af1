/**
 pkg/scheduler/sync_resources.go on values: what is left of each node after the pods on it are
 charged. GPU requests are exact reals, resource amounts unbounded integers.
 */
module Accounting {
  import opened Options
  import opened Sums

  /** A numeric annotation: missing (or empty), not a number, or its value. */
  datatype Annotation<+T> = Missing | Malformed | Number(value: T)

  datatype Container = Container(cpu: int, mem: int, gpus: int)

  datatype Pod = Pod(
    name: string, node: string, dummy: bool, owned: bool, finished: bool,
    containers: seq<Container>,
    request: Annotation<real>, limit: Annotation<real>, memory: Annotation<int>, gpuid: string,
    affinity: Option<string>, antiAffinity: Option<string>, exclusion: Option<string>)

  datatype GpuLeft = GpuLeft(freeReq: int, freeMem: int,
                             affinity: seq<string>, antiAffinity: seq<string>, exclusion: seq<string>)

  datatype Resources = Resources(cpuTotal: int, memTotal: int, gpuTotal: int, gpuMemTotal: int,
                                 cpuFree: int, memFree: int, gpuFreeCount: int, gpuFree: map<string, GpuLeft>)

  /** A node's row of the initial table. */
  function Initial(cpu: int, mem: int, gpus: int, gpuMem: int): Resources {
    Resources(cpu, mem, gpus, gpuMem, cpu, mem, gpus, map[])
  }

  function Ceil(x: real): int {
    -((-x).Floor)
  }

  /** A request in thousandths of a GPU, rounded up. */
  function Milli(request: real): int {
    Ceil(request * 1000.0)
  }

  function CpuOf(): Container -> int { (c: Container) => c.cpu }
  function MemOf(): Container -> int { (c: Container) => c.mem }
  function GpusOf(): Container -> int { (c: Container) => c.gpus }

  function Cpu(cs: seq<Container>): int {
    Sum(CpuOf(), cs)
  }

  function Mem(cs: seq<Container>): int {
    Sum(MemOf(), cs)
  }

  function Gpus(cs: seq<Container>): int {
    Sum(GpusOf(), cs)
  }

  function ChargeCpu(n: Resources, p: Pod): Resources {
    n.(cpuFree := n.cpuFree - Cpu(p.containers), memFree := n.memFree - Mem(p.containers))
  }

  function ChargeWhole(n: Resources, p: Pod): Resources {
    ChargeCpu(n, p).(gpuFreeCount := n.gpuFreeCount - Gpus(p.containers))
  }

  datatype Reading = NotShared | Invalid | Shared(request: real, mem: int)

  /** The annotation checks shared by the accounting and the scheduling of a pod. */
  function ReadAsk(p: Pod): Reading {
    if p.request.Missing? && p.limit.Missing? && p.memory.Missing? && p.gpuid == "" then NotShared
    else if !p.limit.Number? || p.limit.value > 1.0 || p.limit.value < 0.0 then Invalid
    else if !p.request.Number? || p.request.value > p.limit.value || p.request.value < 0.0 then Invalid
    else if !p.memory.Number? || p.memory.value < 0 then Invalid
    else Shared(p.request.value, p.memory.value)
  }

  /** The annotations ask for a share of a GPU: three numbers, with 0 <= request <= limit <= 1. */
  predicate AsksShare(p: Pod) {
    && p.request.Number? && p.limit.Number? && p.memory.Number?
    && 0.0 <= p.request.value <= p.limit.value <= 1.0 && 0 <= p.memory.value
  }

  /** The checks let through exactly the pods that ask for a share, and read the request, not the limit. */
  lemma ReadAskExactly(p: Pod)
    ensures ReadAsk(p).Shared? <==> AsksShare(p)
    ensures AsksShare(p) ==> ReadAsk(p).request == p.request.value && ReadAsk(p).mem == p.memory.value
    ensures ReadAsk(p).NotShared? <==> p.request.Missing? && p.limit.Missing? && p.memory.Missing? && p.gpuid == ""
  {
  }

  /** A tag annotation that is absent counts as the empty tag. */
  function Tag(annotation: Option<string>): string {
    if annotation.Some? then annotation.value else ""
  }

  function AddTag(tags: seq<string>, tag: string): seq<string> {
    if tag == "" || tag in tags then tags else tags + [tag]
  }

  function AddTags(g: GpuLeft, p: Pod): GpuLeft {
    g.(affinity := AddTag(g.affinity, Tag(p.affinity)),
       antiAffinity := AddTag(g.antiAffinity, Tag(p.antiAffinity)),
       exclusion := AddTag(g.exclusion, Tag(p.exclusion)))
  }

  /** The first pod of a GPUID takes a free GPU, and is passed over when there is none. */
  function ChargeGpu(n: Resources, p: Pod, request: real, mem: int): Resources {
    if p.gpuid in n.gpuFree then
      var g := n.gpuFree[p.gpuid];
      var charged := g.(freeReq := g.freeReq - Milli(request), freeMem := g.freeMem - mem);
      n.(gpuFree := n.gpuFree[p.gpuid := AddTags(charged, p)])
    else if n.gpuFreeCount > 0 then
      var g := GpuLeft(1000 - Milli(request), n.gpuMemTotal - mem, [], [], []);
      n.(gpuFreeCount := n.gpuFreeCount - 1, gpuFree := n.gpuFree[p.gpuid := AddTags(g, p)])
    else n
  }

  /** The pods that the accounting looks at for this node. */
  predicate OnNode(p: Pod, name: string) {
    p.node == name && name != "" && !p.dummy
  }

  // ----- The loop as it is compiled

  /** One pass of the loop for a pod on this node, lines 37 to 173. */
  function CompiledStep(n: Resources, p: Pod): Resources {
    if !p.request.Missing? then n
    else if p.owned || !p.request.Missing? then
      var n := ChargeCpu(n, p);
      match ReadAsk(p)
      case Invalid => n
      case NotShared => if p.finished then n else ChargeWhole(n, p)
      case Shared(request, mem) =>
        if p.gpuid !in n.gpuFree && n.gpuFreeCount <= 0 then n
        else
          var n := ChargeGpu(n, p, request, mem);
          if p.finished then n else ChargeWhole(n, p)
    else if p.finished then n
    else ChargeWhole(n, p)
  }

  function Compiled(n: Resources, name: string, ps: seq<Pod>): Resources {
    if ps == [] then n
    else
      var n' := Compiled(n, name, ps[..|ps| - 1]);
      var p := ps[|ps| - 1];
      if OnNode(p, name) then CompiledStep(n', p) else n'
  }

  /** The GPU branch is dead: whatever runs on a node, the compiled table shows none of its GPUs in use. */
  lemma {:induction false} CompiledSeesNoGpu(n: Resources, name: string, ps: seq<Pod>)
    ensures Compiled(n, name, ps).gpuFree == n.gpuFree
  {
    if ps != [] {
      CompiledSeesNoGpu(n, name, ps[..|ps| - 1]);
    }
  }

  // ----- The accounting of the GPU branch, charging CPU and memory once

  function Step(n: Resources, p: Pod): Resources {
    if p.finished then n
    else if !p.owned && p.request.Missing? then ChargeWhole(n, p)
    else
      var n := ChargeCpu(n, p);
      match ReadAsk(p)
      case Shared(request, mem) => ChargeGpu(n, p, request, mem)
      case _ => n
  }

  function After(n: Resources, name: string, ps: seq<Pod>): Resources {
    if ps == [] then n
    else
      var n' := After(n, name, ps[..|ps| - 1]);
      var p := ps[|ps| - 1];
      if OnNode(p, name) then Step(n', p) else n'
  }

  // ----- What each pod weighs

  predicate Counts(p: Pod, name: string) {
    p.node == name && name != "" && !p.dummy && !p.finished
  }

  /** A pod that uses part of a GPU of the node. */
  predicate Uses(p: Pod, name: string) {
    Counts(p, name) && AsksShare(p)
  }

  predicate UsesGpu(p: Pod, name: string, id: string) {
    Uses(p, name) && p.gpuid == id
  }

  function CpuOn(name: string): Pod -> int {
    (p: Pod) => if Counts(p, name) then Sum(CpuOf(), p.containers) else 0
  }

  function MemOn(name: string): Pod -> int {
    (p: Pod) => if Counts(p, name) then Sum(MemOf(), p.containers) else 0
  }

  /** Whole GPUs, which only pods without a share take. */
  function WholeOn(name: string): Pod -> int {
    (p: Pod) => if Counts(p, name) && !p.owned && p.request.Missing? then Sum(GpusOf(), p.containers) else 0
  }

  function MilliOn(name: string, id: string): Pod -> int {
    (p: Pod) => if UsesGpu(p, name, id) then Milli(p.request.value) else 0
  }

  function GpuMemOn(name: string, id: string): Pod -> int {
    (p: Pod) => if UsesGpu(p, name, id) then p.memory.value else 0
  }

  /** The GPUIDs in use on the node. */
  function Ids(ps: seq<Pod>, name: string): set<string> {
    set p | p in ps && Uses(p, name) :: p.gpuid
  }

  lemma LastPod(ps: seq<Pod>, name: string)
    requires ps != []
    ensures var last := ps[|ps| - 1];
            Ids(ps, name) == Ids(ps[..|ps| - 1], name) + if Uses(last, name) then {last.gpuid} else {}
  {
    var last := ps[|ps| - 1];
    assert ps == ps[..|ps| - 1] + [last];
  }

  /** CPU and memory are conserved, and free GPUs, opened GPUs and whole GPUs add up, after any pods. */
  lemma {:induction false} AccountsConserved(n: Resources, name: string, ps: seq<Pod>)
    ensures var n' := After(n, name, ps);
            && n'.cpuFree + Sum(CpuOn(name), ps) == n.cpuFree
            && n'.memFree + Sum(MemOn(name), ps) == n.memFree
            && n'.gpuFreeCount + |n'.gpuFree| + Sum(WholeOn(name), ps) == n.gpuFreeCount + |n.gpuFree|
            && n'.gpuTotal == n.gpuTotal && n'.gpuMemTotal == n.gpuMemTotal
            && n'.cpuTotal == n.cpuTotal && n'.memTotal == n.memTotal
  {
    if ps != [] {
      AccountsConserved(n, name, ps[..|ps| - 1]);
    }
  }

  // ----- Closed form

  /** GPUIDs in use and whole GPUs asked for are no more than the node has. */
  predicate GpusSuffice(n: Resources, name: string, ps: seq<Pod>) {
    |Ids(ps, name)| + Sum(WholeOn(name), ps) <= n.gpuFreeCount
  }

  ghost predicate ValidPods(ps: seq<Pod>) {
    forall p, c :: p in ps && c in p.containers ==> c.cpu >= 0 && c.mem >= 0 && c.gpus >= 0
  }

  /** The tag t is on a pod of this GPU. */
  ghost predicate Tagged(tag: Pod -> string, t: string, ps: seq<Pod>, name: string, id: string) {
    t != "" && exists p :: p in ps && UsesGpu(p, name, id) && tag(p) == t
  }

  function AffinityOf(): Pod -> string { (p: Pod) => Tag(p.affinity) }
  function AntiAffinityOf(): Pod -> string { (p: Pod) => Tag(p.antiAffinity) }
  function ExclusionOf(): Pod -> string { (p: Pod) => Tag(p.exclusion) }

  ghost predicate TagsAre(tags: seq<string>, tag: Pod -> string, ps: seq<Pod>, name: string, id: string) {
    && (forall t :: t in tags <==> Tagged(tag, t, ps, name, id))
    && (forall i, j :: 0 <= i < j < |tags| ==> tags[i] != tags[j])
  }

  ghost predicate GpuIs(g: GpuLeft, gpuMem: int, ps: seq<Pod>, name: string, id: string) {
    && g.freeReq == 1000 - Sum(MilliOn(name, id), ps)
    && g.freeMem == gpuMem - Sum(GpuMemOn(name, id), ps)
    && TagsAre(g.affinity, AffinityOf(), ps, name, id)
    && TagsAre(g.antiAffinity, AntiAffinityOf(), ps, name, id)
    && TagsAre(g.exclusion, ExclusionOf(), ps, name, id)
  }

  ghost predicate GpusAre(gpuFree: map<string, GpuLeft>, gpuMem: int, name: string, ps: seq<Pod>) {
    && gpuFree.Keys == Ids(ps, name)
    && forall id :: id in gpuFree ==> GpuIs(gpuFree[id], gpuMem, ps, name, id)
  }

  /** The row that the pods ps leave of a fresh node, read off the pods. */
  ghost predicate RowIs(r: Resources, n: Resources, name: string, ps: seq<Pod>) {
    && r.cpuFree == n.cpuFree - Sum(CpuOn(name), ps)
    && r.memFree == n.memFree - Sum(MemOn(name), ps)
    && r.gpuFreeCount == n.gpuFreeCount - |Ids(ps, name)| - Sum(WholeOn(name), ps)
    && GpusAre(r.gpuFree, n.gpuMemTotal, name, ps)
  }

  lemma {:induction false} AddTagKeeps(tags: seq<string>, tag: Pod -> string, ps: seq<Pod>, p: Pod, name: string,
                                       id: string)
    requires TagsAre(tags, tag, ps, name, id)
    ensures TagsAre(if UsesGpu(p, name, id) then AddTag(tags, tag(p)) else tags, tag, ps + [p], name, id)
  {
    var tags' := if UsesGpu(p, name, id) then AddTag(tags, tag(p)) else tags;
    forall t ensures t in tags' <==> Tagged(tag, t, ps + [p], name, id) {
      if t in tags' && t in tags {
        var q :| q in ps && UsesGpu(q, name, id) && tag(q) == t;
        assert q in ps + [p];
      }
      if t in tags' && t !in tags {
        assert p in ps + [p];
      }
      if Tagged(tag, t, ps + [p], name, id) {
        var q :| q in ps + [p] && UsesGpu(q, name, id) && tag(q) == t;
        if q in ps {
          assert Tagged(tag, t, ps, name, id);
        }
      }
    }
  }

  lemma NoTags(tag: Pod -> string, ps: seq<Pod>, name: string, id: string)
    requires id !in Ids(ps, name)
    ensures TagsAre([], tag, ps, name, id)
  {
    assert forall q :: q in ps && Uses(q, name) ==> q.gpuid in Ids(ps, name);
  }

  /** The GPU with p's share and tags charged to it. */
  function Charged(g: GpuLeft, p: Pod): GpuLeft
    requires AsksShare(p)
  {
    AddTags(g.(freeReq := g.freeReq - Milli(p.request.value), freeMem := g.freeMem - p.memory.value), p)
  }

  function Opened(r: Resources, id: string): GpuLeft {
    if id in r.gpuFree then r.gpuFree[id] else GpuLeft(1000, r.gpuMemTotal, [], [], [])
  }

  /** What one pod does to the GPUs of its node. */
  lemma StepGpus(r: Resources, p: Pod, name: string)
    requires OnNode(p, name)
    requires Uses(p, name) && p.gpuid !in r.gpuFree ==> r.gpuFreeCount > 0
    ensures Step(r, p).gpuFree
            == if Uses(p, name) then r.gpuFree[p.gpuid := Charged(Opened(r, p.gpuid), p)] else r.gpuFree
  {
  }

  lemma GpuStep(g: GpuLeft, gpuMem: int, ps: seq<Pod>, p: Pod, name: string, id: string)
    requires GpuIs(g, gpuMem, ps, name, id)
    ensures GpuIs(if UsesGpu(p, name, id) then Charged(g, p) else g, gpuMem, ps + [p], name, id)
  {
    assert (ps + [p])[..|ps|] == ps;
    AddTagKeeps(g.affinity, AffinityOf(), ps, p, name, id);
    AddTagKeeps(g.antiAffinity, AntiAffinityOf(), ps, p, name, id);
    AddTagKeeps(g.exclusion, ExclusionOf(), ps, p, name, id);
  }

  lemma {:induction false} UnusedGpu(gpuMem: int, ps: seq<Pod>, name: string, id: string)
    requires id !in Ids(ps, name)
    ensures GpuIs(GpuLeft(1000, gpuMem, [], [], []), gpuMem, ps, name, id)
  {
    NoTags(AffinityOf(), ps, name, id);
    NoTags(AntiAffinityOf(), ps, name, id);
    NoTags(ExclusionOf(), ps, name, id);
    UnusedSums(ps, name, id);
  }

  lemma {:induction false} UnusedSums(ps: seq<Pod>, name: string, id: string)
    requires id !in Ids(ps, name)
    ensures Sum(MilliOn(name, id), ps) == 0 && Sum(GpuMemOn(name, id), ps) == 0
  {
    if ps != [] {
      LastPod(ps, name);
      UnusedSums(ps[..|ps| - 1], name, id);
    }
  }

  lemma GpuStepAt(r: Resources, name: string, ps: seq<Pod>, p: Pod, k: string)
    requires GpusAre(r.gpuFree, r.gpuMemTotal, name, ps) && k in Ids(ps + [p], name)
    ensures var g := if UsesGpu(p, name, k) then Charged(Opened(r, k), p) else Opened(r, k);
            GpuIs(g, r.gpuMemTotal, ps + [p], name, k)
  {
    if k !in r.gpuFree {
      UnusedGpu(r.gpuMemTotal, ps, name, k);
    }
    GpuStep(Opened(r, k), r.gpuMemTotal, ps, p, name, k);
  }

  lemma StepKeys(r: Resources, name: string, ps: seq<Pod>, p: Pod)
    requires r.gpuFree.Keys == Ids(ps, name)
    requires Uses(p, name) && p.gpuid !in r.gpuFree ==> r.gpuFreeCount > 0
    ensures (if OnNode(p, name) then Step(r, p) else r).gpuFree.Keys == Ids(ps + [p], name)
    ensures forall k :: k in (if OnNode(p, name) then Step(r, p) else r).gpuFree ==>
              (if OnNode(p, name) then Step(r, p) else r).gpuFree[k]
              == if UsesGpu(p, name, k) then Charged(Opened(r, k), p) else Opened(r, k)
  {
    assert (ps + [p])[..|ps|] == ps;
    LastPod(ps + [p], name);
    if OnNode(p, name) {
      StepGpus(r, p, name);
    }
  }

  lemma GpusStep(r: Resources, name: string, ps: seq<Pod>, p: Pod)
    requires GpusAre(r.gpuFree, r.gpuMemTotal, name, ps)
    requires Uses(p, name) && p.gpuid !in r.gpuFree ==> r.gpuFreeCount > 0
    ensures GpusAre((if OnNode(p, name) then Step(r, p) else r).gpuFree, r.gpuMemTotal, name, ps + [p])
  {
    var gpus := (if OnNode(p, name) then Step(r, p) else r).gpuFree;
    StepKeys(r, name, ps, p);
    forall k | k in gpus ensures GpuIs(gpus[k], r.gpuMemTotal, ps + [p], name, k) {
      GpuStepAt(r, name, ps, p, k);
    }
  }

  lemma WholeNonNegative(ps: seq<Pod>, name: string)
    requires ValidPods(ps)
    ensures forall p :: p in ps ==> WholeOn(name)(p) >= 0
  {
    forall p | p in ps ensures Gpus(p.containers) >= 0 {
      SumNonNegative(GpusOf(), p.containers);
    }
  }

  /** No charge was passed over: every GPUID in use has a row after these pods. */
  ghost predicate CountsEveryGpu(n: Resources, name: string, ps: seq<Pod>) {
    After(n, name, ps).gpuFree.Keys == Ids(ps, name)
  }

  lemma {:induction false} OnlyPodsOpen(n: Resources, name: string, ps: seq<Pod>)
    requires n.gpuFree == map[]
    ensures After(n, name, ps).gpuFree.Keys <= Ids(ps, name)
  {
    if ps != [] {
      OnlyPodsOpen(n, name, ps[..|ps| - 1]);
      LastPod(ps, name);
    }
  }

  /** A GPUID is passed over only when no GPU is free, and from then on none is. */
  lemma {:induction false} PassedOverAtZero(n: Resources, name: string, ps: seq<Pod>)
    requires ValidPods(ps)
    ensures Ids(ps, name) <= After(n, name, ps).gpuFree.Keys || After(n, name, ps).gpuFreeCount <= 0
  {
    if ps != [] {
      var prefix, p := ps[..|ps| - 1], ps[|ps| - 1];
      assert ps == prefix + [p];
      PassedOverAtZero(n, name, prefix);
      LastPod(ps, name);
      WholeNonNegative(ps, name);
      assert WholeOn(name)(p) >= 0;
    }
  }

  /** A prefix of a list of which nothing is passed over has nothing passed over. */
  lemma CountsPrefix(n: Resources, name: string, ps: seq<Pod>)
    requires ps != [] && n.gpuFree == map[] && ValidPods(ps) && CountsEveryGpu(n, name, ps)
    ensures CountsEveryGpu(n, name, ps[..|ps| - 1])
  {
    var prefix := ps[..|ps| - 1];
    assert ps == prefix + [ps[|ps| - 1]];
    LastPod(ps, name);
    OnlyPodsOpen(n, name, prefix);
    PassedOverAtZero(n, name, prefix);
  }

  lemma CountsLast(n: Resources, name: string, ps: seq<Pod>)
    requires ps != [] && CountsEveryGpu(n, name, ps)
    ensures var r, p := After(n, name, ps[..|ps| - 1]), ps[|ps| - 1];
            Uses(p, name) && p.gpuid !in r.gpuFree ==> r.gpuFreeCount > 0
  {
    LastPod(ps, name);
  }

  lemma {:induction false} GpusClosedForm(n: Resources, name: string, ps: seq<Pod>)
    requires n.gpuFree == map[] && ValidPods(ps) && CountsEveryGpu(n, name, ps)
    ensures GpusAre(After(n, name, ps).gpuFree, n.gpuMemTotal, name, ps)
  {
    if ps != [] {
      var prefix := ps[..|ps| - 1];
      assert ps == prefix + [ps[|ps| - 1]];
      CountsPrefix(n, name, ps);
      CountsLast(n, name, ps);
      GpusClosedForm(n, name, prefix);
      AccountsConserved(n, name, prefix);
      GpusStep(After(n, name, prefix), name, prefix, ps[|ps| - 1]);
    }
  }

  /** The row can be read off the pods exactly when no charge was passed over. */
  lemma ClosedForm(n: Resources, name: string, ps: seq<Pod>)
    requires n.gpuFree == map[] && ValidPods(ps)
    ensures RowIs(After(n, name, ps), n, name, ps) <==> CountsEveryGpu(n, name, ps)
  {
    if CountsEveryGpu(n, name, ps) {
      GpusClosedForm(n, name, ps);
      AccountsConserved(n, name, ps);
      var r := After(n, name, ps);
      assert |r.gpuFree| == |r.gpuFree.Keys|;
    }
  }

  /** With enough GPUs no charge is passed over, in whatever order. */
  lemma SufficeCounts(n: Resources, name: string, ps: seq<Pod>)
    requires n.gpuFree == map[] && ValidPods(ps) && GpusSuffice(n, name, ps)
    ensures CountsEveryGpu(n, name, ps)
  {
    var r := After(n, name, ps);
    OnlyPodsOpen(n, name, ps);
    PassedOverAtZero(n, name, ps);
    AccountsConserved(n, name, ps);
    assert |r.gpuFree| == |r.gpuFree.Keys|;
    AllOf(r.gpuFree.Keys, Ids(ps, name));
  }

  lemma AllOf(some: set<string>, all: set<string>)
    requires some <= all
    ensures |some| >= |all| ==> some == all
  {
    assert all == some + (all - some);
  }
}
