/** pkg/devicemanager/gpupool.go: initNodesInfo and cleanOrphanDummyPod after a restart. */
module Rebuild {
  import opened Options
  import opened Bitmap64s
  import opened GpuPool
  import opened PortUse

  type Nodes = map<string, Node>

  datatype DummyPod = DummyPod(nodeName: string, gpuid: Option<string>)

  datatype EnvVar = EnvVar(name: string, value: string)

  /** One pod of one SharePod. The numeric annotations are None when they do not parse. */
  datatype Replica = Replica(key: string, podNode: string, specNode: string, gpuid: Option<string>,
                             limit: Option<real>, request: Option<real>, memory: Option<int>,
                             port: int, env: seq<EnvVar>, boundDevice: string)

  /** The pool after a rebuild, the keys re-queued and the dummy pods to create; or an index panic. */
  datatype Boot = Boot(nodes: Nodes, requeue: seq<string>, later: seq<(string, string)>) | Panic

  function AddDummy(nodes: Nodes, d: DummyPod): Nodes {
    match d.gpuid
    case None => nodes
    case Some(g) =>
      if d.nodeName !in nodes then
        nodes[d.nodeName := NewNode({}).(gpus := map[g := UNUSED])]
      else if g in nodes[d.nodeName].gpus then nodes
      else nodes[d.nodeName := nodes[d.nodeName].(gpus := nodes[d.nodeName].gpus[g := UNUSED])]
  }

  function AddDummies(nodes: Nodes, ds: seq<DummyPod>): Nodes
    decreases |ds|
  {
    if ds == [] then nodes else AddDummy(AddDummies(nodes, ds[..|ds| - 1]), ds[|ds| - 1])
  }

  /** The request a replica is charged for, when it passes the checks on its annotations and nodes. */
  function ReadReplica(r: Replica): Option<PodRequest> {
    if r.limit.None? || r.limit.value > 1.0 || r.limit.value < 0.0 then None
    else if r.request.None? || r.request.value > r.limit.value || r.request.value < 0.0 then None
    else if r.memory.None? || r.memory.value < 0 then None
    else if r.podNode == "" then None
    else if r.gpuid.None? then None
    else Some(PodRequest(r.key, r.request.value, r.limit.value, r.memory.value, r.port))
  }

  /** A scheduled pod with a GPUID and three valid numbers. */
  predicate Counted(r: Replica) {
    && r.limit.Some? && 0.0 <= r.limit.value <= 1.0
    && r.request.Some? && 0.0 <= r.request.value <= r.limit.value
    && r.memory.Some? && r.memory.value >= 0
    && r.podNode != "" && r.gpuid.Some?
  }

  predicate HasEntry(nodes: Nodes, name: string, gpuid: string) {
    name in nodes && gpuid in nodes[name].gpus
  }

  function EntryOf(r: Replica): PodRequest
    requires Counted(r)
  {
    PodRequest(r.key, r.request.value, r.limit.value, r.memory.value, r.port)
  }

  /** The first NVIDIA_VISIBLE_DEVICES, or the first variable when there is none. */
  function VisibleDevices(env: seq<EnvVar>, i: nat): string
    requires env != [] && i <= |env|
    decreases |env| - i
  {
    if i == |env| then env[0].value
    else if env[i].name == "NVIDIA_VISIBLE_DEVICES" then env[i].value
    else VisibleDevices(env, i + 1)
  }

  /** Mask panics on an index below -63, and an empty environment has no first variable. */
  predicate Breaks(r: Replica) {
    GoQuot(r.port - PORT_START) < 0 || r.env == []
  }

  /** The node once r is charged to its GPU, which takes r's device if it has none. */
  function Assigned(n: Node, g: string, e: PodRequest, r: Replica): Node
    requires r.env != []
  {
    var uuid := GpuAt(n, g).uuid;
    var n' := Push(n, g, e, n.ports.(masked := n.ports.masked + Index(r.port - PORT_START)));
    var uuid' := if uuid == "" && VisibleDevices(r.env, 0) != "" then r.boundDevice else uuid;
    n'.(gpus := n'.gpus[g := n'.gpus[g].(uuid := uuid')])
  }

  function AddReplica(b: Boot, r: Replica): Boot {
    match ReadReplica(r)
    case None => b
    case Some(e) =>
      if b.Panic? || !HasEntry(b.nodes, r.specNode, r.gpuid.value) then b
      else if Breaks(r) then Panic
      else
        var g := r.gpuid.value;
        var waiting := VisibleDevices(r.env, 0) == "";
        var bound := b.nodes[r.specNode].gpus[g].uuid != "";
        Boot(b.nodes[r.specNode := Assigned(b.nodes[r.specNode], g, e, r)],
             if waiting && bound then b.requeue + [r.key] else b.requeue,
             if waiting && !bound && (r.podNode, g) !in b.later then b.later + [(r.specNode, g)] else b.later)
  }

  function AddReplicas(b: Boot, rs: seq<Replica>): Boot {
    if rs == [] then b else AddReplica(AddReplicas(b, rs[..|rs| - 1]), rs[|rs| - 1])
  }

  function Init(nodes: Nodes, ds: seq<DummyPod>, rs: seq<Replica>): Boot {
    AddReplicas(Boot(AddDummies(nodes, ds), [], []), rs)
  }

  /**
   The two loops of initNodesInfo over its listings. When a selector or the listing of one SharePod's
   pods fails, the call returns there: replicas are those listed before, and no dummy pod is created.
   */
  method InitNodesInfo(nodesInfo: Nodes, pods: seq<DummyPod>, replicas: seq<Replica>, failed: bool)
    returns (b: Boot, err: bool)
    ensures var full := Init(nodesInfo, pods, replicas);
            && (b.Panic? <==> full.Panic?)
            && (b.Boot? ==> b.nodes == full.nodes && b.requeue == full.requeue)
            && (b.Boot? ==> err == failed && b.later == if failed then [] else full.later)
  {
    var nodes := nodesInfo;
    for i := 0 to |pods|
      invariant nodes == AddDummies(nodesInfo, pods[..i])
    {
      assert pods[..i + 1][..i] == pods[..i];
      nodes := AddDummy(nodes, pods[i]);
    }
    assert pods[..|pods|] == pods;
    b := Boot(nodes, [], []);
    ghost var start := b;
    for i := 0 to |replicas|
      invariant b == AddReplicas(start, replicas[..i])
    {
      assert replicas[..i + 1][..i] == replicas[..i];
      b := AddReplica(b, replicas[i]);
    }
    assert replicas[..|replicas|] == replicas;
    err := failed && b.Boot?;
    if err {
      b := b.(later := []);
    }
  }

  function CleanAll(nodes: Nodes): Nodes {
    map name | name in nodes :: Clean(nodes[name])
  }

  // ----- What a rebuild leaves alone

  function NodesNamed(ds: seq<DummyPod>): set<string> {
    set d | d in ds && d.gpuid.Some? :: d.nodeName
  }

  /** The nodes known, their devices and where their port search goes on. */
  ghost predicate SameDevices(before: Nodes, after: Nodes) {
    forall name :: name in before ==>
      && name in after && after[name].uuids == before[name].uuids
      && after[name].ports.current == before[name].ports.current
  }

  lemma DummyKeepsDevices(nodes: Nodes, d: DummyPod)
    ensures AddDummy(nodes, d).Keys == nodes.Keys + if d.gpuid.Some? then {d.nodeName} else {}
    ensures SameDevices(nodes, AddDummy(nodes, d))
    ensures forall name :: name in AddDummy(nodes, d) && name !in nodes ==>
              AddDummy(nodes, d)[name].uuids == {} && AddDummy(nodes, d)[name].ports.current == 0
  {
  }

  lemma NodesNamedLast(ds: seq<DummyPod>)
    requires ds != []
    ensures var d := ds[|ds| - 1];
            NodesNamed(ds) == NodesNamed(ds[..|ds| - 1]) + if d.gpuid.Some? then {d.nodeName} else {}
  {
    assert ds == ds[..|ds| - 1] + [ds[|ds| - 1]];
  }

  lemma {:induction false} DummiesKeepDevices(nodes: Nodes, ds: seq<DummyPod>)
    ensures var after := AddDummies(nodes, ds);
            && after.Keys == nodes.Keys + NodesNamed(ds) && SameDevices(nodes, after)
            && forall name :: name in after && name !in nodes ==>
                 after[name].uuids == {} && after[name].ports.current == 0
    decreases |ds|
  {
    if ds != [] {
      DummiesKeepDevices(nodes, ds[..|ds| - 1]);
      NodesNamedLast(ds);
      DummyKeepsDevices(AddDummies(nodes, ds[..|ds| - 1]), ds[|ds| - 1]);
    }
  }

  lemma {:induction false} ReplicasKeepDevices(b: Boot, rs: seq<Replica>)
    requires b.Boot? && AddReplicas(b, rs).Boot?
    ensures AddReplicas(b, rs).nodes.Keys == b.nodes.Keys && SameDevices(b.nodes, AddReplicas(b, rs).nodes)
  {
    if rs != [] {
      ReplicasKeepDevices(b, rs[..|rs| - 1]);
    }
  }

  /**
   The nodes after a restart are those that said hello and those that a dummy pod names; the first
   know the devices they said, the others none.
   */
  lemma RestartKeepsDevices(nodes: Nodes, ds: seq<DummyPod>, rs: seq<Replica>)
    requires Init(nodes, ds, rs).Boot?
    ensures var after := CleanAll(Init(nodes, ds, rs).nodes);
            && after.Keys == nodes.Keys + NodesNamed(ds) && SameDevices(nodes, after)
            && forall name :: name in after && name !in nodes ==>
                 after[name].uuids == {} && after[name].ports.current == 0
  {
    DummiesKeepDevices(nodes, ds);
    ReplicasKeepDevices(Boot(AddDummies(nodes, ds), [], []), rs);
  }

  // ----- What a rebuild yields

  lemma ReadReplicaExactly(r: Replica)
    ensures ReadReplica(r) == if Counted(r) then Some(EntryOf(r)) else None
  {
  }

  function AssignedTo(n: Node, r: Replica): Node
    requires Counted(r) && r.env != []
  {
    Assigned(n, r.gpuid.value, EntryOf(r), r)
  }

  /** A GPU has an entry exactly when a dummy pod names it, or it had one before. */
  lemma {:induction false} DummiesMakeEntries(nodes: Nodes, ds: seq<DummyPod>, name: string, g: string)
    ensures HasEntry(AddDummies(nodes, ds), name, g) <==> HasEntry(nodes, name, g) || DummyPod(name, Some(g)) in ds
    decreases |ds|
  {
    if ds != [] {
      var front, last := ds[..|ds| - 1], ds[|ds| - 1];
      DummiesMakeEntries(nodes, front, name, g);
      assert ds == front + [last];
    }
  }

  /** The requests of the counted replicas assigned to one GPU, in list order. */
  function EntriesFor(rs: seq<Replica>, name: string, g: string): seq<PodRequest> {
    if rs == [] then []
    else
      var r := rs[|rs| - 1];
      EntriesFor(rs[..|rs| - 1], name, g)
      + if Counted(r) && r.specNode == name && r.gpuid.value == g then [EntryOf(r)] else []
  }

  /** Nodes known before the rebuild have no GPU yet: config clients may connect first. */
  ghost predicate Idle(n: Node) {
    WellFormed(n) && n.ports.masked == {0} && forall g :: g in n.gpus ==> n.gpus[g] == UNUSED
  }

  ghost predicate Rebuilt(n: Node, name: string, rs: seq<Replica>) {
    && WellFormed(n) && MaskedIsLive(n)
    && forall g :: g in n.gpus ==> Tallied(n.gpus[g]) && n.gpus[g].podList == EntriesFor(rs, name, g)
  }

  lemma {:induction false} DummiesIdle(nodes: Nodes, ds: seq<DummyPod>)
    requires forall name :: name in nodes ==> Idle(nodes[name])
    ensures forall name :: name in AddDummies(nodes, ds) ==> Idle(AddDummies(nodes, ds)[name])
    decreases |ds|
  {
    if ds != [] {
      DummiesIdle(nodes, ds[..|ds| - 1]);
    }
  }

  lemma IdleIsRebuilt(n: Node, name: string)
    requires Idle(n)
    ensures Rebuilt(n, name, [])
  {
  }

  lemma AssignedMasksPort(n: Node, r: Replica)
    requires MaskedIsLive(n) && Counted(r) && r.env != []
    ensures MaskedIsLive(AssignedTo(n, r))
  {
    var g := r.gpuid.value;
    var n' := AssignedTo(n, r);
    var s := Slot(g, |GpuAt(n, g).podList|);
    PushSlots(n, g, EntryOf(r), n'.ports);
    assert PushedSlots(n, n', s, r.port);
    forall q: int ensures HasPort(n', q) <==> HasPort(n, q) || q == r.port {
      PushHasPort(n, n', s, r.port, q);
    }
  }

  lemma AssignedRebuilt(n: Node, rs: seq<Replica>, r: Replica)
    requires Rebuilt(n, r.specNode, rs) && Counted(r) && r.env != [] && r.gpuid.value in n.gpus
    ensures Rebuilt(AssignedTo(n, r), r.specNode, rs + [r])
  {
    assert (rs + [r])[..|rs|] == rs;
    ChargedTallied(n.gpus[r.gpuid.value], EntryOf(r));
    AssignedMasksPort(n, r);
  }

  lemma SkippedRebuilt(n: Node, name: string, rs: seq<Replica>, r: Replica)
    requires Rebuilt(n, name, rs)
    requires !(Counted(r) && r.specNode == name && r.gpuid.value in n.gpus)
    ensures Rebuilt(n, name, rs + [r])
  {
    assert (rs + [r])[..|rs|] == rs;
  }

  ghost predicate AllRebuilt(nodes: Nodes, rs: seq<Replica>) {
    forall name :: name in nodes ==> Rebuilt(nodes[name], name, rs)
  }

  lemma StepRebuilt(b: Boot, rs: seq<Replica>, r: Replica)
    requires b.Boot? && AllRebuilt(b.nodes, rs) && AddReplica(b, r).Boot?
    ensures AllRebuilt(AddReplica(b, r).nodes, rs + [r])
  {
    var after := AddReplica(b, r).nodes;
    ReadReplicaExactly(r);
    forall name | name in after ensures Rebuilt(after[name], name, rs + [r]) {
      if Counted(r) && r.specNode == name && r.gpuid.value in b.nodes[name].gpus {
        AssignedRebuilt(b.nodes[name], rs, r);
      } else {
        SkippedRebuilt(b.nodes[name], name, rs, r);
      }
    }
  }

  /**
   After a rebuild each GPU lists exactly the counted replicas that name it, in order; its totals
   are theirs, and the masked ports are the reserved one and the persisted ones.
   */
  lemma {:induction false} RebuildLists(b: Boot, rs: seq<Replica>)
    requires b.Boot? && forall name :: name in b.nodes ==> Idle(b.nodes[name])
    requires AddReplicas(b, rs).Boot?
    ensures AllRebuilt(AddReplicas(b, rs).nodes, rs)
  {
    if rs == [] {
      forall name | name in b.nodes ensures Rebuilt(b.nodes[name], name, rs) {
        IdleIsRebuilt(b.nodes[name], name);
      }
    } else {
      var last := |rs| - 1;
      RebuildLists(b, rs[..last]);
      assert rs == rs[..last] + [rs[last]];
      StepRebuilt(AddReplicas(b, rs[..last]), rs[..last], rs[last]);
    }
  }

  lemma {:induction false} EntriesKept(b: Boot, rs: seq<Replica>)
    requires b.Boot? && AddReplicas(b, rs).Boot?
    ensures forall name, g :: HasEntry(AddReplicas(b, rs).nodes, name, g) <==> HasEntry(b.nodes, name, g)
  {
    if rs != [] {
      EntriesKept(b, rs[..|rs| - 1]);
    }
  }

  /**
   A rebuild panics exactly when a counted replica of a GPU with a dummy pod has a port below
   49987 or a container without environment.
   */
  lemma {:induction false} RebuildPanics(b: Boot, rs: seq<Replica>)
    requires b.Boot?
    ensures AddReplicas(b, rs).Panic? <==>
              exists i :: 0 <= i < |rs| && Counted(rs[i]) && HasEntry(b.nodes, rs[i].specNode, rs[i].gpuid.value)
                          && (rs[i].port < 49987 || rs[i].env == [])
  {
    if rs != [] {
      var last := |rs| - 1;
      RebuildPanics(b, rs[..last]);
      if AddReplicas(b, rs[..last]).Boot? {
        EntriesKept(b, rs[..last]);
        assert AddReplicas(b, rs).Panic?
          == (Counted(rs[last]) && HasEntry(b.nodes, rs[last].specNode, rs[last].gpuid.value) && Breaks(rs[last]));
      }
    }
  }

  /** A rebuilt and cleaned node is in balance exactly when the persisted requests fit each GPU. */
  lemma RebuildBalances(n: Node, name: string, rs: seq<Replica>)
    requires Rebuilt(n, name, rs)
    ensures Balanced(Clean(n)) <==> forall g :: g in n.gpus ==> SumRequest(EntriesFor(rs, name, g)) <= 1.0
  {
    var c := Clean(n);
    forall g | g in n.gpus
      ensures g in c.gpus ==> c.gpus[g] == n.gpus[g]
      ensures g !in c.gpus ==> SumRequest(EntriesFor(rs, name, g)) == 0.0
    {
    }
    if Balanced(c) {
      forall g | g in n.gpus ensures SumRequest(EntriesFor(rs, name, g)) <= 1.0 {
        assert g in c.gpus ==> Conserved(c.gpus[g]);
      }
    }
  }

  /** Its ports are exact exactly when the persisted ones are distinct and in range. */
  lemma RebuildPorts(n: Node, name: string, rs: seq<Replica>)
    requires Rebuilt(n, name, rs)
    ensures PortsExact(Clean(n)) <==> PortsDistinct(n) && PortsInRange(n)
  {
    var c := Clean(n);
    assert forall s :: Live(c, s) <==> Live(n, s);
    assert forall s :: Live(n, s) ==> PortAt(c, s) == PortAt(n, s);
    if PortsDistinct(n) && PortsInRange(n) {
      SameSlotsExact(n, c);
    }
  }

  /** A restart from any persisted state that did not panic. */
  lemma RestartTheorem(nodes: Nodes, ds: seq<DummyPod>, rs: seq<Replica>)
    requires forall name :: name in nodes ==> Idle(nodes[name])
    requires Init(nodes, ds, rs).Boot?
    ensures var booted := Init(nodes, ds, rs).nodes;
            var clean := CleanAll(booted);
            clean.Keys == booted.Keys && forall name :: name in booted ==>
              && (Balanced(clean[name])
                  <==> forall g :: g in booted[name].gpus ==> SumRequest(EntriesFor(rs, name, g)) <= 1.0)
              && (PortsExact(clean[name]) <==> PortsDistinct(booted[name]) && PortsInRange(booted[name]))
              && (forall g :: g in clean[name].gpus <==> g in booted[name].gpus && EntriesFor(rs, name, g) != [])
              && (forall g :: g in clean[name].gpus ==> clean[name].gpus[g] == booted[name].gpus[g])
              && clean[name].uuids == booted[name].uuids && clean[name].ports == booted[name].ports
  {
    DummiesIdle(nodes, ds);
    RebuildLists(Boot(AddDummies(nodes, ds), [], []), rs);
    var booted := Init(nodes, ds, rs).nodes;
    forall name | name in booted
      ensures Balanced(Clean(booted[name]))
              <==> forall g :: g in booted[name].gpus ==> SumRequest(EntriesFor(rs, name, g)) <= 1.0
      ensures PortsExact(Clean(booted[name])) <==> PortsDistinct(booted[name]) && PortsInRange(booted[name])
    {
      RebuildBalances(booted[name], name, rs);
      RebuildPorts(booted[name], name, rs);
    }
  }
}
