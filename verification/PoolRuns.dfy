/** Every run of the device manager's pool: what it keeps, and when it keeps the ports exact. */
module PoolRuns {
  import opened Options
  import opened GpuPool
  import opened PortUse
  import opened WorkQueue
  import Rebuild

  type Nodes = map<string, Node>

  /** The critical sections of the device manager. */
  datatype Event =
    | Attach(node: string, uuids: set<string>)
    | Ask(node: string, gpuid: string, request: real, limit: real, memory: int, key: string)
    | Remove(node: string, gpuid: string, key: string)
    | SetUuid(node: string, gpuid: string, uuid: string)

  ghost predicate AllWellFormed(nodes: Nodes) {
    forall name :: name in nodes ==> WellFormed(nodes[name])
  }

  function OnNode(n: Node, e: Event): (n': Node)
    requires WellFormed(n)
    ensures WellFormed(n')
  {
    match e
    case Attach(_, uuids) => n.(uuids := uuids)
    case Ask(_, g, request, limit, memory, key) =>
      Register(n, g, request, limit, memory, key, 0).node
    case Remove(_, g, key) => Release(n, g, key).node
    case SetUuid(_, g, uuid) => if g in n.gpus then Bind(n, g, uuid).0 else n
  }

  /** An unknown node is created by a config client and ignored by everything else. */
  function Apply(nodes: Nodes, e: Event): (nodes': Nodes)
    requires AllWellFormed(nodes)
    ensures AllWellFormed(nodes')
  {
    if e.node in nodes then nodes[e.node := OnNode(nodes[e.node], e)]
    else if e.Attach? then nodes[e.node := NewNode(e.uuids)]
    else nodes
  }

  function Run(nodes: Nodes, es: seq<Event>): (nodes': Nodes)
    requires AllWellFormed(nodes)
    ensures AllWellFormed(nodes')
    decreases |es|
  {
    if es == [] then nodes else Run(Apply(nodes, es[0]), es[1..])
  }

  ghost predicate AllBalanced(nodes: Nodes) {
    forall name :: name in nodes ==> Balanced(nodes[name])
  }

  ghost predicate AllExact(nodes: Nodes) {
    forall name :: name in nodes ==> PortsExact(nodes[name])
  }

  predicate ValidEvent(e: Event) {
    e.Ask? ==> ValidAsk(e.request, e.limit, e.memory)
  }

  lemma EventBalances(nodes: Nodes, e: Event)
    requires AllBalanced(nodes) && ValidEvent(e)
    ensures AllWellFormed(nodes) && AllBalanced(Apply(nodes, e))
  {
    if e.node in nodes {
      var n := nodes[e.node];
      match e
      case Attach(_, _) =>
      case Ask(_, g, request, limit, memory, key) => RegisterBalances(n, g, request, limit, memory, key, 0);
      case Remove(_, g, key) => ReleaseBalances(n, g, key);
      case SetUuid(_, g, uuid) => if g in n.gpus { BindBalances(n, g, uuid); }
    }
  }

  /**
   Conservation over every run: on every node each GPU's usage and memory are the sums over its
   requests, usage never passes 1, and no GPU is kept without requests.
   */
  lemma {:induction false} RunsStayBalanced(nodes: Nodes, es: seq<Event>)
    requires AllBalanced(nodes) && forall i :: 0 <= i < |es| ==> ValidEvent(es[i])
    ensures AllWellFormed(nodes) && AllBalanced(Run(nodes, es))
    decreases |es|
  {
    if es != [] {
      EventBalances(nodes, es[0]);
      RunsStayBalanced(Apply(nodes, es[0]), es[1..]);
    }
  }

  /** The event does not ask for a 512th index: it adds no request, or the node has fewer than 511. */
  predicate PortLeft(nodes: Nodes, e: Event) {
    e.Ask? && e.node in nodes && Accepts(nodes[e.node], e.gpuid, e.request, e.key)
    ==> |LiveSlots(nodes[e.node])| < PORTS - 1
  }

  lemma EventPorts(nodes: Nodes, e: Event)
    requires AllExact(nodes)
    ensures AllWellFormed(nodes) && (AllExact(Apply(nodes, e)) <==> PortLeft(nodes, e))
  {
    if e.node !in nodes {
      if e.Attach? { NewNodeExact(e.uuids); }
    } else {
      var n := nodes[e.node];
      var n' := OnNode(n, e);
      assert PortsExact(n') <==> PortLeft(nodes, e) by {
        match e
        case Attach(_, uuids) => SameSlotsExact(n, n');
        case Ask(_, g, request, limit, memory, key) => RegisterPorts(n, g, request, limit, memory, key, 0);
        case Remove(_, g, key) => ReleasePorts(n, g, key);
        case SetUuid(_, g, uuid) => if g in n.gpus { BindAndCleanPorts(n, g, uuid); }
      }
      assert Apply(nodes, e)[e.node] == n';
    }
  }

  ghost predicate ExactThroughout(nodes: Nodes, es: seq<Event>)
    requires AllWellFormed(nodes)
    decreases |es|
  {
    AllExact(nodes) && (es == [] || ExactThroughout(Apply(nodes, es[0]), es[1..]))
  }

  ghost predicate PortsSuffice(nodes: Nodes, es: seq<Event>)
    requires AllWellFormed(nodes)
    decreases |es|
  {
    es == [] || (PortLeft(nodes, es[0]) && PortsSuffice(Apply(nodes, es[0]), es[1..]))
  }

  /**
   Port exactness over every run: live ports stay distinct, in 50051..50561 and equal to the masked
   indices, in every state of the run, exactly when no request is added to a node that has 511.
   */
  lemma {:induction false} RunsKeepPortsExact(nodes: Nodes, es: seq<Event>)
    requires AllExact(nodes) && AllWellFormed(nodes)
    ensures ExactThroughout(nodes, es) <==> PortsSuffice(nodes, es)
    decreases |es|
  {
    if es != [] {
      EventPorts(nodes, es[0]);
      if PortLeft(nodes, es[0]) {
        RunsKeepPortsExact(Apply(nodes, es[0]), es[1..]);
      }
    }
  }

  /** A restart that fits what was persisted starts a run that stays in balance. */
  lemma RestartThenRun(nodes: Nodes, ds: seq<Rebuild.DummyPod>, rs: seq<Rebuild.Replica>, es: seq<Event>)
    requires forall name :: name in nodes ==> Rebuild.Idle(nodes[name])
    requires Rebuild.Init(nodes, ds, rs).Boot?
    requires forall name, g :: Rebuild.HasEntry(Rebuild.Init(nodes, ds, rs).nodes, name, g) ==>
               SumRequest(Rebuild.EntriesFor(rs, name, g)) <= 1.0
    requires forall i :: 0 <= i < |es| ==> ValidEvent(es[i])
    ensures var start := Rebuild.CleanAll(Rebuild.Init(nodes, ds, rs).nodes);
            AllWellFormed(start) && AllBalanced(Run(start, es))
  {
    Rebuild.RestartTheorem(nodes, ds, rs);
    var booted := Rebuild.Init(nodes, ds, rs).nodes;
    forall name | name in booted ensures Balanced(Rebuild.CleanAll(booted)[name]) {
      assert forall g :: g in booted[name].gpus ==> Rebuild.HasEntry(booted, name, g);
    }
    RunsStayBalanced(Rebuild.CleanAll(booted), es);
  }

  // ----- Hellos and UUIDs

  /** A first hello makes a node with just the announced devices; a later one replaces only those. */
  lemma HelloKnowsDevices(nodes: Nodes, name: string, uuids: set<string>)
    requires AllWellFormed(nodes)
    ensures var n' := Apply(nodes, Attach(name, uuids));
            && n'.Keys == nodes.Keys + {name} && n'[name].uuids == uuids
            && (name !in nodes ==>
                  n'[name].gpus == map[] && n'[name].ports.masked == {0} && n'[name].ports.current == 0)
            && (name in nodes ==> n'[name].gpus == nodes[name].gpus && n'[name].ports == nodes[name].ports)
            && forall other :: other in nodes && other != name ==> n'[other] == nodes[other]
  {
  }

  /** The devices of the node's last hello, if it said any. */
  function LastHello(es: seq<Event>, name: string): Option<set<string>> {
    if es == [] then None
    else if es[|es| - 1].Attach? && es[|es| - 1].node == name then Some(es[|es| - 1].uuids)
    else LastHello(es[..|es| - 1], name)
  }

  lemma {:induction false} RunPushed(nodes: Nodes, es: seq<Event>, e: Event)
    requires AllWellFormed(nodes)
    ensures Run(nodes, es + [e]) == Apply(Run(nodes, es), e)
    decreases |es|
  {
    if es == [] {
      assert ([e])[1..] == [] && es + [e] == [e];
    } else {
      RunPushed(Apply(nodes, es[0]), es[1..], e);
      assert (es + [e])[1..] == es[1..] + [e];
    }
  }

  /** Over every run a node exists exactly when it said hello, and knows the devices it said last. */
  lemma {:induction false} DevicesAreThoseSaidLast(es: seq<Event>, name: string)
    ensures AllWellFormed(map[]) && (name in Run(map[], es) <==> LastHello(es, name).Some?)
    ensures name in Run(map[], es) ==> Run(map[], es)[name].uuids == LastHello(es, name).value
  {
    if es != [] {
      var front, e := es[..|es| - 1], es[|es| - 1];
      DevicesAreThoseSaidLast(front, name);
      RunPushed(map[], front, e);
      assert es == front + [e];
      EventKeepsDevices(Run(map[], front), e, name);
    }
  }

  lemma EventKeepsDevices(nodes: Nodes, e: Event, name: string)
    requires AllWellFormed(nodes)
    ensures var n' := Apply(nodes, e);
            if e.Attach? && e.node == name then name in n' && n'[name].uuids == e.uuids
            else (name in n' <==> name in nodes) && (name in nodes ==> n'[name].uuids == nodes[name].uuids)
  {
  }

  /** Over every run: a dummy pod that reports one of the devices said last binds its GPU and re-queues its keys. */
  lemma SaidDeviceBinds(es: seq<Event>, name: string, gpuid: string, uuid: string, q: Queue)
    requires AllWellFormed(map[]) && name in Run(map[], es) && gpuid in Run(map[], es)[name].gpus
    requires LastHello(es, name).Some? && uuid in LastHello(es, name).value && Consistent(q)
    ensures var n := Run(map[], es)[name];
            var after := Run(map[], es + [SetUuid(name, gpuid, uuid)]);
            && name in after && gpuid in after[name].gpus && after[name].gpus[gpuid].uuid == uuid
            && forall e :: e in n.gpus[gpuid].podList ==>
                 var q' := AddAll(q, Bind(n, gpuid, uuid).1); e.key in q'.items || e.key in q'.processing
  {
    DevicesAreThoseSaidLast(es, name);
    RunPushed(map[], es, SetUuid(name, gpuid, uuid));
    BindRequeuesEveryRequest(Run(map[], es)[name], gpuid, uuid, q);
  }

  /** An unknown UUID binds nothing, a known one only this GPU, whose keys are put back in order. */
  lemma BindExactly(n: Node, gpuid: string, uuid: string)
    requires gpuid in n.gpus
    ensures var (n', keys) := Bind(n, gpuid, uuid);
            && (uuid !in n.uuids ==> n' == n && keys == [])
            && (uuid in n.uuids ==>
                  && n'.gpus.Keys == n.gpus.Keys && n'.uuids == n.uuids && n'.ports == n.ports
                  && n'.gpus[gpuid] == n.gpus[gpuid].(uuid := uuid)
                  && |keys| == |n.gpus[gpuid].podList|
                  && (forall i :: 0 <= i < |keys| ==> keys[i] == n.gpus[gpuid].podList[i].key)
                  && forall g :: g in n.gpus && g != gpuid ==> n'.gpus[g] == n.gpus[g])
  {
    KeysInOrder(n.gpus[gpuid].podList);
  }

  lemma {:induction false} KeysInOrder(pl: seq<PodRequest>)
    ensures |Keys(pl)| == |pl| && forall i :: 0 <= i < |pl| ==> Keys(pl)[i] == pl[i].key
  {
    if pl != [] {
      KeysInOrder(pl[1..]);
    }
  }

  /** Binding a UUID puts the key of every request listed on the GPU back on the work queue. */
  lemma BindRequeuesEveryRequest(n: Node, gpuid: string, uuid: string, q: Queue)
    requires gpuid in n.gpus && uuid in n.uuids && Consistent(q)
    ensures var q' := AddAll(q, Bind(n, gpuid, uuid).1);
            && Consistent(q') && Bind(n, gpuid, uuid).0.gpus[gpuid].uuid == uuid
            && forall e :: e in n.gpus[gpuid].podList ==> e.key in q'.items || e.key in q'.processing
  {
    var pl := n.gpus[gpuid].podList;
    AddAllConsistent(q, Keys(pl));
    KeysInOrder(pl);
    forall e | e in pl ensures e.key in Keys(pl) {
      var i :| 0 <= i < |pl| && pl[i] == e;
      assert Keys(pl)[i] == e.key;
    }
  }
}
