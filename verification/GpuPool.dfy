/**
 pkg/devicemanager/gpupool.go as functions on values: one node of the device manager, with its
 shared GPUs and its pod-manager ports. Float requests are exact reals.
 */
module GpuPool {
  import opened Options
  import opened Sums
  import opened Bitmap64s
  import opened RoundRobin

  const PORT_START: int := 50050
  const PORTS: nat := 512

  datatype PodRequest = PodRequest(key: string, request: real, limit: real, memory: int, port: int)

  datatype Gpu = Gpu(uuid: string, usage: real, mem: int, podList: seq<PodRequest>)

  datatype Node = Node(gpus: map<string, Gpu>, uuids: set<string>, ports: Ring)

  /** One line for syncConfig to send: a GPU and its requests. */
  datatype Config = Config(uuid: string, podList: seq<PodRequest>)

  /** errCode of getPhysicalGPUuuid with the value left in *port, and the config sent. */
  datatype Answer = Answer(node: Node, uuid: string, code: int, port: int, sent: Option<Config>)

  function IndexOf(key: string, pl: seq<PodRequest>): (i: nat)
    ensures i <= |pl|
    ensures i < |pl| ==> pl[i].key == key
    ensures forall j :: 0 <= j < i ==> pl[j].key != key
  {
    if pl == [] || pl[0].key == key then 0 else 1 + IndexOf(key, pl[1..])
  }

  function Find(key: string, pl: seq<PodRequest>): Option<PodRequest> {
    var i := IndexOf(key, pl);
    if i < |pl| then Some(pl[i]) else None
  }

  /** A node as the first config client or dummy pod creates it: index 0 is reserved. */
  function NewNode(uuids: set<string>): Node {
    Node(map[], uuids, Ring({0}, 0))
  }

  ghost predicate WellFormed(n: Node) {
    n.ports.current <= PORTS
  }

  const UNUSED := Gpu("", 0.0, 0, [])

  function GpuAt(n: Node, gpuid: string): Gpu {
    if gpuid in n.gpus then n.gpus[gpuid] else UNUSED
  }

  function Charged(gpu: Gpu, e: PodRequest): Gpu {
    gpu.(usage := gpu.usage + e.request, mem := gpu.mem + e.memory, podList := gpu.podList + [e])
  }

  /** Charge e to its GPU, creating the GPU's entry if there is none. */
  function Push(n: Node, gpuid: string, e: PodRequest, ports: Ring): Node {
    n.(gpus := n.gpus[gpuid := Charged(GpuAt(n, gpuid), e)], ports := ports)
  }

  /** Whether a call has a request to add, and may: a GPU without entry is not checked. */
  predicate Accepts(n: Node, gpuid: string, request: real, key: string) {
    gpuid in n.gpus ==>
      Find(key, n.gpus[gpuid].podList) == None && n.gpus[gpuid].usage + request <= 1.0
  }

  /** The next port: 50049 once none is free, since -1 is compared after PORT_START is added. */
  function PortOffered(n: Node): int
    requires WellFormed(n)
  {
    Next(PORTS, n.ports) + PORT_START
  }

  /** The answer once the request is listed: code 1 while the GPU has no UUID yet. */
  function Served(n: Node, gpuid: string, port: int): Answer {
    var gpu := GpuAt(n, gpuid);
    if gpu.uuid == "" then Answer(n, "", 1, port, None)
    else Answer(n, gpu.uuid, 0, port, Some(Config(gpu.uuid, gpu.podList)))
  }

  /** What getPhysicalGPUuuid does on a known node: code 3 is never answered. */
  function Register(n: Node, gpuid: string, request: real, limit: real, memory: int, key: string,
                    port: int): (a: Answer)
    requires WellFormed(n)
    ensures WellFormed(a.node) && a.code in {0, 1, 2}
  {
    NextIsNearestFree(PORTS, n.ports);
    var offered := PortOffered(n);
    if Accepts(n, gpuid, request, key) then
      var e := PodRequest(key, request, limit, memory, offered);
      Served(Push(n, gpuid, e, AfterNext(PORTS, n.ports)), gpuid, offered)
    else
      match Find(key, n.gpus[gpuid].podList)
      case None => Answer(n, "", 2, port, None)
      case Some(e) => Served(n, gpuid, e.port)
  }

  /** Code 2 means a GPU in use, a key it does not list, and a total past 1. */
  lemma RefusedOnlyPastOne(n: Node, gpuid: string, request: real, limit: real, memory: int, key: string, port: int)
    requires WellFormed(n)
    ensures Register(n, gpuid, request, limit, memory, key, port).code == 2
            <==> gpuid in n.gpus && Find(key, n.gpus[gpuid].podList) == None && n.gpus[gpuid].usage + request > 1.0
  {
  }

  datatype Removal = Removal(node: Node, sent: Option<Config>)

  /** The body of removeSharePodDepFromList for one pod, on a known node. */
  function Release(n: Node, gpuid: string, key: string): Removal {
    if gpuid !in n.gpus then Removal(n, None)
    else
      var gpu := n.gpus[gpuid];
      var i := IndexOf(key, gpu.podList);
      if i == |gpu.podList| then Removal(n, None)
      else
        var gone := gpu.podList[i];
        var rest := RemoveAt(gpu.podList, i);
        var ports := n.ports.(masked := n.ports.masked - Index(gone.port - PORT_START));
        if rest == [] then
          Removal(n.(gpus := n.gpus - {gpuid}, ports := ports), Some(Config(gpu.uuid, [])))
        else
          var gpu' := gpu.(usage := gpu.usage - gone.request, mem := gpu.mem - gone.memory, podList := rest);
          Removal(n.(gpus := n.gpus[gpuid := gpu'], ports := ports), Some(Config(gpu.uuid, rest)))
  }

  function Keys(pl: seq<PodRequest>): seq<string> {
    if pl == [] then [] else [pl[0].key] + Keys(pl[1..])
  }

  /** getAndSetUUIDFromDummyPod once the log is read: an unknown UUID changes nothing. */
  function Bind(n: Node, gpuid: string, uuid: string): (r: (Node, seq<string>))
    requires gpuid in n.gpus
  {
    if uuid !in n.uuids then (n, [])
    else (n.(gpus := n.gpus[gpuid := n.gpus[gpuid].(uuid := uuid)]), Keys(n.gpus[gpuid].podList))
  }

  /** cleanOrphanDummyPod on one node. */
  function Clean(n: Node): Node {
    n.(gpus := map g | g in n.gpus && n.gpus[g].podList != [] :: n.gpus[g])
  }

  // ----- What a call changes

  /** An accepted request is listed last and charged to its GPU, under the port answered; nothing else changes. */
  lemma RegisterAddsExactly(n: Node, gpuid: string, request: real, limit: real, memory: int, key: string, port: int)
    requires WellFormed(n) && Accepts(n, gpuid, request, key)
    ensures var a := Register(n, gpuid, request, limit, memory, key, port);
            var before, after := GpuAt(n, gpuid), GpuAt(a.node, gpuid);
            && after.podList == before.podList + [PodRequest(key, request, limit, memory, a.port)]
            && after.usage == before.usage + request && after.mem == before.mem + memory && after.uuid == before.uuid
            && a.node.gpus.Keys == n.gpus.Keys + {gpuid} && a.node.uuids == n.uuids
            && forall g :: g in n.gpus && g != gpuid ==> a.node.gpus[g] == n.gpus[g]
  {
  }

  /** Any other call changes nothing: it answers the listed request's port, or refuses. */
  lemma RegisterElseNothing(n: Node, gpuid: string, request: real, limit: real, memory: int, key: string, port: int)
    requires WellFormed(n) && !Accepts(n, gpuid, request, key)
    ensures var a := Register(n, gpuid, request, limit, memory, key, port);
            && a.node == n
            && match Find(key, GpuAt(n, gpuid).podList)
               case Some(e) => a.code in {0, 1} && a.port == e.port
               case None => a.code == 2 && a.port == port && a.uuid == "" && a.sent == None
  {
  }

  /** Code 0 comes with the GPU's UUID, code 1 exactly while it has none. */
  lemma AnswerTellsUuid(n: Node, gpuid: string, request: real, limit: real, memory: int, key: string, port: int)
    requires WellFormed(n)
    ensures var a := Register(n, gpuid, request, limit, memory, key, port);
            var uuid := GpuAt(a.node, gpuid).uuid;
            && uuid == GpuAt(n, gpuid).uuid
            && (a.code == 0 ==> a.uuid == uuid != "")
            && (a.code == 1 ==> uuid == "" && a.uuid == "")
  {
  }

  /** A listed request is taken off its list and its GPU, an emptied GPU is deleted; nothing else changes. */
  lemma ReleaseRemovesExactly(n: Node, gpuid: string, key: string)
    requires Find(key, GpuAt(n, gpuid).podList).Some?
    ensures var n' := Release(n, gpuid, key).node;
            var gpu := GpuAt(n, gpuid);
            var e, rest := Find(key, gpu.podList).value, RemoveAt(gpu.podList, IndexOf(key, gpu.podList));
            && (rest == [] ==> gpuid !in n'.gpus)
            && (rest != [] ==> gpuid in n'.gpus
                               && n'.gpus[gpuid] == Gpu(gpu.uuid, gpu.usage - e.request, gpu.mem - e.memory, rest))
            && n'.gpus.Keys + {gpuid} == n.gpus.Keys
            && (forall g :: g in n.gpus && g != gpuid ==> n'.gpus[g] == n.gpus[g])
            && n'.uuids == n.uuids && n'.ports.current == n.ports.current
  {
  }

  lemma ReleaseElseNothing(n: Node, gpuid: string, key: string)
    requires Find(key, GpuAt(n, gpuid).podList) == None
    ensures Release(n, gpuid, key) == Removal(n, None)
  {
  }

  // ----- Conservation

  function RequestOf(): PodRequest -> real { (e: PodRequest) => e.request }
  function MemoryOf(): PodRequest -> int { (e: PodRequest) => e.memory }

  function SumRequest(pl: seq<PodRequest>): real {
    SumReal(RequestOf(), pl)
  }

  function SumMemory(pl: seq<PodRequest>): int {
    Sum(MemoryOf(), pl)
  }

  /** What the controller checks before it registers a pod. */
  predicate ValidAsk(request: real, limit: real, memory: int) {
    0.0 <= request <= limit <= 1.0 && memory >= 0
  }

  ghost predicate ValidEntries(pl: seq<PodRequest>) {
    forall i :: 0 <= i < |pl| ==> ValidAsk(pl[i].request, pl[i].limit, pl[i].memory)
  }

  /** The totals of a GPU are those of its requests. */
  ghost predicate Tallied(gpu: Gpu) {
    && gpu.usage == SumRequest(gpu.podList)
    && gpu.mem == SumMemory(gpu.podList)
    && ValidEntries(gpu.podList)
  }

  ghost predicate Conserved(gpu: Gpu) {
    Tallied(gpu) && gpu.usage <= 1.0
  }

  /** The books of a node balance, and no GPU is kept without requests. */
  ghost predicate Balanced(n: Node) {
    && WellFormed(n)
    && forall g :: g in n.gpus ==> Conserved(n.gpus[g]) && n.gpus[g].podList != []
  }

  lemma ChargedTallied(gpu: Gpu, e: PodRequest)
    requires Tallied(gpu) && ValidAsk(e.request, e.limit, e.memory)
    ensures Tallied(Charged(gpu, e))
  {
    SumRealPushed(RequestOf(), gpu.podList, e);
    SumPushed(MemoryOf(), gpu.podList, e);
  }

  lemma PushBalances(n: Node, gpuid: string, e: PodRequest, ports: Ring)
    requires Balanced(n) && ValidAsk(e.request, e.limit, e.memory) && ports.current <= PORTS
    requires GpuAt(n, gpuid).usage + e.request <= 1.0
    ensures Balanced(Push(n, gpuid, e, ports))
  {
    ChargedTallied(GpuAt(n, gpuid), e);
  }

  /** Registering keeps the books: usage is charged once per listed request and never passes 1. */
  lemma RegisterBalances(n: Node, gpuid: string, request: real, limit: real, memory: int, key: string, port: int)
    requires Balanced(n) && ValidAsk(request, limit, memory)
    ensures Balanced(Register(n, gpuid, request, limit, memory, key, port).node)
  {
    if Accepts(n, gpuid, request, key) {
      NextIsNearestFree(PORTS, n.ports);
      PushBalances(n, gpuid, PodRequest(key, request, limit, memory, PortOffered(n)), AfterNext(PORTS, n.ports));
    }
  }

  lemma ReleaseBalances(n: Node, gpuid: string, key: string)
    requires Balanced(n)
    ensures Balanced(Release(n, gpuid, key).node)
  {
    if gpuid in n.gpus {
      var pl := n.gpus[gpuid].podList;
      var i := IndexOf(key, pl);
      if i < |pl| {
        SumRealRemoved(RequestOf(), pl, i);
        SumRemoved(MemoryOf(), pl, i);
      }
    }
  }

  lemma BindBalances(n: Node, gpuid: string, uuid: string)
    requires Balanced(n) && gpuid in n.gpus
    ensures Balanced(Bind(n, gpuid, uuid).0)
  {
  }

  // ----- Register and release as inverses

  lemma FindPushed(pl: seq<PodRequest>, e: PodRequest)
    requires Find(e.key, pl) == None
    ensures IndexOf(e.key, pl + [e]) == |pl| && RemoveAt(pl + [e], |pl|) == pl
  {
    var all := pl + [e];
    assert all[|pl|].key == e.key;
    assert forall i :: 0 <= i < |pl| ==> all[i] == pl[i];
  }

  /** A key is charged at most once per GPU: repeating the call changes nothing and repeats the port. */
  lemma RegisterIsIdempotent(n: Node, gpuid: string, request: real, limit: real, memory: int, key: string,
                             port: int, request': real, limit': real, memory': int, port': int)
    requires WellFormed(n)
    requires Register(n, gpuid, request, limit, memory, key, port).code != 2
    ensures var first := Register(n, gpuid, request, limit, memory, key, port);
            && WellFormed(first.node)
            && var again := Register(first.node, gpuid, request', limit', memory', key, port');
               && again.node == first.node && again.port == first.port
               && again.code == first.code && again.uuid == first.uuid
  {
    var first := Register(n, gpuid, request, limit, memory, key, port);
    if Accepts(n, gpuid, request, key) {
      FindPushed(GpuAt(n, gpuid).podList, PodRequest(key, request, limit, memory, PortOffered(n)));
    }
  }

  /** No key is listed twice. */
  ghost predicate KeysDiffer(pl: seq<PodRequest>) {
    forall i, j :: 0 <= i < j < |pl| ==> pl[i].key != pl[j].key
  }

  lemma PushedKeysDiffer(pl: seq<PodRequest>, e: PodRequest)
    requires KeysDiffer(pl) && Find(e.key, pl) == None
    ensures KeysDiffer(pl + [e])
  {
    assert forall i :: 0 <= i < |pl| ==> pl[i].key != e.key;
  }

  /** Registering never lists a key twice, and neither does releasing. */
  lemma RegisterKeysDiffer(n: Node, gpuid: string, request: real, limit: real, memory: int, key: string, port: int,
                           g: string)
    requires WellFormed(n) && KeysDiffer(GpuAt(n, g).podList)
    ensures KeysDiffer(GpuAt(Register(n, gpuid, request, limit, memory, key, port).node, g).podList)
  {
    if g == gpuid && Accepts(n, gpuid, request, key) {
      PushedKeysDiffer(GpuAt(n, gpuid).podList, PodRequest(key, request, limit, memory, PortOffered(n)));
    }
  }

  lemma ReleaseKeysDiffer(n: Node, gpuid: string, key: string, g: string)
    requires KeysDiffer(GpuAt(n, g).podList)
    ensures KeysDiffer(GpuAt(Release(n, gpuid, key).node, g).podList)
  {
  }

  lemma ReleaseUnlists(n: Node, gpuid: string, key: string)
    requires KeysDiffer(GpuAt(n, gpuid).podList)
    ensures Find(key, GpuAt(Release(n, gpuid, key).node, gpuid).podList) == None
  {
    var pl := GpuAt(n, gpuid).podList;
    var i := IndexOf(key, pl);
    if i < |pl| {
      assert forall j :: 0 <= j < |pl| && j != i ==> pl[j].key != key;
      assert forall e :: e in RemoveAt(pl, i) ==> e.key != key;
    }
  }

  /**
   Register of a new key and then release of it restores every GPU entry and the masked set (the
   cursor moves on), with or without a free port, exactly when the GPU had no entry or a
   non-empty one: release deletes an entry whose list runs empty.
   */
  lemma ReleaseUndoesRegister(n: Node, gpuid: string, request: real, limit: real, memory: int, key: string, port: int)
    requires WellFormed(n) && Accepts(n, gpuid, request, key)
    ensures var back := Release(Register(n, gpuid, request, limit, memory, key, port).node, gpuid, key).node;
            && back.ports.masked == n.ports.masked && back.uuids == n.uuids
            && (back.gpus == n.gpus <==> gpuid !in n.gpus || n.gpus[gpuid].podList != [])
  {
    NextIsNearestFree(PORTS, n.ports);
    var entry := PodRequest(key, request, limit, memory, PortOffered(n));
    assert Register(n, gpuid, request, limit, memory, key, port).node
           == Push(n, gpuid, entry, AfterNext(PORTS, n.ports));
    PopUndoesPush(n, gpuid, entry, AfterNext(PORTS, n.ports));
  }

  lemma PopUndoesPush(n: Node, gpuid: string, e: PodRequest, ports: Ring)
    requires Find(e.key, GpuAt(n, gpuid).podList) == None
    ensures var back := Release(Push(n, gpuid, e, ports), gpuid, e.key).node;
            && back.ports.masked == ports.masked - Index(e.port - PORT_START)
            && back.uuids == n.uuids
            && (back.gpus == n.gpus <==> gpuid !in n.gpus || n.gpus[gpuid].podList != [])
  {
    var gpu := GpuAt(n, gpuid);
    FindPushed(gpu.podList, e);
    var back := Release(Push(n, gpuid, e, ports), gpuid, e.key).node;
    if gpu.podList != [] {
      assert back.gpus == n.gpus[gpuid := gpu];
    } else {
      assert back.gpus == n.gpus - {gpuid};
    }
  }
}
