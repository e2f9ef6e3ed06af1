/**
 pkg/devicemanager: the mutable per-node record and the device manager's table of them. Each
 critical section is one method, proved against its function on values. A GPU record and its
 container/list are values in the node's map, replaced where the source writes through a pointer.
 */
module PoolObjects {
  import opened Options
  import opened Sums
  import opened Bitmap64s
  import opened RoundRobin
  import opened RRBitmaps
  import opened GpuPool

  method FindInQueue(key: string, pl: seq<PodRequest>) returns (found: Option<PodRequest>)
    ensures found == Find(key, pl)
    ensures found.Some? ==> found.value in pl && found.value.key == key
    ensures found.None? <==> forall e :: e in pl ==> e.key != key
  {
    for k := 0 to |pl|
      invariant forall j :: 0 <= j < k ==> pl[j].key != key
    {
      if pl[k].key == key {
        return Some(pl[k]);
      }
    }
    return None;
  }

  /** Every port of the list has a word that Unmask can address. */
  ghost predicate Addressable(pl: seq<PodRequest>, words: nat) {
    forall i :: 0 <= i < |pl| ==> 0 <= GoQuot(pl[i].port - PORT_START) < words
  }

  lemma AddressableMore(pl: seq<PodRequest>, e: PodRequest, words: nat, words': nat)
    requires Addressable(pl, words) && words <= words' && 0 <= GoQuot(e.port - PORT_START) < words'
    ensures Addressable(pl + [e], words') && Addressable(pl, words')
  {
  }

  lemma AddressableLess(pl: seq<PodRequest>, i: nat, words: nat)
    requires Addressable(pl, words) && i < |pl|
    ensures Addressable(RemoveAt(pl, i), words) && 0 <= GoQuot(pl[i].port - PORT_START) < words
  {
  }

  lemma PutTwice(n: Node, gpuid: string, mid: Gpu, e: PodRequest, ports: Ring)
    requires gpuid in n.gpus
    requires mid == n.gpus[gpuid].(usage := n.gpus[gpuid].usage + e.request, mem := n.gpus[gpuid].mem + e.memory)
    ensures n.(gpus := n.gpus[gpuid := mid][gpuid := mid.(podList := mid.podList + [e])], ports := ports)
            == Push(n, gpuid, e, ports)
  {
  }

  class NodeInfo {
    var GPUID2GPU: map<string, Gpu>
    var UUID2Port: map<string, string>
    const PodManagerPortBitmap: RRBitmap

    ghost predicate Valid()
      reads this, PodManagerPortBitmap, PodManagerPortBitmap.bitmap
    {
      && PodManagerPortBitmap.Valid() && PodManagerPortBitmap.l == PORTS && PodManagerPortBitmap.Words() > 0
      && forall g :: g in GPUID2GPU ==> Addressable(GPUID2GPU[g].podList, PodManagerPortBitmap.Words())
    }

    ghost function Repr(): set<object> {
      {this, PodManagerPortBitmap, PodManagerPortBitmap.bitmap}
    }

    ghost function State(): Node
      reads this, PodManagerPortBitmap, PodManagerPortBitmap.bitmap
    {
      Node(GPUID2GPU, UUID2Port.Keys, PodManagerPortBitmap.State())
    }

    constructor (uuid2port: map<string, string>)
      ensures Valid() && fresh(Repr())
      ensures State() == Node(map[], uuid2port.Keys, Ring({0}, 0))
    {
      GPUID2GPU := map[];
      UUID2Port := uuid2port;
      PodManagerPortBitmap := new RRBitmap(PORTS);
      new;
      PodManagerPortBitmap.Mask(0);
    }

    /** The branch that creates the GPU's entry: nothing bounds its usage. */
    method StartGPU(gpuid: string, request: real, limit: real, memory: int, key: string, port: int)
      returns (code: int, port': int)
      requires Valid() && gpuid !in GPUID2GPU
      modifies Repr()
      ensures Valid() && WellFormed(old(State()))
      ensures code == 1 && port' == PortOffered(old(State()))
      ensures State() == Push(old(State()), gpuid, PodRequest(key, request, limit, memory, port'),
                              AfterNext(PORTS, old(State()).ports))
    {
      ghost var words := PodManagerPortBitmap.Words();
      var gpu := Gpu("", request, memory, []);
      var idx := PodManagerPortBitmap.FindNextFromCurrentAndSet();
      var tmp := idx + PORT_START;
      port', code := port, 3;
      if tmp != -1 {
        port' := tmp;
        var entry := PodRequest(key, request, limit, memory, port');
        gpu := gpu.(podList := gpu.podList + [entry]);
        GPUID2GPU := GPUID2GPU[gpuid := gpu];
        code := 1;
        assert gpu == Charged(UNUSED, entry);
        AddressableMore([], entry, words, PodManagerPortBitmap.Words());
      }
    }

    /** The branch that charges an existing GPU for a key it does not list. */
    method ChargeGPU(gpuid: string, request: real, limit: real, memory: int, key: string, port: int)
      returns (code: int, port': int)
      requires Valid() && gpuid in GPUID2GPU && GPUID2GPU[gpuid].usage + request <= 1.0
      modifies Repr()
      ensures Valid() && WellFormed(old(State()))
      ensures code == 0 && port' == PortOffered(old(State()))
      ensures State() == Push(old(State()), gpuid, PodRequest(key, request, limit, memory, port'),
                              AfterNext(PORTS, old(State()).ports))
    {
      ghost var n := State();
      ghost var words := PodManagerPortBitmap.Words();
      var gpu := GPUID2GPU[gpuid];
      GPUID2GPU := GPUID2GPU[gpuid := gpu.(usage := gpu.usage + request, mem := gpu.mem + memory)];
      ghost var mid := GPUID2GPU[gpuid];
      var idx := PodManagerPortBitmap.FindNextFromCurrentAndSet();
      var tmp := idx + PORT_START;
      port', code := port, 3;
      if tmp != -1 {
        port' := tmp;
        var entry := PodRequest(key, request, limit, memory, port');
        GPUID2GPU := GPUID2GPU[gpuid := GPUID2GPU[gpuid].(podList := GPUID2GPU[gpuid].podList + [entry])];
        code := 0;
        PutTwice(n, gpuid, mid, entry, PodManagerPortBitmap.State());
        AddressableMore(gpu.podList, entry, words, PodManagerPortBitmap.Words());
      }
    }

    /** getPhysicalGPUuuid past the node lookup; `sent` is what it passes to syncConfig. */
    method GetPhysicalGPUuuid(gpuid: string, request: real, limit: real, memory: int, key: string, port: int)
      returns (uuid: string, code: int, port': int, sent: Option<Config>)
      requires Valid()
      modifies Repr()
      ensures Valid() && WellFormed(old(State()))
      ensures Answer(State(), uuid, code, port', sent)
              == Register(old(State()), gpuid, request, limit, memory, key, port)
    {
      uuid, port', sent := "", port, None;
      if gpuid !in GPUID2GPU {
        code, port' := StartGPU(gpuid, request, limit, memory, key, port);
      } else {
        var podreq := FindInQueue(key, GPUID2GPU[gpuid].podList);
        if podreq.None? {
          if GPUID2GPU[gpuid].usage + request > 1.0 {
            return "", 2, port, None;
          }
          code, port' := ChargeGPU(gpuid, request, limit, memory, key, port);
          if code == 3 {
            return;
          }
        } else {
          port' := podreq.value.port;
        }
        if GPUID2GPU[gpuid].uuid == "" {
          code := 1;
        } else {
          uuid, code, sent := GPUID2GPU[gpuid].uuid, 0, Some(Config(GPUID2GPU[gpuid].uuid, GPUID2GPU[gpuid].podList));
        }
      }
    }

    /** Taking the i-th request of a GPU off its list, and its port back. */
    method TakeOff(gpuid: string, i: nat) returns (sent: Option<Config>)
      requires Valid() && gpuid in GPUID2GPU && i < |GPUID2GPU[gpuid].podList|
      requires IndexOf(GPUID2GPU[gpuid].podList[i].key, GPUID2GPU[gpuid].podList) == i
      modifies Repr()
      ensures Valid()
      ensures Removal(State(), sent) == Release(old(State()), gpuid, old(GPUID2GPU[gpuid].podList[i].key))
    {
      var gpu := GPUID2GPU[gpuid];
      var podRequest, rest := gpu.podList[i], RemoveAt(gpu.podList, i);
      AddressableLess(gpu.podList, i, PodManagerPortBitmap.Words());
      if |rest| == 0 {
        GPUID2GPU := GPUID2GPU - {gpuid};
      } else {
        GPUID2GPU := GPUID2GPU[gpuid := gpu.(podList := rest, usage := gpu.usage - podRequest.request,
                                              mem := gpu.mem - podRequest.memory)];
      }
      sent := Some(Config(gpu.uuid, rest));
      PodManagerPortBitmap.Unmask(podRequest.port - PORT_START);
    }

    /** One pod's turn in removeSharePodDepFromList; the inner loop stops at the removed element. */
    method RemovePod(gpuid: string, key: string) returns (sent: Option<Config>)
      requires Valid()
      modifies Repr()
      ensures Valid()
      ensures Removal(State(), sent) == Release(old(State()), gpuid, key)
    {
      sent := None;
      if gpuid in GPUID2GPU {
        var pl := GPUID2GPU[gpuid].podList;
        for i := 0 to |pl|
          invariant unchanged(Repr()) && sent == None
          invariant forall j :: 0 <= j < i ==> pl[j].key != key
        {
          if pl[i].key == key {
            sent := TakeOff(gpuid, i);
            return;
          }
        }
      }
    }

    /** The state update of getAndSetUUIDFromDummyPod, with the keys put back on the work queue. */
    method SetUUID(gpuid: string, uuid: string) returns (requeued: seq<string>)
      requires Valid() && gpuid in GPUID2GPU
      modifies this`GPUID2GPU
      ensures Valid() && (State(), requeued) == Bind(old(State()), gpuid, uuid)
    {
      requeued := [];
      var isFound := uuid in UUID2Port;
      if !isFound {
        return;
      }
      GPUID2GPU := GPUID2GPU[gpuid := GPUID2GPU[gpuid].(uuid := uuid)];
      var pl := GPUID2GPU[gpuid].podList;
      for k := 0 to |pl|
        invariant requeued + Keys(pl[k..]) == Keys(pl)
      {
        assert pl[k..][1..] == pl[k + 1..];
        requeued := requeued + [pl[k].key];
      }
      assert pl[|pl|..] == [] && requeued == Keys(pl);
    }

    /** cleanOrphanDummyPod on this node, deleting while it walks the map in any order. */
    method CleanOrphans()
      requires Valid()
      modifies this`GPUID2GPU
      ensures Valid() && State() == Clean(old(State()))
    {
      var todo := GPUID2GPU.Keys;
      ghost var before := GPUID2GPU;
      while todo != {}
        invariant todo <= before.Keys
        invariant GPUID2GPU == map g | g in before && (g in todo || before[g].podList != []) :: before[g]
        decreases todo
      {
        var g :| g in todo;
        todo := todo - {g};
        if |GPUID2GPU[g].podList| == 0 {
          GPUID2GPU := GPUID2GPU - {g};
        }
      }
    }
  }

  /** The nodesInfo table. Its lock makes each of these methods one step. */
  class DeviceManager {
    var nodesInfo: map<string, NodeInfo>
    /** Which name each object of the table belongs to: no two names share one. */
    ghost var owner: map<object, string>

    ghost predicate Owns(a: string, node: NodeInfo)
      reads this
    {
      && node as object in owner && owner[node] == a
      && node.PodManagerPortBitmap as object in owner && owner[node.PodManagerPortBitmap] == a
      && node.PodManagerPortBitmap.bitmap as object in owner && owner[node.PodManagerPortBitmap.bitmap] == a
    }

    ghost predicate Valid()
      reads this, owner.Keys
    {
      && this !in owner
      && forall a :: a in nodesInfo ==> Owns(a, nodesInfo[a]) && nodesInfo[a].Valid()
    }

    constructor ()
      ensures Valid() && owner == map[] && nodesInfo == map[]
    {
      nodesInfo := map[];
      owner := map[];
    }

    /** Every entry but this one is the same record in the same state. */
    twostate predicate OthersKept(nodeName: string)
      reads this, nodesInfo.Values, set a | a in nodesInfo :: nodesInfo[a].PodManagerPortBitmap,
            set a | a in nodesInfo :: nodesInfo[a].PodManagerPortBitmap.bitmap
    {
      forall a :: a in old(nodesInfo) && a != nodeName ==>
        a in nodesInfo && nodesInfo[a] == old(nodesInfo[a]) && nodesInfo[a].State() == old(nodesInfo[a].State())
    }

    /** A node none of whose objects changed is valid and has the state it had. */
    twostate lemma NodeKept(node: NodeInfo)
      requires old(node.Valid()) && unchanged(node.Repr())
      ensures node.Valid() && node.State() == old(node.State())
    {
    }

    /** What the first hello of a node's config client does to the table. */
    method AddNode(nodeName: string, uuid2port: map<string, string>)
      requires Valid() && nodeName !in nodesInfo
      modifies this
      ensures Valid() && OthersKept(nodeName)
      ensures nodesInfo.Keys == old(nodesInfo).Keys + {nodeName}
      ensures nodesInfo[nodeName].State() == Node(map[], uuid2port.Keys, Ring({0}, 0))
    {
      var node := new NodeInfo(uuid2port);
      nodesInfo := nodesInfo[nodeName := node];
      owner := owner[node := nodeName][node.PodManagerPortBitmap := nodeName];
      owner := owner[node.PodManagerPortBitmap.bitmap := nodeName];
      JoinsOthers(nodeName, node);
    }

    twostate lemma JoinsOthers(nodeName: string, new node: NodeInfo)
      requires old(Valid()) && nodeName !in old(nodesInfo) && nodesInfo == old(nodesInfo)[nodeName := node]
      requires fresh(node.Repr()) && node.Valid()
      requires owner == old(owner)[node := nodeName]
                                  [node.PodManagerPortBitmap := nodeName][node.PodManagerPortBitmap.bitmap := nodeName]
      requires forall a :: a in old(nodesInfo) ==> unchanged(old(nodesInfo)[a].Repr())
      ensures Valid() && OthersKept(nodeName)
    {
      forall a | a in old(nodesInfo)
        ensures nodesInfo[a] == old(nodesInfo[a]) && Owns(a, nodesInfo[a])
        ensures nodesInfo[a].Valid() && nodesInfo[a].State() == old(nodesInfo[a].State())
      {
        assert old(Owns(a, nodesInfo[a]));
        NodeKept(nodesInfo[a]);
      }
    }

    /** A hello: a node that reconnects gets its device list again. */
    method Attach(nodeName: string, uuid2port: map<string, string>)
      requires Valid()
      modifies this, owner.Keys
      ensures Valid() && OthersKept(nodeName)
      ensures nodesInfo.Keys == old(nodesInfo).Keys + {nodeName}
      ensures nodesInfo[nodeName].State() ==
                if nodeName in old(nodesInfo) then old(nodesInfo[nodeName].State()).(uuids := uuid2port.Keys)
                else Node(map[], uuid2port.Keys, Ring({0}, 0))
    {
      if nodeName !in nodesInfo {
        AddNode(nodeName, uuid2port);
      } else {
        nodesInfo[nodeName].UUID2Port := uuid2port;
        KeepOthers(nodeName);
      }
    }

    twostate lemma KeepOthers(nodeName: string)
      requires old(Valid()) && unchanged(this) && nodeName in nodesInfo && nodesInfo[nodeName].Valid()
      requires forall a :: a in nodesInfo && a != nodeName ==> unchanged(nodesInfo[a].Repr())
      ensures Valid() && OthersKept(nodeName)
    {
      forall a | a in nodesInfo && a != nodeName
        ensures nodesInfo[a].Valid() && nodesInfo[a].State() == old(nodesInfo[a].State())
      {
        NodeKept(nodesInfo[a]);
      }
    }

    method GetPhysicalGPUuuid(nodeName: string, gpuid: string, request: real, limit: real, memory: int, key: string,
                              port: int)
      returns (uuid: string, code: int, port': int, sent: Option<Config>)
      requires Valid()
      modifies this, owner.Keys
      ensures Valid() && nodesInfo == old(nodesInfo) && OthersKept(nodeName)
      ensures nodeName !in nodesInfo ==> (uuid, code, port', sent) == ("", 255, port, None)
      ensures nodeName in nodesInfo ==>
                var n := old(nodesInfo[nodeName].State());
                && WellFormed(n)
                && Answer(nodesInfo[nodeName].State(), uuid, code, port', sent)
                   == Register(n, gpuid, request, limit, memory, key, port)
    {
      if nodeName !in nodesInfo {
        return "", 255, port, None;
      }
      var node := nodesInfo[nodeName];
      uuid, code, port', sent := node.GetPhysicalGPUuuid(gpuid, request, limit, memory, key, port);
      KeepOthers(nodeName);
    }

    method RemovePod(nodeName: string, gpuid: string, key: string) returns (sent: Option<Config>)
      requires Valid()
      modifies this, owner.Keys
      ensures Valid() && nodesInfo == old(nodesInfo) && OthersKept(nodeName)
      ensures nodeName !in nodesInfo ==> sent == None
      ensures nodeName in nodesInfo ==>
                Removal(nodesInfo[nodeName].State(), sent) == Release(old(nodesInfo[nodeName].State()), gpuid, key)
    {
      sent := None;
      if nodeName in nodesInfo {
        sent := nodesInfo[nodeName].RemovePod(gpuid, key);
        KeepOthers(nodeName);
      }
    }
  }
}
