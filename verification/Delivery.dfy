/** From a register or release call in the pool to the processes that run on the node. */
module Delivery {
  import opened Text
  import opened Counting
  import opened GpuPool
  import opened Wire
  import opened Launcher

  /** What the node's launcher runs for a GPU once a message has reached it, whatever it ran before. */
  function ProcessesAfter(history: seq<FileEvent>, c: Config, f: FloatText): set<string> {
    match HandleRequest(Message(c, f))
    case None => Run(EMPTY_TABLE, history).procs.Keys
    case Some(files) => Run(EMPTY_TABLE, history + [FileEvent(files.ports, |c.podList|)]).procs.Keys
  }

  ghost predicate Sendable(n: Node, gpuid: string) {
    && ':' !in GpuAt(n, gpuid).uuid && '\n' !in GpuAt(n, gpuid).uuid
    && GoodKeys(GpuAt(n, gpuid).podList)
  }

  /** A message carries the list as it stands after the call, and a bound GPU's list never changes without one. */
  lemma ChangesAreSent(n: Node, gpuid: string, request: real, limit: real, memory: int, key: string, port: int)
    requires WellFormed(n)
    ensures var a := Register(n, gpuid, request, limit, memory, key, port);
            && (a.sent.Some? ==> a.sent.value == Config(GpuAt(a.node, gpuid).uuid, GpuAt(a.node, gpuid).podList))
            && (GpuAt(n, gpuid).uuid != "" && GpuAt(a.node, gpuid).podList != GpuAt(n, gpuid).podList ==> a.sent.Some?)
    ensures var r := Release(n, gpuid, key);
            && (r.sent.Some? ==> r.sent.value == Config(GpuAt(n, gpuid).uuid, GpuAt(r.node, gpuid).podList))
            && (GpuAt(r.node, gpuid).podList != GpuAt(n, gpuid).podList ==> r.sent.Some?)
  {
  }

  lemma {:induction false} NameAt(pl: seq<PodRequest>, i: nat)
    requires i < |pl|
    ensures i < |NamesOf(pl)| && NamesOf(pl)[i] == PortName(pl[i])
  {
    if i > 0 {
      NameAt(pl[1..], i - 1);
    }
  }

  lemma NamesDiffer(pl: seq<PodRequest>)
    requires KeysDiffer(pl) && GoodKeys(pl)
    ensures |set e | e in pl :: PortName(e)| == |pl|
  {
    NamesOfList(pl);
    forall i, j | 0 <= i < j < |pl| ensures NamesOf(pl)[i] != NamesOf(pl)[j] {
      NameAt(pl, i);
      NameAt(pl, j);
      assert pl[i] in pl && pl[j] in pl;
      if PortName(pl[i]) == PortName(pl[j]) {
        NameDeterminesKey(pl[i], pl[j]);
      }
    }
    DistinctElements(NamesOf(pl));
  }

  /**
   Once a GPU's message has been handled the launcher runs exactly one process for each request
   listed, as long as no key is listed twice: also where requests share a port.
   */
  lemma OneProcessPerRequest(c: Config, history: seq<FileEvent>, f: FloatText)
    requires KeysDiffer(c.podList) && GoodKeys(c.podList) && PlainFloats(f) && ':' !in c.uuid && '\n' !in c.uuid
    ensures ProcessesAfter(history, c, f) == (set e | e in c.podList :: PortName(e))
    ensures |ProcessesAfter(history, c, f)| == |c.podList|
  {
    ProcessesFollowThePool(c, f, history, |c.podList|);
    NamesDiffer(c.podList);
  }

  /**
   A register call that is answered with a UUID ends with one process for each request listed on
   the GPU, that of its key under the port it answered among them, whether or not a port was free.
   */
  lemma RegisteredRequestRuns(n: Node, gpuid: string, request: real, limit: real, memory: int, key: string, port: int,
                              history: seq<FileEvent>, f: FloatText)
    requires WellFormed(n) && Sendable(n, gpuid) && KeysDiffer(GpuAt(n, gpuid).podList) && PlainFloats(f)
             && GoodKey(key)
    requires Register(n, gpuid, request, limit, memory, key, port).code == 0
    ensures var a := Register(n, gpuid, request, limit, memory, key, port);
            && a.sent.Some?
            && |ProcessesAfter(history, a.sent.value, f)| == |GpuAt(a.node, gpuid).podList|
            && key + " " + Decimal(a.port) in ProcessesAfter(history, a.sent.value, f)
  {
    var a := Register(n, gpuid, request, limit, memory, key, port);
    ChangesAreSent(n, gpuid, request, limit, memory, key, port);
    RegisterKeysDiffer(n, gpuid, request, limit, memory, key, port, gpuid);
    OneProcessPerRequest(a.sent.value, history, f);
    Listed(n, gpuid, request, limit, memory, key, port);
  }

  /** A call that is not refused leaves the key listed under the port it answers. */
  lemma Listed(n: Node, gpuid: string, request: real, limit: real, memory: int, key: string, port: int)
    requires WellFormed(n) && Register(n, gpuid, request, limit, memory, key, port).code != 2
    ensures var a := Register(n, gpuid, request, limit, memory, key, port);
            exists e :: e in GpuAt(a.node, gpuid).podList && e.key == key && e.port == a.port
  {
    var a := Register(n, gpuid, request, limit, memory, key, port);
    var pl := GpuAt(a.node, gpuid).podList;
    if Accepts(n, gpuid, request, key) {
      assert pl[|pl| - 1] in pl;
    } else {
      assert pl[GpuPool.IndexOf(key, pl)] in pl;
    }
  }
}
