/** A node can run out of ports: one GPU and 511 requests that ask for nothing of it. */
module FullPool {
  import opened Options
  import opened RoundRobin
  import opened GpuPool
  import opened PortUse

  /** A different key for each k. */
  function Key(k: nat): string {
    seq(k, _ => 'k')
  }

  /** A new node after k calls with request 0 and new keys. */
  function Filled(uuids: set<string>, gpuid: string, k: nat): (n: Node)
    ensures WellFormed(n)
  {
    if k == 0 then NewNode(uuids) else Register(Filled(uuids, gpuid, k - 1), gpuid, 0.0, 0.0, 0, Key(k), 0).node
  }

  ghost predicate KeysWithin(pl: seq<PodRequest>, k: nat) {
    forall i :: 0 <= i < |pl| ==> |pl[i].key| <= k
  }

  lemma NewKey(pl: seq<PodRequest>, k: nat)
    requires KeysWithin(pl, k)
    ensures Find(Key(k + 1), pl) == None
  {
  }

  lemma PushCounts(n: Node, n': Node, s: Slot, port: int)
    requires PushedSlots(n, n', s, port)
    ensures |LiveSlots(n')| == |LiveSlots(n)| + 1
  {
    assert forall t :: t in LiveSlots(n) <==> Live(n, t);
    assert forall t :: t in LiveSlots(n') <==> Live(n', t);
    assert LiveSlots(n') == LiveSlots(n) + {s};
  }

  ghost predicate FilledTo(n: Node, gpuid: string, k: nat) {
    && PortsExact(n) && |LiveSlots(n)| == k
    && GpuAt(n, gpuid).usage == 0.0 && KeysWithin(GpuAt(n, gpuid).podList, k)
  }

  lemma FillStep(n: Node, gpuid: string, k: nat)
    requires FilledTo(n, gpuid, k) && k < PORTS - 1
    ensures FilledTo(Register(n, gpuid, 0.0, 0.0, 0, Key(k + 1), 0).node, gpuid, k + 1)
  {
    NewKey(GpuAt(n, gpuid).podList, k);
    RegisterPorts(n, gpuid, 0.0, 0.0, 0, Key(k + 1), 0);
    var e := PodRequest(Key(k + 1), 0.0, 0.0, 0, PortOffered(n));
    var n' := Register(n, gpuid, 0.0, 0.0, 0, Key(k + 1), 0).node;
    assert n' == Push(n, gpuid, e, AfterNext(PORTS, n.ports));
    PushSlots(n, gpuid, e, AfterNext(PORTS, n.ports));
    PushCounts(n, n', Slot(gpuid, |GpuAt(n, gpuid).podList|), e.port);
    assert GpuAt(n', gpuid).podList == GpuAt(n, gpuid).podList + [e];
  }

  /** Each of the first 511 calls is accepted and keeps the ports exact. */
  lemma {:induction false} FillsExactly(uuids: set<string>, gpuid: string, k: nat)
    requires k <= PORTS - 1
    ensures FilledTo(Filled(uuids, gpuid, k), gpuid, k)
  {
    if k == 0 {
      NewNodeExact(uuids);
      assert LiveSlots(NewNode(uuids)) == {};
    } else {
      FillsExactly(uuids, gpuid, k - 1);
      FillStep(Filled(uuids, gpuid, k - 1), gpuid, k - 1);
    }
  }

  /** After 511 calls the next two new keys both get port 50049, and the ports are no longer exact. */
  lemma PortsRunOut(uuids: set<string>, gpuid: string)
    ensures var n := Filled(uuids, gpuid, PORTS - 1);
            var a := Register(n, gpuid, 0.0, 0.0, 0, Key(PORTS), 0);
            var b := Register(a.node, gpuid, 0.0, 0.0, 0, Key(PORTS + 1), 0);
            && PortsExact(n) && !PortsExact(a.node)
            && a.code in {0, 1} && b.code in {0, 1} && a.port == b.port == 50049
  {
    var n := Filled(uuids, gpuid, PORTS - 1);
    FillsExactly(uuids, gpuid, PORTS - 1);
    NewKey(GpuAt(n, gpuid).podList, PORTS - 1);
    NewKey(GpuAt(n, gpuid).podList, PORTS);
    assert |Key(PORTS)| != |Key(PORTS + 1)|;
    FullPoolSharesAPort(n, gpuid, 0.0, Key(PORTS), Key(PORTS + 1));
    RegisterPorts(n, gpuid, 0.0, 0.0, 0, Key(PORTS), 0);
  }
}
