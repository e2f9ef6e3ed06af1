/** Which pod-manager ports a node has given out, and when register keeps that exact. */
module PortUse {
  import opened Options
  import opened Sums
  import opened Counting
  import opened RoundRobin
  import opened GpuPool

  /** The place of one request on a node. */
  datatype Slot = Slot(gpuid: string, i: nat)

  ghost predicate Live(n: Node, s: Slot) {
    s.gpuid in n.gpus && s.i < |n.gpus[s.gpuid].podList|
  }

  function LiveSlots(n: Node): set<Slot> {
    set g, i | g in n.gpus && 0 <= i < |n.gpus[g].podList| :: Slot(g, i)
  }

  /** The port of a live request (0 for a slot that is not live). */
  function PortAt(n: Node, s: Slot): int {
    if s.gpuid in n.gpus && s.i < |n.gpus[s.gpuid].podList| then n.gpus[s.gpuid].podList[s.i].port else 0
  }

  ghost predicate PortsDistinct(n: Node) {
    forall s, t :: Live(n, s) && Live(n, t) && PortAt(n, s) == PortAt(n, t) ==> s == t
  }

  /** Every live port is one of 50051..50561. */
  ghost predicate PortsInRange(n: Node) {
    forall s :: Live(n, s) ==> PORT_START < PortAt(n, s) < PORT_START + PORTS
  }

  ghost predicate HasPort(n: Node, port: int) {
    exists s :: Live(n, s) && PortAt(n, s) == port
  }

  /** The masked set is the reserved index and the indices of the live requests, nothing else. */
  ghost predicate MaskedIsLive(n: Node) {
    forall p: nat :: p in n.ports.masked <==> p == 0 || HasPort(n, p + PORT_START)
  }

  ghost predicate PortsExact(n: Node) {
    WellFormed(n) && PortsDistinct(n) && PortsInRange(n) && MaskedIsLive(n)
  }

  lemma NewNodeExact(uuids: set<string>)
    ensures PortsExact(NewNode(uuids))
  {
  }

  // ----- Register

  ghost predicate PushedSlots(n: Node, n': Node, s: Slot, port: int) {
    && !Live(n, s) && PortAt(n', s) == port
    && (forall t :: Live(n', t) <==> Live(n, t) || t == s)
    && (forall t :: Live(n, t) ==> PortAt(n', t) == PortAt(n, t))
  }

  lemma PushSlots(n: Node, gpuid: string, e: PodRequest, ports: Ring)
    ensures PushedSlots(n, Push(n, gpuid, e, ports), Slot(gpuid, |GpuAt(n, gpuid).podList|), e.port)
  {
  }

  lemma PushHasPort(n: Node, n': Node, s: Slot, port: int, q: int)
    requires PushedSlots(n, n', s, port)
    ensures HasPort(n', q) <==> HasPort(n, q) || q == port
  {
    if q == port {
      assert Live(n', s);
    }
    if HasPort(n, q) {
      var t :| Live(n, t) && PortAt(n, t) == q;
      assert Live(n', t) && PortAt(n', t) == q;
    }
  }

  lemma PushFreePort(n: Node, n': Node, s: Slot, r: nat)
    requires PortsExact(n) && PushedSlots(n, n', s, r + PORT_START)
    requires 0 < r < PORTS && r !in n.ports.masked && n'.ports == Ring(n.ports.masked + {r}, r + 1)
    ensures PortsExact(n')
  {
    forall q: int ensures HasPort(n', q) <==> HasPort(n, q) || q == r + PORT_START {
      PushHasPort(n, n', s, r + PORT_START, q);
    }
    assert !HasPort(n, r + PORT_START);
  }

  /** Register keeps the ports exact just when it has nothing to add or an index is free. */
  lemma RegisterPorts(n: Node, gpuid: string, request: real, limit: real, memory: int, key: string, port: int)
    requires PortsExact(n)
    ensures PortsExact(Register(n, gpuid, request, limit, memory, key, port).node)
            <==> !Accepts(n, gpuid, request, key) || |LiveSlots(n)| < PORTS - 1
  {
    PoolFullAt511(n);
    NextIsNearestFree(PORTS, n.ports);
    if Accepts(n, gpuid, request, key) {
      var e := PodRequest(key, request, limit, memory, PortOffered(n));
      var s := Slot(gpuid, |GpuAt(n, gpuid).podList|);
      var n' := Push(n, gpuid, e, AfterNext(PORTS, n.ports));
      PushSlots(n, gpuid, e, AfterNext(PORTS, n.ports));
      var r := Next(PORTS, n.ports);
      if r >= 0 {
        assert 0 in n.ports.masked;
        PushFreePort(n, n', s, r);
      } else {
        assert Live(n', s) && PortAt(n', s) == PORT_START - 1;
      }
    }
  }

  function IndexAt(n: Node, s: Slot): nat {
    if PortAt(n, s) > PORT_START then PortAt(n, s) - PORT_START else 0
  }

  lemma IndexIsMasked(n: Node, s: Slot)
    requires PortsExact(n) && Live(n, s)
    ensures 0 < IndexAt(n, s) < PORTS && IndexAt(n, s) in n.ports.masked
    ensures PortAt(n, s) == IndexAt(n, s) + PORT_START
  {
    assert HasPort(n, IndexAt(n, s) + PORT_START);
  }

  lemma MaskedIsIndex(n: Node, p: nat) returns (s: Slot)
    requires PortsExact(n) && p != 0 && p in n.ports.masked
    ensures Live(n, s) && IndexAt(n, s) == p
  {
    assert HasPort(n, p + PORT_START);
    s :| Live(n, s) && PortAt(n, s) == p + PORT_START;
  }

  function IndexOn(n: Node): Slot -> nat {
    (s: Slot) => IndexAt(n, s)
  }

  lemma IndicesDiffer(n: Node)
    requires PortsExact(n)
    ensures |Image(LiveSlots(n), IndexOn(n))| == |LiveSlots(n)|
  {
    forall s, t | s in LiveSlots(n) && t in LiveSlots(n) && IndexOn(n)(s) == IndexOn(n)(t) ensures s == t {
      assert Live(n, s) && Live(n, t);
      IndexIsMasked(n, s);
      IndexIsMasked(n, t);
    }
    InjectiveImage(LiveSlots(n), IndexOn(n));
  }

  lemma InUsed(n: Node, p: nat)
    requires PortsExact(n)
    ensures p in Image(LiveSlots(n), IndexOn(n)) <==> p != 0 && p in n.ports.masked
    ensures p in Image(LiveSlots(n), IndexOn(n)) ==> p < PORTS
  {
    if p in Image(LiveSlots(n), IndexOn(n)) {
      var s :| s in LiveSlots(n) && IndexOn(n)(s) == p;
      IndexIsMasked(n, s);
    }
    if p != 0 && p in n.ports.masked {
      var s := MaskedIsIndex(n, p);
      assert s in LiveSlots(n) && IndexOn(n)(s) == p;
    }
  }

  lemma SetsAgree(masked: set<nat>, used: set<nat>)
    requires 0 in masked && forall p: nat :: p in used <==> p != 0 && p in masked
    ensures masked == used + {0} && 0 !in used
  {
  }

  /** One masked index for each live request, and the reserved one. */
  lemma MaskedCount(n: Node) returns (used: set<nat>)
    requires PortsExact(n)
    ensures |used| == |LiveSlots(n)| && 0 !in used
    ensures n.ports.masked == used + {0} && forall p :: p in used ==> p < PORTS
  {
    used := Image(LiveSlots(n), IndexOn(n));
    IndicesDiffer(n);
    var masked := n.ports.masked;
    assert 0 in masked;
    forall p: nat
      ensures p in used <==> p != 0 && p in masked
      ensures p in used ==> p < PORTS
    {
      InUsed(n, p);
    }
    SetsAgree(masked, used);
  }

  /** The ports run out exactly at 511 live requests. */
  lemma PoolFullAt511(n: Node)
    requires PortsExact(n)
    ensures |LiveSlots(n)| <= PORTS - 1
    ensures Next(PORTS, n.ports) == -1 <==> |LiveSlots(n)| == PORTS - 1
  {
    var used := MaskedCount(n);
    BelowSize(PORTS);
    assert |used + {0}| == |used| + 1;
    SubsetSize(used + {0}, Below(PORTS));
    NextIsNearestFree(PORTS, n.ports);
  }

  // ----- Release, bind, clean

  /** The slot that t was before the request at s left its list. */
  function Before(s: Slot, t: Slot): Slot {
    if t.gpuid == s.gpuid && t.i >= s.i then Slot(t.gpuid, t.i + 1) else t
  }

  function After(s: Slot, t: Slot): Slot {
    if t.gpuid == s.gpuid && t.i > s.i then Slot(t.gpuid, t.i - 1) else t
  }

  lemma RemovedAt(pl: seq<PodRequest>, i: nat, j: nat)
    requires i < |pl|
    ensures |RemoveAt(pl, i)| == |pl| - 1
    ensures j < |pl| - 1 ==> RemoveAt(pl, i)[j] == pl[if j < i then j else j + 1]
    ensures i < j < |pl| ==> RemoveAt(pl, i)[j - 1] == pl[j]
  {
  }

  lemma PopSlots(n: Node, gpuid: string, key: string, t: Slot)
    requires gpuid in n.gpus && IndexOf(key, n.gpus[gpuid].podList) < |n.gpus[gpuid].podList|
    ensures var n' := Release(n, gpuid, key).node;
            var s := Slot(gpuid, IndexOf(key, n.gpus[gpuid].podList));
            && (Live(n', t) ==> Live(n, Before(s, t)) && Before(s, t) != s && PortAt(n, Before(s, t)) == PortAt(n', t))
            && (Live(n, t) && t != s ==> Live(n', After(s, t)) && PortAt(n', After(s, t)) == PortAt(n, t))
  {
    var pl := n.gpus[gpuid].podList;
    RemovedAt(pl, IndexOf(key, pl), t.i);
  }

  lemma PopHasPort(n: Node, gpuid: string, key: string, q: int)
    requires PortsDistinct(n)
    requires gpuid in n.gpus && IndexOf(key, n.gpus[gpuid].podList) < |n.gpus[gpuid].podList|
    ensures var freed := n.gpus[gpuid].podList[IndexOf(key, n.gpus[gpuid].podList)].port;
            HasPort(Release(n, gpuid, key).node, q) <==> HasPort(n, q) && q != freed
  {
    var s := Slot(gpuid, IndexOf(key, n.gpus[gpuid].podList));
    assert Live(n, s);
    var n' := Release(n, gpuid, key).node;
    if HasPort(n', q) {
      var t :| Live(n', t) && PortAt(n', t) == q;
      PopSlots(n, gpuid, key, t);
    }
    if HasPort(n, q) && q != PortAt(n, s) {
      var t :| Live(n, t) && PortAt(n, t) == q;
      PopSlots(n, gpuid, key, t);
    }
  }

  /** Release of a listed key frees that request's port and no other; of any other key, nothing. */
  lemma ReleasePorts(n: Node, gpuid: string, key: string)
    requires PortsExact(n)
    ensures var n' := Release(n, gpuid, key).node;
            && PortsExact(n')
            && match Find(key, GpuAt(n, gpuid).podList)
               case None => n' == n
               case Some(e) =>
                 var p := e.port - PORT_START;
                 && 0 < p < PORTS && p in n.ports.masked && n'.ports.masked == n.ports.masked - {p}
                 && HasPort(n, e.port) && !HasPort(n', e.port)
  {
    var pl := GpuAt(n, gpuid).podList;
    var i := IndexOf(key, pl);
    if i < |pl| {
      var s := Slot(gpuid, i);
      var n' := Release(n, gpuid, key).node;
      IndexIsMasked(n, s);
      forall q: int ensures HasPort(n', q) <==> HasPort(n, q) && q != pl[i].port {
        PopHasPort(n, gpuid, key, q);
      }
      forall t, u | Live(n', t) && Live(n', u) && PortAt(n', t) == PortAt(n', u) ensures t == u {
        PopSlots(n, gpuid, key, t);
        PopSlots(n, gpuid, key, u);
      }
      forall t | Live(n', t) ensures PORT_START < PortAt(n', t) < PORT_START + PORTS {
        PopSlots(n, gpuid, key, t);
      }
      assert HasPort(n, pl[i].port);
    }
  }

  lemma SameSlotsExact(n: Node, n': Node)
    requires PortsExact(n) && n'.ports == n.ports
    requires forall s :: Live(n', s) <==> Live(n, s)
    requires forall s :: Live(n, s) ==> PortAt(n', s) == PortAt(n, s)
    ensures PortsExact(n')
  {
    forall q: int ensures HasPort(n', q) <==> HasPort(n, q) {
      if HasPort(n, q) {
        var s :| Live(n, s) && PortAt(n, s) == q;
        assert Live(n', s) && PortAt(n', s) == q;
      }
    }
  }

  lemma BindAndCleanPorts(n: Node, gpuid: string, uuid: string)
    requires PortsExact(n) && gpuid in n.gpus
    ensures PortsExact(Bind(n, gpuid, uuid).0) && PortsExact(Clean(n))
  {
    SameSlotsExact(n, Bind(n, gpuid, uuid).0);
    SameSlotsExact(n, Clean(n));
  }

  /** What a full pool leads to: two new keys in a row share port 50049, and neither call reports it. */
  lemma FullPoolSharesAPort(n: Node, gpuid: string, req: real, key: string, key': string)
    requires PortsExact(n) && |LiveSlots(n)| == PORTS - 1 && key != key'
    requires req >= 0.0 && GpuAt(n, gpuid).usage + req + req <= 1.0
    requires Find(key, GpuAt(n, gpuid).podList) == None && Find(key', GpuAt(n, gpuid).podList) == None
    ensures var a := Register(n, gpuid, req, req, 0, key, 0);
            && a.code in {0, 1} && a.port == 50049 && WellFormed(a.node)
            && var b := Register(a.node, gpuid, req, req, 0, key', 0);
               b.code in {0, 1} && b.port == 50049 && |b.node.gpus[gpuid].podList| == |GpuAt(n, gpuid).podList| + 2
  {
    PoolFullAt511(n);
    NextIsNearestFree(PORTS, n.ports);
    var a := Register(n, gpuid, req, req, 0, key, 0);
    var pl := GpuAt(n, gpuid).podList;
    var i := IndexOf(key', pl + [PodRequest(key, req, req, 0, 50049)]);
    assert forall j :: 0 <= j < |pl| ==> (pl + [PodRequest(key, req, req, 0, 50049)])[j] == pl[j];
  }
}
