/** What a rebuild makes of the devices that its replicas report: bound GPUs, keys to re-queue, dummy pods to create. */
module RebuildDevices {
  import opened Rebuild

  // ----- Stated on the replicas

  /** The variable is the first NVIDIA_VISIBLE_DEVICES, or the first one where there is none of that name. */
  ghost predicate Decides(env: seq<EnvVar>, i: nat) {
    && i < |env|
    && if exists j :: 0 <= j < |env| && env[j].name == "NVIDIA_VISIBLE_DEVICES"
       then
         && env[i].name == "NVIDIA_VISIBLE_DEVICES"
         && forall j :: 0 <= j < i ==> env[j].name != "NVIDIA_VISIBLE_DEVICES"
       else i == 0
  }

  /** The replica already runs on a device. */
  ghost predicate HasDevice(r: Replica) {
    exists i: nat :: Decides(r.env, i) && r.env[i].value != ""
  }

  ghost predicate IsOn(r: Replica, name: string, g: string) {
    Counted(r) && r.specNode == name && r.gpuid.value == g
  }

  /** The replica tells the GPU's UUID. */
  ghost predicate Tells(r: Replica, name: string, g: string) {
    IsOn(r, name, g) && HasDevice(r) && r.boundDevice != ""
  }

  ghost predicate ToldBy(rs: seq<Replica>, n: nat, name: string, g: string) {
    exists i :: 0 <= i < n <= |rs| && Tells(rs[i], name, g)
  }

  /** A GPU's UUID is that of the first replica that tells one. */
  ghost predicate UuidIs(uuid: string, rs: seq<Replica>, name: string, g: string) {
    if ToldBy(rs, |rs|, name, g) then
      exists i :: && 0 <= i < |rs| && Tells(rs[i], name, g) && rs[i].boundDevice == uuid
                  && forall j :: 0 <= j < i ==> !Tells(rs[j], name, g)
    else uuid == ""
  }

  /** The n-th replica is charged to a GPU with an entry, and runs on no device yet. */
  ghost predicate WaitsAt(nodes: Nodes, rs: seq<Replica>, n: nat) {
    n < |rs| && Counted(rs[n]) && HasEntry(nodes, rs[n].specNode, rs[n].gpuid.value) && !HasDevice(rs[n])
  }

  /** It waits for a GPU whose UUID an earlier replica told: its key has to be handled again. */
  ghost predicate MustRequeue(nodes: Nodes, rs: seq<Replica>, n: nat) {
    WaitsAt(nodes, rs, n) && ToldBy(rs, n, rs[n].specNode, rs[n].gpuid.value)
  }

  /** It waits for a GPU of unknown UUID: a dummy pod has to find that. */
  ghost predicate MustAsk(nodes: Nodes, rs: seq<Replica>, n: nat) {
    WaitsAt(nodes, rs, n) && !ToldBy(rs, n, rs[n].specNode, rs[n].gpuid.value)
  }

  /** The keys to re-queue among the first n replicas, in order. */
  ghost function KeysToRequeue(nodes: Nodes, rs: seq<Replica>, n: nat): seq<string>
    requires n <= |rs|
  {
    if n == 0 then []
    else KeysToRequeue(nodes, rs, n - 1) + if MustRequeue(nodes, rs, n - 1) then [rs[n - 1].key] else []
  }

  /** The GPUs to create dummy pods for; a pair is looked up by the pod's node and added under the SharePod's. */
  ghost function GpusToAsk(nodes: Nodes, rs: seq<Replica>, n: nat): seq<(string, string)>
    requires n <= |rs|
  {
    if n == 0 then []
    else
      var before := GpusToAsk(nodes, rs, n - 1);
      if MustAsk(nodes, rs, n - 1) && (rs[n - 1].podNode, rs[n - 1].gpuid.value) !in before
      then before + [(rs[n - 1].specNode, rs[n - 1].gpuid.value)] else before
  }

  // ----- The rebuild agrees

  lemma {:induction false} VisibleFrom(env: seq<EnvVar>, i: nat)
    requires env != [] && i <= |env| && forall j :: 0 <= j < i ==> env[j].name != "NVIDIA_VISIBLE_DEVICES"
    ensures exists k: nat :: Decides(env, k) && env[k].value == VisibleDevices(env, i)
    decreases |env| - i
  {
    if i == |env| {
      assert Decides(env, 0);
    } else if env[i].name == "NVIDIA_VISIBLE_DEVICES" {
      assert Decides(env, i);
    } else {
      VisibleFrom(env, i + 1);
    }
  }

  lemma OneDecides(env: seq<EnvVar>, i: nat, k: nat)
    requires Decides(env, i) && Decides(env, k)
    ensures i == k
  {
  }

  lemma DeviceIsVisible(r: Replica)
    requires r.env != []
    ensures HasDevice(r) <==> VisibleDevices(r.env, 0) != ""
  {
    VisibleFrom(r.env, 0);
    var k: nat :| Decides(r.env, k) && r.env[k].value == VisibleDevices(r.env, 0);
    forall i: nat | Decides(r.env, i) ensures i == k {
      OneDecides(r.env, i, k);
    }
  }

  lemma ToldPushed(rs: seq<Replica>, r: Replica, name: string, g: string)
    ensures ToldBy(rs + [r], |rs| + 1, name, g) <==> ToldBy(rs, |rs|, name, g) || Tells(r, name, g)
    ensures ToldBy(rs + [r], |rs|, name, g) <==> ToldBy(rs, |rs|, name, g)
  {
    var all := rs + [r];
    assert all[|rs|] == r && forall i :: 0 <= i < |rs| ==> all[i] == rs[i];
    if ToldBy(rs, |rs|, name, g) {
      var i :| 0 <= i < |rs| && Tells(rs[i], name, g);
      assert Tells(all[i], name, g);
    }
  }

  lemma UuidPushed(uuid: string, rs: seq<Replica>, r: Replica, name: string, g: string)
    requires UuidIs(uuid, rs, name, g)
    ensures UuidIs(if uuid == "" && Tells(r, name, g) then r.boundDevice else uuid, rs + [r], name, g)
  {
    var all := rs + [r];
    ToldPushed(rs, r, name, g);
    assert all[|rs|] == r && forall i :: 0 <= i < |rs| ==> all[i] == rs[i];
    if ToldBy(rs, |rs|, name, g) {
      var i :| && 0 <= i < |rs| && Tells(rs[i], name, g) && rs[i].boundDevice == uuid
               && forall j :: 0 <= j < i ==> !Tells(rs[j], name, g);
      assert Tells(all[i], name, g);
    } else if Tells(r, name, g) {
      assert Tells(all[|rs|], name, g);
      forall j | 0 <= j < |rs| ensures !Tells(all[j], name, g) {
        assert all[j] == rs[j];
      }
    }
  }

  lemma PushedAt(nodes: Nodes, rs: seq<Replica>, r: Replica, n: nat)
    requires n < |rs|
    ensures MustRequeue(nodes, rs + [r], n) <==> MustRequeue(nodes, rs, n)
    ensures MustAsk(nodes, rs + [r], n) <==> MustAsk(nodes, rs, n)
  {
    var all := rs + [r];
    assert forall i :: 0 <= i < |rs| ==> all[i] == rs[i];
    if WaitsAt(nodes, rs, n) {
      assert ToldBy(all, n, rs[n].specNode, rs[n].gpuid.value) <==> ToldBy(rs, n, rs[n].specNode, rs[n].gpuid.value);
    }
  }

  /** What is due for the first n replicas does not depend on later ones. */
  lemma {:induction false} DuePushed(nodes: Nodes, rs: seq<Replica>, r: Replica, n: nat)
    requires n <= |rs|
    ensures KeysToRequeue(nodes, rs + [r], n) == KeysToRequeue(nodes, rs, n)
    ensures GpusToAsk(nodes, rs + [r], n) == GpusToAsk(nodes, rs, n)
  {
    if n > 0 {
      DuePushed(nodes, rs, r, n - 1);
      PushedAt(nodes, rs, r, n - 1);
      assert (rs + [r])[n - 1] == rs[n - 1];
    }
  }

  ghost predicate UuidsAgree(b: Boot, rs: seq<Replica>) {
    b.Boot? && forall name, g :: HasEntry(b.nodes, name, g) ==> UuidIs(b.nodes[name].gpus[g].uuid, rs, name, g)
  }

  ghost predicate EntriesAgree(nodes: Nodes, b: Boot) {
    b.Boot? && forall name, g :: HasEntry(b.nodes, name, g) <==> HasEntry(nodes, name, g)
  }

  ghost predicate QueueAgrees(nodes: Nodes, b: Boot, rs: seq<Replica>) {
    && b.Boot?
    && b.requeue == KeysToRequeue(nodes, rs, |rs|)
    && b.later == GpusToAsk(nodes, rs, |rs|)
  }

  /** A replica that is charged to a GPU, or passed over, in terms of its fields. */
  lemma StepCases(b: Boot, r: Replica)
    requires b.Boot? && AddReplica(b, r).Boot?
    ensures !(Counted(r) && HasEntry(b.nodes, r.specNode, r.gpuid.value)) ==> AddReplica(b, r) == b
    ensures Counted(r) && HasEntry(b.nodes, r.specNode, r.gpuid.value) ==>
              && r.env != []
              && (HasDevice(r) <==> VisibleDevices(r.env, 0) != "")
              && AddReplica(b, r).nodes == b.nodes[r.specNode := AssignedTo(b.nodes[r.specNode], r)]
  {
    ReadReplicaExactly(r);
    if r.env != [] {
      DeviceIsVisible(r);
    }
  }

  lemma StepUuids(b: Boot, rs: seq<Replica>, r: Replica)
    requires UuidsAgree(b, rs) && AddReplica(b, r).Boot?
    ensures UuidsAgree(AddReplica(b, r), rs + [r])
  {
    var b' := AddReplica(b, r);
    StepCases(b, r);
    forall name, g | HasEntry(b'.nodes, name, g) ensures UuidIs(b'.nodes[name].gpus[g].uuid, rs + [r], name, g) {
      assert HasEntry(b.nodes, name, g);
      var uuid := b.nodes[name].gpus[g].uuid;
      UuidPushed(uuid, rs, r, name, g);
    }
  }

  lemma StepQueue(nodes: Nodes, b: Boot, rs: seq<Replica>, r: Replica)
    requires UuidsAgree(b, rs) && EntriesAgree(nodes, b) && QueueAgrees(nodes, b, rs) && AddReplica(b, r).Boot?
    ensures EntriesAgree(nodes, AddReplica(b, r)) && QueueAgrees(nodes, AddReplica(b, r), rs + [r])
  {
    var all, n := rs + [r], |rs|;
    StepCases(b, r);
    DuePushed(nodes, rs, r, n);
    assert all[n] == r;
    if Counted(r) {
      ToldPushed(rs, r, r.specNode, r.gpuid.value);
      DueNow(nodes, b, rs, r);
    }
  }

  lemma DueNow(nodes: Nodes, b: Boot, rs: seq<Replica>, r: Replica)
    requires UuidsAgree(b, rs) && EntriesAgree(nodes, b) && AddReplica(b, r).Boot? && Counted(r)
    ensures WaitsAt(nodes, rs + [r], |rs|)
            <==> HasEntry(b.nodes, r.specNode, r.gpuid.value) && VisibleDevices(r.env, 0) == ""
    ensures WaitsAt(nodes, rs + [r], |rs|) ==>
              && (MustRequeue(nodes, rs + [r], |rs|) <==> b.nodes[r.specNode].gpus[r.gpuid.value].uuid != "")
              && (MustAsk(nodes, rs + [r], |rs|) <==> b.nodes[r.specNode].gpus[r.gpuid.value].uuid == "")
  {
    StepCases(b, r);
    assert (rs + [r])[|rs|] == r;
    ToldPushed(rs, r, r.specNode, r.gpuid.value);
    if HasEntry(b.nodes, r.specNode, r.gpuid.value) {
      assert UuidIs(b.nodes[r.specNode].gpus[r.gpuid.value].uuid, rs, r.specNode, r.gpuid.value);
    }
  }

  /**
   After a rebuild each GPU has the UUID of the first replica that tells one, the keys put back are
   those of the replicas that wait for a GPU told before them, in order, and the dummy pods to
   create are those for the GPUs that nobody had told when a replica waited for them.
   */
  lemma {:induction false} RebuildDevicesExactly(nodes: Nodes, rs: seq<Replica>)
    requires forall name :: name in nodes ==> Idle(nodes[name])
    requires AddReplicas(Boot(nodes, [], []), rs).Boot?
    ensures var b := AddReplicas(Boot(nodes, [], []), rs);
            UuidsAgree(b, rs) && EntriesAgree(nodes, b) && QueueAgrees(nodes, b, rs)
  {
    if rs != [] {
      var front, last := rs[..|rs| - 1], rs[|rs| - 1];
      RebuildDevicesExactly(nodes, front);
      assert rs == front + [last];
      StepUuids(AddReplicas(Boot(nodes, [], []), front), front, last);
      StepQueue(nodes, AddReplicas(Boot(nodes, [], []), front), front, last);
    }
  }

  // ----- Which dummy pods

  /** A waiting GPU of unknown UUID is on the list, unless one of that id is there for the pod's own node. */
  lemma {:induction false} WaitingIsAskedFor(nodes: Nodes, rs: seq<Replica>, n: nat, i: nat)
    requires i < n <= |rs| && MustAsk(nodes, rs, i)
    ensures (rs[i].specNode, rs[i].gpuid.value) in GpusToAsk(nodes, rs, n)
            || (rs[i].podNode, rs[i].gpuid.value) in GpusToAsk(nodes, rs, n)
  {
    if i < n - 1 {
      WaitingIsAskedFor(nodes, rs, n - 1, i);
    }
  }

  /** Only such GPUs are on the list, and each once where pods are on their SharePod's node. */
  lemma {:induction false} AskedForWaits(nodes: Nodes, rs: seq<Replica>, n: nat)
    requires n <= |rs|
    ensures forall q :: q in GpusToAsk(nodes, rs, n) ==>
              exists i :: 0 <= i < n && MustAsk(nodes, rs, i) && q == (rs[i].specNode, rs[i].gpuid.value)
    ensures (forall i :: 0 <= i < n && Counted(rs[i]) ==> rs[i].podNode == rs[i].specNode) ==>
              forall j, k :: 0 <= j < k < |GpusToAsk(nodes, rs, n)| ==>
                GpusToAsk(nodes, rs, n)[j] != GpusToAsk(nodes, rs, n)[k]
  {
    if n > 0 {
      AskedForWaits(nodes, rs, n - 1);
    }
  }
}
