/** A config client's hello: the device list it prints, and what the device manager makes of it. */
module Hello {
  import opened Options
  import opened Text
  import opened SchedulerObjects
  import P = PoolRuns

  /** The tables built from a device list, and the port that the next device gets. */
  datatype Devices = Devices(mem: map<string, string>, port: map<string, string>, next: int)

  const NO_DEVICES := Devices(map[], map[], 50051)

  /** One part of the list: an empty one is skipped, one without a colon panics. */
  function AddDevice(t: Devices, d: string): Option<Devices> {
    if d == "" then Some(t)
    else
      var dArr := Split(d, ':');
      if |dArr| < 2 then None
      else Some(Devices(t.mem[dArr[0] := dArr[1]], t.port[dArr[0] := Decimal(t.next)], t.next + 1))
  }

  function AddDevices(t: Devices, parts: seq<string>): Option<Devices>
    decreases |parts|
  {
    if parts == [] then Some(t)
    else
      match AddDevice(t, parts[0])
      case None => None
      case Some(t') => AddDevices(t', parts[1..])
  }

  /** The loop of clientHandler over a list without its line end. */
  method ReadDevices(line: string) returns (t: Option<Devices>)
    ensures t == AddDevices(NO_DEVICES, Split(line, ','))
  {
    var parts, devices := Split(line, ','), NO_DEVICES;
    assert parts[0..] == parts;
    for i := 0 to |parts|
      invariant AddDevices(devices, parts[i..]) == AddDevices(NO_DEVICES, parts)
    {
      assert parts[i..][0] == parts[i] && parts[i..][1..] == parts[i + 1..];
      var added := AddDevice(devices, parts[i]);
      if added.None? {
        return None;
      }
      devices := added.value;
    }
    t := Some(devices);
  }

  /** The list panics exactly when a part of it that is not empty has no colon. */
  lemma {:induction false} PanicsExactly(t: Devices, parts: seq<string>)
    ensures AddDevices(t, parts) == None <==> exists i :: 0 <= i < |parts| && parts[i] != "" && ':' !in parts[i]
    decreases |parts|
  {
    if parts != [] {
      ColonSplits(parts[0]);
      assert forall i :: 0 < i < |parts| ==> parts[i] == parts[1..][i - 1];
      assert forall i :: 0 <= i < |parts[1..]| ==> parts[1..][i] == parts[i + 1];
      if AddDevice(t, parts[0]).Some? {
        PanicsExactly(AddDevice(t, parts[0]).value, parts[1..]);
      }
    }
  }

  lemma ColonSplits(d: string)
    ensures |Split(d, ':')| < 2 <==> ':' !in d
  {
    if ':' !in d {
      SplitNone(d, ':');
    }
  }

  /** A UUID that the list's separators leave whole. */
  predicate GoodUuid(uuid: string) {
    ':' !in uuid && ',' !in uuid
  }

  ghost predicate GoodDevices(ds: seq<(string, nat)>) {
    && (forall i :: 0 <= i < |ds| ==> GoodUuid(ds[i].0))
    && (forall i, j :: 0 <= i < j < |ds| ==> ds[i].0 != ds[j].0)
  }

  function Uuids(ds: seq<(string, nat)>): seq<string> {
    seq(|ds|, i requires 0 <= i < |ds| => ds[i].0)
  }

  function Memories(ds: seq<(string, nat)>): seq<string> {
    seq(|ds|, i requires 0 <= i < |ds| => Decimal(ds[i].1))
  }

  function Ports(next: int, n: nat): seq<string> {
    seq(n, i => Decimal(next + i))
  }

  /** The values are entered under the keys; nothing else changes. */
  ghost predicate Entered(m: map<string, string>, keys: seq<string>, values: seq<string>, m': map<string, string>) {
    && |keys| == |values|
    && (forall i :: 0 <= i < |keys| ==> keys[i] in m' && m'[keys[i]] == values[i])
    && (forall id :: id !in keys ==> (id in m' <==> id in m))
    && (forall id :: id !in keys && id in m ==> m'[id] == m[id])
  }

  lemma EnteredFirst(m: map<string, string>, keys: seq<string>, values: seq<string>, m': map<string, string>)
    requires keys != [] && values != [] && (forall i :: 0 < i < |keys| ==> keys[i] != keys[0])
    requires Entered(m[keys[0] := values[0]], keys[1..], values[1..], m')
    ensures Entered(m, keys, values, m')
  {
    assert keys == [keys[0]] + keys[1..] && values == [values[0]] + values[1..];
    assert keys[0] !in keys[1..];
  }

  lemma DeviceEntered(t: Devices, d: (string, nat))
    requires GoodUuid(d.0)
    ensures ',' !in d.0 + ":" + Decimal(d.1)
    ensures AddDevice(t, d.0 + ":" + Decimal(d.1))
            == Some(Devices(t.mem[d.0 := Decimal(d.1)], t.port[d.0 := Decimal(t.next)], t.next + 1))
  {
    DigitsOnly(d.1);
    SplitFirst(d.0, ':', Decimal(d.1));
    SplitNone(Decimal(d.1), ':');
    assert d.0 + ":" + Decimal(d.1) == d.0 + [':'] + Decimal(d.1);
  }

  lemma DigitsOnly(n: nat)
    ensures ':' !in Decimal(n) && ',' !in Decimal(n)
  {
    assert forall c :: c in NatText(n) ==> IsDigit(c);
  }

  /** The tables after these devices. */
  ghost predicate AllEntered(t: Devices, ds: seq<(string, nat)>, t': Devices) {
    && Entered(t.mem, Uuids(ds), Memories(ds), t'.mem)
    && Entered(t.port, Uuids(ds), Ports(t.next, |ds|), t'.port)
  }

  lemma Tails(next: int, ds: seq<(string, nat)>)
    requires ds != []
    ensures Uuids(ds)[1..] == Uuids(ds[1..]) && Memories(ds)[1..] == Memories(ds[1..])
    ensures Ports(next, |ds|)[1..] == Ports(next + 1, |ds| - 1)
  {
  }

  lemma AllEnteredFirst(t: Devices, ds: seq<(string, nat)>, t': Devices)
    requires ds != [] && GoodDevices(ds)
    requires AllEntered(Devices(t.mem[ds[0].0 := Decimal(ds[0].1)], t.port[ds[0].0 := Decimal(t.next)], t.next + 1),
                        ds[1..], t')
    ensures AllEntered(t, ds, t')
  {
    Tails(t.next, ds);
    EnteredFirst(t.mem, Uuids(ds), Memories(ds), t'.mem);
    EnteredFirst(t.port, Uuids(ds), Ports(t.next, |ds|), t'.port);
  }

  lemma {:induction false} DevicesEntered(t: Devices, ds: seq<(string, nat)>) returns (t': Devices)
    requires GoodDevices(ds)
    ensures AddDevices(t, Split(GpuInfoText(ds), ',')) == Some(t') && AllEntered(t, ds, t')
    decreases |ds|
  {
    if ds == [] {
      t' := t;
      assert Split("", ',') == [""];
    } else {
      PrintedFirst(t, ds);
      t' := DevicesEntered(AddDevice(t, ds[0].0 + ":" + Decimal(ds[0].1)).value, ds[1..]);
      AllEnteredFirst(t, ds, t');
    }
  }

  lemma PrintedFirst(t: Devices, ds: seq<(string, nat)>)
    requires ds != [] && GoodUuid(ds[0].0)
    ensures var t' := Devices(t.mem[ds[0].0 := Decimal(ds[0].1)], t.port[ds[0].0 := Decimal(t.next)], t.next + 1);
            && AddDevice(t, ds[0].0 + ":" + Decimal(ds[0].1)) == Some(t')
            && AddDevices(t, Split(GpuInfoText(ds), ',')) == AddDevices(t', Split(GpuInfoText(ds[1..]), ','))
  {
    var first, rest := ds[0].0 + ":" + Decimal(ds[0].1), GpuInfoText(ds[1..]);
    DeviceEntered(t, ds[0]);
    SplitFirst(first, ',', rest);
    assert GpuInfoText(ds) == first + [','] + rest;
  }

  function UuidSet(ds: seq<(string, nat)>): set<string> {
    set i | 0 <= i < |ds| :: ds[i].0
  }

  lemma EnteredKeys(ds: seq<(string, nat)>, values: seq<string>, m: map<string, string>)
    requires Entered(map[], Uuids(ds), values, m)
    ensures m.Keys == UuidSet(ds) && forall i :: 0 <= i < |ds| ==> ds[i].0 in m && m[ds[i].0] == values[i]
  {
    var ids := Uuids(ds);
    forall i | 0 <= i < |ds| ensures ds[i].0 in m && m[ds[i].0] == values[i] {
      assert ids[i] == ds[i].0;
    }
    forall id | id in m ensures id in UuidSet(ds) {
      var i :| 0 <= i < |ids| && ids[i] == id;
      assert ds[i].0 == id;
    }
  }

  /** Each UUID has its memory. */
  ghost predicate ListsMemory(m: map<string, string>, ds: seq<(string, nat)>) {
    m.Keys == UuidSet(ds) && forall i :: 0 <= i < |ds| ==> m[ds[i].0] == Decimal(ds[i].1)
  }

  /** In the order printed, the devices have the ports from 50051 on. */
  ghost predicate ListsPorts(m: map<string, string>, ds: seq<(string, nat)>) {
    m.Keys == UuidSet(ds) && forall i :: 0 <= i < |ds| ==> m[ds[i].0] == Decimal(50051 + i)
  }

  lemma EnteredMemory(m: map<string, string>, ds: seq<(string, nat)>)
    requires Entered(map[], Uuids(ds), Memories(ds), m)
    ensures ListsMemory(m, ds)
  {
    EnteredKeys(ds, Memories(ds), m);
  }

  lemma EnteredPorts(m: map<string, string>, ds: seq<(string, nat)>)
    requires Entered(map[], Uuids(ds), Ports(50051, |ds|), m)
    ensures ListsPorts(m, ds)
  {
    EnteredKeys(ds, Ports(50051, |ds|), m);
  }

  /** What a config client prints of its devices the manager reads, and its hello makes a node of just these. */
  lemma HelloReadBack(ds: seq<(string, nat)>, nodes: P.Nodes, name: string) returns (t: Devices)
    requires GoodDevices(ds) && P.AllWellFormed(nodes)
    ensures AddDevices(NO_DEVICES, Split(GpuInfoText(ds), ',')) == Some(t)
    ensures ListsMemory(t.mem, ds) && ListsPorts(t.port, ds)
    ensures P.Apply(nodes, P.Attach(name, t.port.Keys))[name].uuids == UuidSet(ds)
  {
    t := DevicesEntered(NO_DEVICES, ds);
    EnteredMemory(t.mem, ds);
    EnteredPorts(t.port, ds);
    P.HelloKnowsDevices(nodes, name, t.port.Keys);
  }
}
