/** pkg/scheduler/filters.go: which of a node's GPUs in use a pod may share. */
module Filters {
  import opened Options
  import opened Accounting

  type GpuTable = map<string, GpuLeft>

  function KeepAffinity(gpus: GpuTable, tag: Option<string>): GpuTable {
    if tag.None? then gpus
    else map id | id in gpus && tag.value in gpus[id].affinity :: gpus[id]
  }

  function KeepAntiAffinity(gpus: GpuTable, tag: Option<string>): GpuTable {
    if tag.None? then gpus
    else map id | id in gpus && tag.value !in gpus[id].antiAffinity :: gpus[id]
  }

  /** The GPU carries a tag other than this one. */
  predicate Foreign(g: GpuLeft, tag: string) {
    exists t :: t in g.exclusion && t != tag
  }

  predicate Untagged(g: GpuLeft) {
    g.exclusion == []
  }

  /** What the exclusion filter is for: keep the GPUs with exactly the pod's tag, or with none. */
  function KeepExclusion(gpus: GpuTable, tag: string): GpuTable {
    map id | id in gpus && !Foreign(gpus[id], tag) && (tag == "" || !Untagged(gpus[id])) :: gpus[id]
  }

  /** A map iteration visits every key once, in an order of its own. */
  ghost predicate IsOrder(order: seq<string>, keys: set<string>) {
    && (forall id :: id in order <==> id in keys)
    && (forall i, j :: 0 <= i < j < |order| ==> order[i] != order[j])
  }

  /** The loop of GPUExclusionFilter on one node: its break at an untagged GPU ends the loop. */
  function ExclusionLoop(gpus: GpuTable, tag: string, order: seq<string>): GpuTable
    requires forall i :: 0 <= i < |order| ==> order[i] in gpus
    requires forall i, j :: 0 <= i < j < |order| ==> order[i] != order[j]
    decreases |order|
  {
    if order == [] then gpus
    else
      var id := order[0];
      if tag != "" && Untagged(gpus[id]) then gpus - {id}
      else if Foreign(gpus[id], tag) then ExclusionLoop(gpus - {id}, tag, order[1..])
      else ExclusionLoop(gpus, tag, order[1..])
  }

  predicate Mixed(gpus: GpuTable, tag: string) {
    exists id, id' :: id in gpus && id' in gpus && id != id' && Untagged(gpus[id])
                      && (Untagged(gpus[id']) || Foreign(gpus[id'], tag))
  }

  /** The filter never drops a GPU that the pod may share. */
  lemma {:induction false} LoopKeepsWanted(gpus: GpuTable, tag: string, order: seq<string>)
    requires forall i :: 0 <= i < |order| ==> order[i] in gpus
    requires forall i, j :: 0 <= i < j < |order| ==> order[i] != order[j]
    ensures forall id :: id in KeepExclusion(gpus, tag) ==>
              id in ExclusionLoop(gpus, tag, order) && ExclusionLoop(gpus, tag, order)[id] == gpus[id]
    ensures forall id :: id in ExclusionLoop(gpus, tag, order) ==> id in gpus
    decreases |order|
  {
    if order != [] {
      var id := order[0];
      if tag != "" && Untagged(gpus[id]) {
      } else if Foreign(gpus[id], tag) {
        LoopKeepsWanted(gpus - {id}, tag, order[1..]);
      } else {
        LoopKeepsWanted(gpus, tag, order[1..]);
      }
    }
  }

  /** A GPU to drop survives only behind another, untagged one. */
  lemma {:induction false} LoopDropsUnwanted(gpus: GpuTable, tag: string, order: seq<string>, id: string)
    requires forall i :: 0 <= i < |order| ==> order[i] in gpus
    requires forall i, j :: 0 <= i < j < |order| ==> order[i] != order[j]
    requires tag == "" || forall a :: a in gpus && a != id ==> !Untagged(gpus[a])
    requires id in order && id !in KeepExclusion(gpus, tag)
    ensures id !in ExclusionLoop(gpus, tag, order)
    decreases |order|
  {
    var first := order[0];
    if tag != "" && Untagged(gpus[first]) {
      assert id == first;
    } else if Foreign(gpus[first], tag) {
      if id == first {
        LoopKeepsWanted(gpus - {id}, tag, order[1..]);
      } else {
        LoopDropsUnwanted(gpus - {first}, tag, order[1..], id);
      }
    } else {
      LoopDropsUnwanted(gpus, tag, order[1..], id);
    }
  }

  /** What the loop drops is foreign, except for at most one untagged GPU. */
  lemma {:induction false} LoopDropsForeign(gpus: GpuTable, tag: string, order: seq<string>) returns (last: string)
    requires forall i :: 0 <= i < |order| ==> order[i] in gpus
    requires forall i, j :: 0 <= i < j < |order| ==> order[i] != order[j]
    ensures forall id :: id in gpus && id !in ExclusionLoop(gpus, tag, order) ==>
              Foreign(gpus[id], tag) || (tag != "" && Untagged(gpus[id]) && id == last)
    decreases |order|
  {
    last := "";
    if order != [] {
      var id := order[0];
      if tag != "" && Untagged(gpus[id]) {
        last := id;
      } else if Foreign(gpus[id], tag) {
        last := LoopDropsForeign(gpus - {id}, tag, order[1..]);
      } else {
        last := LoopDropsForeign(gpus, tag, order[1..]);
      }
    }
  }

  /** If the first n GPUs met are foreign they are dropped, and so is an untagged one met next. */
  lemma {:induction false} LoopDropsFront(gpus: GpuTable, tag: string, order: seq<string>, n: nat)
    requires forall i :: 0 <= i < |order| ==> order[i] in gpus
    requires forall i, j :: 0 <= i < j < |order| ==> order[i] != order[j]
    requires n <= |order| && forall i :: 0 <= i < n ==> Foreign(gpus[order[i]], tag)
    ensures forall i :: 0 <= i < n ==> order[i] !in ExclusionLoop(gpus, tag, order)
    ensures n < |order| && tag != "" && Untagged(gpus[order[n]]) ==> order[n] !in ExclusionLoop(gpus, tag, order)
    decreases n
  {
    if n > 0 {
      var id, rest := order[0], order[1..];
      LoopDropsFront(gpus - {id}, tag, rest, n - 1);
      LoopKeepsWanted(gpus - {id}, tag, rest);
      assert !Untagged(gpus[id]);
      assert ExclusionLoop(gpus, tag, order) == ExclusionLoop(gpus - {id}, tag, rest);
      forall i | 0 < i < |order| ensures order[i] == rest[i - 1] {}
    }
  }

  /** Some iteration order of the keys. */
  ghost function AnOrder(keys: set<string>): (order: seq<string>)
    ensures IsOrder(order, keys)
  {
    if keys == {} then []
    else
      var id :| id in keys;
      [id] + AnOrder(keys - {id})
  }

  lemma OrdersJoin(front: seq<string>, first: set<string>, rest: seq<string>, others: set<string>)
    requires IsOrder(front, first) && IsOrder(rest, others) && first !! others
    ensures IsOrder(front + rest, first + others)
  {
    forall i, j | 0 <= i < j < |front + rest| ensures (front + rest)[i] != (front + rest)[j] {
      assert i < |front| ==> (front + rest)[i] == front[i] && front[i] in front;
      assert j >= |front| ==> (front + rest)[j] == rest[j - |front|] && rest[j - |front|] in rest;
    }
  }

  /** An iteration order that begins with these keys. */
  ghost function OrderFrom(front: seq<string>, keys: set<string>): (order: seq<string>)
    requires IsOrder(front, set id | id in front) && forall id :: id in front ==> id in keys
    ensures IsOrder(order, keys) && front <= order
  {
    var first := set id | id in front;
    var rest := AnOrder(keys - first);
    OrdersJoin(front, first, rest, keys - first);
    front + rest
  }

  lemma LoopIsExact(gpus: GpuTable, tag: string, order: seq<string>)
    requires IsOrder(order, gpus.Keys) && (tag == "" || !Mixed(gpus, tag))
    ensures ExclusionLoop(gpus, tag, order) == KeepExclusion(gpus, tag)
  {
    LoopKeepsWanted(gpus, tag, order);
    forall id | id in gpus && id !in KeepExclusion(gpus, tag)
      ensures id !in ExclusionLoop(gpus, tag, order)
    {
      LoopDropsUnwanted(gpus, tag, order, id);
    }
    forall id | id in ExclusionLoop(gpus, tag, order) ensures id in KeepExclusion(gpus, tag) {}
  }

  lemma BreakLeavesTheRest(gpus: GpuTable, tag: string) returns (order: seq<string>)
    requires tag != "" && Mixed(gpus, tag)
    ensures IsOrder(order, gpus.Keys) && ExclusionLoop(gpus, tag, order) != KeepExclusion(gpus, tag)
  {
    var id, id' :| id in gpus && id' in gpus && id != id' && Untagged(gpus[id])
                   && (Untagged(gpus[id']) || Foreign(gpus[id'], tag));
    order := OrderFrom([id], gpus.Keys);
    assert order[0] == id;
    assert ExclusionLoop(gpus, tag, order) == gpus - {id};
    assert id' !in KeepExclusion(gpus, tag);
  }

  /**
   The exclusion filter does what it is for, in every iteration order, exactly when the pod has no
   tag or the node does not mix an untagged GPU with another GPU to drop.
   */
  lemma ExclusionFilterExact(gpus: GpuTable, tag: string)
    ensures (forall order :: IsOrder(order, gpus.Keys) ==> ExclusionLoop(gpus, tag, order) == KeepExclusion(gpus, tag))
            <==> tag == "" || !Mixed(gpus, tag)
  {
    if tag == "" || !Mixed(gpus, tag) {
      forall order | IsOrder(order, gpus.Keys)
        ensures ExclusionLoop(gpus, tag, order) == KeepExclusion(gpus, tag)
      {
        LoopIsExact(gpus, tag, order);
      }
    } else {
      var order := BreakLeavesTheRest(gpus, tag);
    }
  }

  /** A GPU tagged "y" survives the filter for a pod tagged "x" because an untagged GPU came first. */
  lemma ExclusionFilterLeaks(g: GpuLeft, h: GpuLeft)
    requires g.exclusion == [] && h.exclusion == ["y"]
    ensures "b" in ExclusionLoop(map["a" := g, "b" := h], "x", ["a", "b"])
    ensures "b" !in KeepExclusion(map["a" := g, "b" := h], "x")
  {
    assert h.exclusion[0] == "y" && "y" in h.exclusion;
  }

  /** All three filters in turn on one node, the last with the given iteration order. */
  function Filtered(gpus: GpuTable, p: Pod, order: seq<string>): GpuTable
    requires IsOrder(order, KeepAntiAffinity(KeepAffinity(gpus, p.affinity), p.antiAffinity).Keys)
  {
    ExclusionLoop(KeepAntiAffinity(KeepAffinity(gpus, p.affinity), p.antiAffinity), Tag(p.exclusion), order)
  }
}
