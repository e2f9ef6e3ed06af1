/**
 The scheduler counts thousandths, rounded up for each pod; the device manager adds the requests
 themselves. What the first accepts the second never refuses.
 */
module Agreement {
  import opened Sums
  import opened Accounting
  import opened BestFit
  import Pool = GpuPool

  function Same(): real -> real {
    (r: real) => r
  }

  function MilliOf(): real -> int {
    (r: real) => Milli(r)
  }

  /** Rounding loses less than a thousandth for each request, and always on the safe side. */
  lemma {:induction false} RoundingBound(rs: seq<real>)
    ensures 1000.0 * SumReal(Same(), rs) <= Sum(MilliOf(), rs) as real
    ensures rs != [] ==> Sum(MilliOf(), rs) as real < 1000.0 * SumReal(Same(), rs) + |rs| as real
  {
    if rs != [] {
      RoundingBound(rs[..|rs| - 1]);
    }
  }

  /** The bound is met: three requests of a third fill a GPU of the pool, and count 1002 thousandths. */
  lemma ThirdsRoundUp(third: real)
    requires 3.0 * third == 1.0
    ensures SumReal(Same(), [third, third, third]) == 1.0 && Sum(MilliOf(), [third, third, third]) == 1002
  {
    var one, two, three := [third], [third, third], [third, third, third];
    assert one[..0] == [] && two[..1] == one && three[..2] == two;
    assert SumReal(Same(), one) == third && SumReal(Same(), two) == third + third;
    assert Milli(third) == 334;
    assert Sum(MilliOf(), one) == 334 && Sum(MilliOf(), two) == 668;
  }

  function Requests(pl: seq<Pool.PodRequest>): seq<real> {
    if pl == [] then [] else Requests(pl[..|pl| - 1]) + [pl[|pl| - 1].request]
  }

  lemma {:induction false} RequestsSum(pl: seq<Pool.PodRequest>)
    ensures |Requests(pl)| == |pl|
    ensures SumReal(Same(), Requests(pl)) == Pool.SumRequest(pl)
  {
    if pl != [] {
      RequestsSum(pl[..|pl| - 1]);
      var rs := Requests(pl);
      assert rs[..|rs| - 1] == Requests(pl[..|pl| - 1]);
    }
  }

  /** The requests of the pods that the scheduler counts on one GPU. */
  function RequestsOn(ps: seq<Pod>, name: string, id: string): seq<real> {
    if ps == [] then []
    else
      var p := ps[|ps| - 1];
      RequestsOn(ps[..|ps| - 1], name, id) + if UsesGpu(p, name, id) then [p.request.value] else []
  }

  lemma {:induction false} RequestsOnSum(ps: seq<Pod>, name: string, id: string)
    ensures Sum(MilliOf(), RequestsOn(ps, name, id)) == Sum(MilliOn(name, id), ps)
    ensures forall r :: r in RequestsOn(ps, name, id) ==> 0.0 <= r <= 1.0
  {
    if ps != [] {
      var p := ps[|ps| - 1];
      RequestsOnSum(ps[..|ps| - 1], name, id);
      if UsesGpu(p, name, id) {
        SumPushed(MilliOf(), RequestsOn(ps[..|ps| - 1], name, id), p.request.value);
      } else {
        assert RequestsOn(ps, name, id) == RequestsOn(ps[..|ps| - 1], name, id);
      }
    }
  }

  lemma TakeOut(part: seq<real>, whole: seq<real>) returns (rest: seq<real>)
    requires part != [] && multiset(part) <= multiset(whole)
    ensures multiset(whole) == multiset(rest + [part[|part| - 1]])
    ensures multiset(part[..|part| - 1]) <= multiset(rest)
  {
    var x := part[|part| - 1];
    assert part == part[..|part| - 1] + [x];
    MultisetPushed(part[..|part| - 1], x);
    var i := PlaceOf(whole, x);
    MultisetRemoved(whole, i);
    rest := RemoveAt(whole, i);
    MultisetPushed(rest, x);
    SubLess(multiset(part[..|part| - 1]), multiset(rest), x);
  }

  lemma SubLess(a: multiset<real>, b: multiset<real>, x: real)
    requires a + multiset{x} <= b + multiset{x}
    ensures a <= b
  {
    assert forall y :: (a + multiset{x})[y] == a[y] + multiset{x}[y];
    assert forall y :: (b + multiset{x})[y] == b[y] + multiset{x}[y];
  }

  lemma {:induction false} MilliOfPart(part: seq<real>, whole: seq<real>)
    requires multiset(part) <= multiset(whole)
    requires forall x :: x in whole ==> x >= 0.0
    ensures Sum(MilliOf(), part) <= Sum(MilliOf(), whole)
    decreases |part|
  {
    if part == [] {
      SumNonNegative(MilliOf(), whole);
    } else {
      var x := part[|part| - 1];
      var rest := TakeOut(part, whole);
      forall y | y in rest ensures y >= 0.0 {
        assert y in rest + [x] && y in multiset(rest + [x]) && y in multiset(whole) && y in whole;
      }
      MilliOfPart(part[..|part| - 1], rest);
      SumReordered(MilliOf(), whole, rest + [x]);
      SumPushed(MilliOf(), rest, x);
    }
  }

  lemma RoundedFits(listed: seq<real>, counted: seq<real>, request: real)
    requires multiset(listed) <= multiset(counted) && forall x :: x in counted ==> x >= 0.0
    requires Sum(MilliOf(), counted) + Milli(request) <= 1000
    ensures SumReal(Same(), listed) + request <= 1.0
  {
    RoundingBound(listed);
    MilliOfPart(listed, counted);
  }

  /**
   While the two list the same requests for a GPU, the pool's usage and the scheduler's remaining
   thousandths differ by less than one thousandth for each request.
   */
  lemma FreeAgreesWithUsage(g: GpuLeft, gpuMem: int, name: string, ps: seq<Pod>, id: string, gpu: Pool.Gpu)
    requires GpuIs(g, gpuMem, ps, name, id) && Pool.Tallied(gpu) && gpu.podList != []
    requires multiset(Requests(gpu.podList)) == multiset(RequestsOn(ps, name, id))
    ensures 1000.0 * gpu.usage <= (1000 - g.freeReq) as real < 1000.0 * gpu.usage + |gpu.podList| as real
  {
    var listed := Requests(gpu.podList);
    RequestsOnSum(ps, name, id);
    RequestsSum(gpu.podList);
    SumReordered(MilliOf(), listed, RequestsOn(ps, name, id));
    RoundingBound(listed);
  }

  /**
   A GPU on which the search finds room for a request is never answered with code 2 by the device
   manager, as long as the requests it lists there are among those the scheduler counts.
   */
  lemma AcceptedIsNeverRefused(g: GpuLeft, gpuMem: int, name: string, ps: seq<Pod>, id: string, job: Job,
                               node: Pool.Node, request: real, limit: real, memory: int, key: string, port: int)
    requires GpuIs(g, gpuMem, ps, name, id) && job.milli == Milli(request) && Fits(g, job)
    requires Pool.WellFormed(node) && id in node.gpus && Pool.Tallied(node.gpus[id])
    requires multiset(Requests(node.gpus[id].podList)) <= multiset(RequestsOn(ps, name, id))
    ensures Pool.Register(node, id, request, limit, memory, key, port).code != 2
  {
    RequestsOnSum(ps, name, id);
    RequestsSum(node.gpus[id].podList);
    RoundedFits(Requests(node.gpus[id].podList), RequestsOn(ps, name, id), request);
    Pool.RefusedOnlyPastOne(node, id, request, limit, memory, key, port);
  }
}
