/**
 pkg/scheduler/scheduler.go: the best-fit search. One goroutine per node offers candidates to a
 shared best under a mutex, so a run is any interleaving of the nodes' offers.
 */
module BestFit {
  import opened Sums
  import opened Accounting
  import opened Filters

  const MAX_POINT: int := 2147483647

  datatype Candidate = Candidate(point: int, node: string, gpuid: string)

  const NONE := Candidate(MAX_POINT, "", "")

  /** tryBestNode: one critical section. */
  function Try(best: Candidate, c: Candidate): Candidate {
    if c.point < best.point then c else best
  }

  /** A goroutine's offers, one after the other. */
  function TryAll(best: Candidate, cs: seq<Candidate>): Candidate {
    if cs == [] then best else Try(TryAll(best, cs[..|cs| - 1]), cs[|cs| - 1])
  }

  /** What a pod asks for: CPU and memory in thousandths, and a share of a GPU if it is a GPU pod. */
  datatype Job = Job(cpu: int, mem: int, shared: bool, milli: int, gpuMem: int)

  function JobOf(p: Pod): Job {
    match ReadAsk(p)
    case Shared(request, mem) => Job(Cpu(p.containers), Mem(p.containers), true, Milli(request), mem)
    case _ => Job(Cpu(p.containers), Mem(p.containers), false, 0, 0)
  }

  /** The search is for what the pod's containers and its request ask for, rounded up, not for its limit. */
  lemma JobIsTheAsk(p: Pod)
    requires AsksShare(p)
    ensures var job := JobOf(p);
            && job.shared && job.cpu == Sum(CpuOf(), p.containers) && job.mem == Sum(MemOf(), p.containers)
            && job.gpuMem == p.memory.value
            && 1000.0 * p.request.value <= job.milli as real < 1000.0 * p.request.value + 1.0
  {
    ReadAskExactly(p);
  }

  predicate Feasible(r: Resources, job: Job) {
    r.cpuFree >= job.cpu && r.memFree >= job.mem
  }

  predicate Fits(g: GpuLeft, job: Job) {
    g.freeReq >= job.milli && g.freeMem >= job.gpuMem
  }

  predicate HasHole(r: Resources, job: Job) {
    exists id :: id in r.gpuFree && Fits(r.gpuFree[id], job)
  }

  function HoleAt(name: string, r: Resources, job: Job, id: string): Candidate
    requires id in r.gpuFree
  {
    Candidate(r.gpuFree[id].freeReq - job.milli, name, id)
  }

  function FreshAt(name: string, job: Job, newId: string): Candidate {
    Candidate(1000 - job.milli, name, newId)
  }

  /** The candidate set of one node, whatever order its GPUs are visited in. */
  ghost predicate Offered(c: Candidate, name: string, r: Resources, job: Job, newId: string) {
    Feasible(r, job) &&
    if !job.shared then c == Candidate(r.cpuFree - job.cpu, name, "")
    else if HasHole(r, job) then
      exists id :: id in r.gpuFree && Fits(r.gpuFree[id], job) && c == HoleAt(name, r, job, id)
    else r.gpuFreeCount > 0 && c == FreshAt(name, job, newId)
  }

  /** The offers of one node's goroutine, in the order it makes them. */
  function Offers(name: string, r: Resources, job: Job, newId: string, order: seq<string>): seq<Candidate>
    requires forall id :: id in order ==> id in r.gpuFree
  {
    if !Feasible(r, job) then []
    else if !job.shared then [Candidate(r.cpuFree - job.cpu, name, "")]
    else
      var holes := Holes(name, r, job, order);
      if holes != [] then holes
      else if r.gpuFreeCount > 0 then [FreshAt(name, job, newId)]
      else []
  }

  function Holes(name: string, r: Resources, job: Job, order: seq<string>): seq<Candidate>
    requires forall id :: id in order ==> id in r.gpuFree
  {
    if order == [] then []
    else
      Holes(name, r, job, order[..|order| - 1])
      + if Fits(r.gpuFree[order[|order| - 1]], job) then [HoleAt(name, r, job, order[|order| - 1])] else []
  }

  lemma {:induction false} HolesAre(name: string, r: Resources, job: Job, order: seq<string>)
    requires forall id :: id in order ==> id in r.gpuFree
    ensures forall c :: c in Holes(name, r, job, order) <==>
              exists id :: id in order && Fits(r.gpuFree[id], job) && c == HoleAt(name, r, job, id)
  {
    if order != [] {
      var last := order[|order| - 1];
      HolesAre(name, r, job, order[..|order| - 1]);
      assert order == order[..|order| - 1] + [last];
    }
  }

  /** A goroutine offers exactly its node's candidates, for every iteration order. */
  lemma OffersAre(name: string, r: Resources, job: Job, newId: string, order: seq<string>)
    requires IsOrder(order, r.gpuFree.Keys)
    ensures forall c :: c in Offers(name, r, job, newId, order) <==> Offered(c, name, r, job, newId)
  {
    HolesAre(name, r, job, order);
    var holes := Holes(name, r, job, order);
    if holes != [] {
      assert holes[0] in holes;
    }
    if HasHole(r, job) {
      var id :| id in r.gpuFree && Fits(r.gpuFree[id], job);
      assert HoleAt(name, r, job, id) in holes;
    }
  }

  // ----- Interleavings

  /** The shared best and what each goroutine has still to offer. */
  datatype Race = Race(best: Candidate, rest: map<string, seq<Candidate>>)

  predicate CanStep(s: Race, name: string) {
    name in s.rest && s.rest[name] != []
  }

  /** The goroutine of one node makes its next offer. */
  function Advance(s: Race, name: string): Race
    requires CanStep(s, name)
  {
    Race(Try(s.best, s.rest[name][0]), s.rest[name := s.rest[name][1..]])
  }

  ghost predicate Runs(s: Race, picks: seq<string>, s': Race)
    decreases |picks|
  {
    if picks == [] then s == s'
    else CanStep(s, picks[0]) && Runs(Advance(s, picks[0]), picks[1..], s')
  }

  ghost predicate Finished(s: Race) {
    forall name :: name in s.rest ==> s.rest[name] == []
  }

  ghost predicate Pending(s: Race, c: Candidate) {
    exists name :: name in s.rest && c in s.rest[name]
  }

  /** best is the least of the offers made, or still the initial one. */
  ghost predicate BestOf(best: Candidate, offers: iset<Candidate>) {
    && (best == NONE || best in offers)
    && best.point <= MAX_POINT
    && (best != NONE ==> best.point < MAX_POINT)
    && forall c :: c in offers ==> best.point <= c.point
  }

  ghost function AllOffers(s: Race): iset<Candidate> {
    iset c | Pending(s, c)
  }

  lemma {:induction false} RunKeepsBest(s: Race, picks: seq<string>, s': Race, made: iset<Candidate>)
    requires Runs(s, picks, s') && BestOf(s.best, made) && Finished(s')
    ensures BestOf(s'.best, made + AllOffers(s))
    decreases |picks|
  {
    if picks == [] {
      assert AllOffers(s) == iset{};
      assert made + AllOffers(s) == made;
    } else {
      var name := picks[0];
      var c := s.rest[name][0];
      var next := Advance(s, name);
      assert s.rest[name] == [c] + next.rest[name];
      assert Pending(s, c);
      forall d ensures Pending(s, d) <==> d == c || Pending(next, d) {
        if Pending(s, d) && d != c {
          var k :| k in s.rest && d in s.rest[k];
          assert k in next.rest && d in next.rest[k];
        }
        if Pending(next, d) {
          var k :| k in next.rest && d in next.rest[k];
          assert k in s.rest && d in s.rest[k];
        }
      }
      RunKeepsBest(next, picks[1..], s', made + iset{c});
      assert made + iset{c} + AllOffers(next) == made + AllOffers(s);
    }
  }

  /**
   Whatever the interleaving of the goroutines, once all have finished the best is the least offer
   of them all (or none below 2147483647 exists), and it is one of those offers.
   */
  lemma EveryInterleavingFindsTheBest(threads: map<string, seq<Candidate>>, picks: seq<string>, s': Race)
    requires Runs(Race(NONE, threads), picks, s') && Finished(s')
    ensures BestOf(s'.best, AllOffers(Race(NONE, threads)))
    ensures s'.best == NONE <==> forall c :: Pending(Race(NONE, threads), c) ==> c.point >= MAX_POINT
  {
    RunKeepsBest(Race(NONE, threads), picks, s', iset{});
    assert iset{} + AllOffers(Race(NONE, threads)) == AllOffers(Race(NONE, threads));
    if s'.best != NONE {
      assert Pending(Race(NONE, threads), s'.best);
    }
  }

  // ----- Runs exist

  lemma {:induction false} RunsJoin(s: Race, picks: seq<string>, mid: Race, more: seq<string>, s': Race)
    requires Runs(s, picks, mid) && Runs(mid, more, s')
    ensures Runs(s, picks + more, s')
    decreases |picks|
  {
    if picks == [] {
      assert picks + more == more;
    } else {
      RunsJoin(Advance(s, picks[0]), picks[1..], mid, more, s');
      assert (picks + more)[1..] == picks[1..] + more;
    }
  }

  /** Letting one goroutine run to its end. */
  lemma {:induction false} ThreadEnds(s: Race, name: string) returns (picks: seq<string>, s': Race)
    requires name in s.rest
    ensures Runs(s, picks, s') && s'.rest == s.rest[name := []]
    decreases |s.rest[name]|
  {
    if s.rest[name] == [] {
      picks, s' := [], s;
      assert s.rest == s.rest[name := []];
    } else {
      var more, end := ThreadEnds(Advance(s, name), name);
      picks, s' := [name] + more, end;
      assert picks[1..] == more;
      assert Advance(s, name).rest[name := []] == s.rest[name := []];
    }
  }

  lemma {:induction false} EveryRaceEnds(s: Race, busy: set<string>) returns (picks: seq<string>, s': Race)
    requires busy <= s.rest.Keys && forall name :: name in s.rest && name !in busy ==> s.rest[name] == []
    ensures Runs(s, picks, s') && Finished(s')
    decreases busy
  {
    if busy == {} {
      picks, s' := [], s;
    } else {
      var name :| name in busy;
      var first, mid := ThreadEnds(s, name);
      var more, end := EveryRaceEnds(mid, busy - {name});
      RunsJoin(s, first, mid, more, end);
      picks, s' := first + more, end;
    }
  }

  /** The best is only ever replaced by a smaller offer. */
  lemma {:induction false} RunOnlyImproves(s: Race, picks: seq<string>, s': Race)
    requires Runs(s, picks, s')
    ensures s'.best == s.best || s'.best.point < s.best.point
    decreases |picks|
  {
    if picks != [] {
      RunOnlyImproves(Advance(s, picks[0]), picks[1..], s');
    }
  }

  /** Any goroutine can make its offer first: it is then the result unless a smaller one comes. */
  lemma FirstToOffer(threads: map<string, seq<Candidate>>, name: string) returns (picks: seq<string>, s': Race)
    requires name in threads && threads[name] != [] && threads[name][0].point < MAX_POINT
    ensures Runs(Race(NONE, threads), picks, s') && Finished(s') && s'.best != NONE
    ensures s'.best == threads[name][0] || s'.best.point < threads[name][0].point
  {
    var s := Race(NONE, threads);
    var more, end := EveryRaceEnds(Advance(s, name), Advance(s, name).rest.Keys);
    RunOnlyImproves(Advance(s, name), more, end);
    picks, s' := [name] + more, end;
    assert picks[1..] == more;
  }

  // ----- Holes before new GPUs

  type Table = map<string, Resources>

  ghost predicate OfferedIn(c: Candidate, table: Table, job: Job, newId: string) {
    exists name :: name in table && Offered(c, name, table[name], job, newId)
  }

  ghost function TableOffers(table: Table, job: Job, newId: string): iset<Candidate> {
    iset c: Candidate | OfferedIn(c, table, job, newId)
  }

  /** Also the new GPU of every node that has one free, hole or not. */
  ghost function AllCandidates(table: Table, job: Job, newId: string): iset<Candidate> {
    TableOffers(table, job, newId)
    + iset c: Candidate | && c.node in table && Feasible(table[c.node], job)
                          && table[c.node].gpuFreeCount > 0 && c == FreshAt(c.node, job, newId)
  }

  ghost predicate SharesBounded(table: Table) {
    forall name, id :: name in table && id in table[name].gpuFree ==> table[name].gpuFree[id].freeReq <= 1000
  }

  /** A node with a hole offers no new GPU; the least point is the same as if it did. */
  lemma PreferringHolesLosesNothing(table: Table, job: Job, newId: string, best: Candidate)
    requires job.shared && SharesBounded(table)
    ensures BestOf(best, TableOffers(table, job, newId)) ==>
              forall c :: c in AllCandidates(table, job, newId) ==> best.point <= c.point
  {
    if BestOf(best, TableOffers(table, job, newId)) {
      forall name | name in table && Feasible(table[name], job) && table[name].gpuFreeCount > 0
        ensures best.point <= 1000 - job.milli
      {
        var r := table[name];
        if HasHole(r, job) {
          var id :| id in r.gpuFree && Fits(r.gpuFree[id], job);
          assert Offered(HoleAt(name, r, job, id), name, r, job, newId);
          assert HoleAt(name, r, job, id) in TableOffers(table, job, newId);
        } else {
          assert Offered(FreshAt(name, job, newId), name, r, job, newId);
          assert FreshAt(name, job, newId) in TableOffers(table, job, newId);
        }
      }
    }
  }

  /** A new GPU is opened only when every GPU in use that fits, on any feasible node, is still whole. */
  lemma NewGpuOnlyWhenHolesAreWhole(table: Table, job: Job, newId: string, node: string, name: string, id: string)
    requires job.shared && SharesBounded(table)
    requires BestOf(FreshAt(node, job, newId), TableOffers(table, job, newId))
    requires name in table && Feasible(table[name], job) && id in table[name].gpuFree
             && Fits(table[name].gpuFree[id], job)
    ensures table[name].gpuFree[id].freeReq == 1000
  {
    var c := HoleAt(name, table[name], job, id);
    assert Offered(c, name, table[name], job, newId);
    assert c in TableOffers(table, job, newId);
  }
}
