/**
 pkg/lib/bitmap/rrbitmap.go: the round-robin cursor over a bitmap, as a function of the masked
 set, and the runs of that function.
 */
module RoundRobin {
  /** The masked positions and the cursor of an RRBitmap. */
  datatype Ring = Ring(masked: set<nat>, current: nat)

  /** The position examined k steps after the cursor. */
  function At(l: nat, current: nat, k: nat): nat
    requires k < l && current <= l
  {
    if current + k >= l then current + k - l else current + k
  }

  /** First step from k on whose position is free, or l when there is none. */
  function Scan(l: nat, s: Ring, k: nat): (r: nat)
    requires k <= l && s.current <= l
    ensures k <= r <= l
    ensures r < l ==> At(l, s.current, r) !in s.masked
    ensures forall j :: k <= j < r ==> At(l, s.current, j) in s.masked
    decreases l - k
  {
    if k == l || At(l, s.current, k) !in s.masked then k else Scan(l, s, k + 1)
  }

  /** What FindNextFromCurrentAndSet returns. */
  function Next(l: nat, s: Ring): int
    requires s.current <= l
  {
    var k := Scan(l, s, 0);
    if k < l then At(l, s.current, k) else -1
  }

  function AfterNext(l: nat, s: Ring): Ring
    requires s.current <= l
  {
    var r := Next(l, s);
    if r >= 0 then Ring(s.masked + {r}, r + 1) else s
  }

  /** Steps the cursor needs to reach p. */
  function Distance(l: nat, current: nat, p: nat): nat
    requires p < l && current <= l
  {
    if p >= current then p - current else p + l - current
  }

  lemma AtDistance(l: nat, current: nat, p: nat)
    requires p < l && current <= l
    ensures Distance(l, current, p) <= l
    ensures Distance(l, current, p) < l ==> At(l, current, Distance(l, current, p)) == p
    ensures forall k: nat :: k < l && At(l, current, k) == p ==> k == Distance(l, current, p)
  {
  }

  /** The index handed out is the free one nearest to the cursor; -1 means that all l are masked. */
  lemma NextIsNearestFree(l: nat, s: Ring)
    requires s.current <= l
    ensures Next(l, s) == -1 <==> forall p: nat :: p < l ==> p in s.masked
    ensures var r := Next(l, s);
            r != -1 ==> && 0 <= r < l && r !in s.masked
                        && forall p: nat :: p < l && p !in s.masked && p != r ==>
                             Distance(l, s.current, r) < Distance(l, s.current, p)
    ensures AfterNext(l, s).current <= l
    ensures AfterNext(l, s).masked - s.masked == if Next(l, s) >= 0 then {Next(l, s)} else {}
  {
    var k := Scan(l, s, 0);
    forall p: nat | p < l && p !in s.masked
      ensures k < l && (Next(l, s) == p || Distance(l, s.current, Next(l, s)) < Distance(l, s.current, p))
    {
      AtDistance(l, s.current, p);
      var d := Distance(l, s.current, p);
      assert d < l ==> At(l, s.current, d) !in s.masked;
      if k < l { AtDistance(l, s.current, At(l, s.current, k)); }
    }
  }

  // ----- Runs

  /** The operations an owner of the bitmap can interleave. Clear is not among them. */
  datatype Op = Issue | Mask(pos: nat) | Unmask(pos: nat)

  function Step(l: nat, s: Ring, op: Op): (s': Ring)
    requires s.current <= l
    ensures s'.current <= l
  {
    match op
    case Issue => NextIsNearestFree(l, s); AfterNext(l, s)
    case Mask(p) => s.(masked := s.masked + {p})
    case Unmask(p) => s.(masked := s.masked - {p})
  }

  function Run(l: nat, s: Ring, ops: seq<Op>): (s': Ring)
    requires s.current <= l
    ensures s'.current <= l
    decreases |ops|
  {
    if ops == [] then s else Run(l, Step(l, s, ops[0]), ops[1..])
  }

  /** Positions the cursor moves over in one operation. */
  function StepTravel(l: nat, s: Ring, op: Op): nat
    requires s.current <= l
  {
    if op.Issue? && Next(l, s) >= 0 then Scan(l, s, 0) + 1 else 0
  }

  function Travel(l: nat, s: Ring, ops: seq<Op>): nat
    requires s.current <= l
    decreases |ops|
  {
    if ops == [] then 0 else StepTravel(l, s, ops[0]) + Travel(l, Step(l, s, ops[0]), ops[1..])
  }

  function StepTurns(l: nat, s: Ring, op: Op): (turns: nat)
    requires s.current <= l
    ensures s.current + StepTravel(l, s, op) == Step(l, s, op).current + turns * l
  {
    if StepTravel(l, s, op) > 0 && s.current + Scan(l, s, 0) >= l then 1 else 0
  }

  /** The cursor is the start plus the distance travelled, less whole turns of the ring. */
  lemma {:induction false} TravelTurns(l: nat, s: Ring, ops: seq<Op>) returns (turns: nat)
    requires s.current <= l
    ensures s.current + Travel(l, s, ops) == Run(l, s, ops).current + turns * l
    decreases |ops|
  {
    if ops == [] {
      turns := 0;
    } else {
      var rest := TravelTurns(l, Step(l, s, ops[0]), ops[1..]);
      turns := rest + StepTurns(l, s, ops[0]);
      assert turns * l == rest * l + StepTurns(l, s, ops[0]) * l;
    }
  }

  lemma {:induction false} TravelOfLast(l: nat, s: Ring, ops: seq<Op>, op: Op)
    requires s.current <= l
    ensures Travel(l, s, ops + [op]) == Travel(l, s, ops) + StepTravel(l, Run(l, s, ops), op)
    ensures Run(l, s, ops + [op]) == Step(l, Run(l, s, ops), op)
    decreases |ops|
  {
    if ops == [] {
      assert [op][1..] == [];
    } else {
      TravelOfLast(l, Step(l, s, ops[0]), ops[1..], op);
      assert (ops + [op])[1..] == ops[1..] + [op];
    }
  }

  /**
   Between two issues of the same index the cursor makes at least one full turn of the ring, and
   always whole turns, whatever was masked, unmasked or issued in between.
   */
  lemma ReissueTakesWholeTurns(l: nat, s: Ring, ops: seq<Op>) returns (turns: nat)
    requires s.current <= l && Next(l, s) >= 0
    requires var s' := AfterNext(l, s); s'.current <= l && Next(l, Run(l, s', ops)) == Next(l, s)
    ensures turns >= 1 && Travel(l, AfterNext(l, s), ops + [Issue]) == turns * l
  {
    var s' := AfterNext(l, s);
    turns := TravelTurns(l, s', ops + [Issue]);
    TravelOfLast(l, s', ops, Issue);
    if turns == 0 { assert false; }
  }
}

/** The mutable RRBitmap object. */
module RRBitmaps {
  import opened Bitmap64s
  import opened RoundRobin

  class RRBitmap {
    const bitmap: Bitmap64
    const l: nat
    var current: nat

    ghost predicate Valid()
      reads this, bitmap
    {
      bitmap.Valid() && current <= l
    }

    ghost function State(): Ring
      reads this, bitmap
    {
      Ring(bitmap.masked, current)
    }

    /** Allocated words; Unmask panics beyond them. */
    function Words(): nat
      reads bitmap
    {
      |bitmap.bits|
    }

    constructor (l: nat)
      ensures Valid() && fresh(bitmap) && this.l == l
      ensures State() == Ring({}, 0) && Words() == 0
    {
      this.bitmap := new Bitmap64();
      this.l := l;
      this.current := 0;
    }

    method FindNextFromCurrentAndSet() returns (r: int)
      requires Valid()
      modifies this, bitmap
      ensures Valid()
      ensures r == Next(l, old(State())) && State() == AfterNext(l, old(State()))
      ensures Words() >= old(Words()) && (r >= 0 ==> 0 <= GoQuot(r) < Words())
    {
      var start := current;
      ghost var s := State();
      for i := start to start + l
        invariant unchanged(this) && unchanged(bitmap)
        invariant Scan(l, s, 0) == Scan(l, s, i - start)
      {
        var ii := i;
        if i >= l {
          ii := i - l;
        }
        var masked := bitmap.IsMasked(ii);
        assert ii == At(l, start, i - start) && (masked <==> ii in s.masked);
        if !masked {
          bitmap.Mask(ii);
          current := ii + 1;
          return ii;
        }
      }
      return -1;
    }

    method Clear()
      requires Valid()
      modifies this, bitmap
      ensures Valid() && State() == Ring({}, 0) && Words() == 0
    {
      bitmap.Clear();
      current := 0;
    }

    method Mask(pos: int)
      requires Valid() && GoQuot(pos) >= 0
      modifies bitmap
      ensures Valid() && State() == old(State()).(masked := old(State()).masked + Index(pos))
      ensures Words() >= old(Words()) && GoQuot(pos) < Words()
    {
      bitmap.Mask(pos);
    }

    method Unmask(pos: int)
      requires Valid() && 0 <= GoQuot(pos) < Words()
      modifies bitmap
      ensures Valid() && State() == old(State()).(masked := old(State()).masked - Index(pos))
      ensures Words() == old(Words())
    {
      bitmap.Unmask(pos);
    }
  }
}
