/** Runs of a transition system, given by the steps that can happen and where they lead. */
module Reachability {
  ghost predicate Run<S(!new), E(!new)>(possible: iset<(S, E)>, next: (S, E) -> S, s: S, es: seq<E>, s': S)
    decreases |es|
  {
    if es == [] then s' == s
    else (s, es[0]) in possible && Run(possible, next, next(s, es[0]), es[1..], s')
  }

  ghost predicate Reaches<S(!new), E(!new)>(possible: iset<(S, E)>, next: (S, E) -> S, s: S, s': S) {
    exists es :: Run(possible, next, s, es, s')
  }

  lemma {:induction false} RunPushed<S(!new), E(!new)>(possible: iset<(S, E)>, next: (S, E) -> S, s: S, es: seq<E>,
                                                       mid: S, e: E)
    requires Run(possible, next, s, es, mid) && (mid, e) in possible
    ensures Run(possible, next, s, es + [e], next(mid, e))
    decreases |es|
  {
    if es == [] {
      assert ([e])[1..] == [];
      assert es + [e] == [e];
    } else {
      RunPushed(possible, next, next(s, es[0]), es[1..], mid, e);
      assert (es + [e])[1..] == es[1..] + [e];
    }
  }

  lemma TwoSteps<S(!new), E(!new)>(possible: iset<(S, E)>, next: (S, E) -> S, s: S, e: E, mid: S, e': E, s': S)
    requires (s, e) in possible && mid == next(s, e) && (mid, e') in possible && s' == next(mid, e')
    ensures Reaches(possible, next, s, s')
  {
    assert Run(possible, next, s, [], s);
    RunPushed(possible, next, s, [], s, e);
    RunPushed(possible, next, s, [] + [e], mid, e');
  }

  /** No step that can happen in a reachable state of keep leads out of keep. */
  ghost predicate NoWayOut<S(!new), E(!new)>(possible: iset<(S, E)>, next: (S, E) -> S, s: S, keep: iset<S>) {
    forall t, e :: Reaches(possible, next, s, t) && t in keep && (t, e) in possible ==> next(t, e) in keep
  }

  lemma {:induction false} RunStaysInside<S(!new), E(!new)>(possible: iset<(S, E)>, next: (S, E) -> S, s: S,
                                                            keep: iset<S>, past: seq<E>, mid: S, es: seq<E>, s': S)
    requires NoWayOut(possible, next, s, keep)
    requires Run(possible, next, s, past, mid) && mid in keep && Run(possible, next, mid, es, s')
    ensures s' in keep
    decreases |es|
  {
    if es != [] {
      RunPushed(possible, next, s, past, mid, es[0]);
      assert Reaches(possible, next, s, mid);
      RunStaysInside(possible, next, s, keep, past + [es[0]], next(mid, es[0]), es[1..], s');
    }
  }

  /** Every reachable state is in keep exactly when no step leads out of it. */
  lemma StaysInsideExactly<S(!new), E(!new)>(possible: iset<(S, E)>, next: (S, E) -> S, s: S, keep: iset<S>)
    requires s in keep
    ensures (forall t :: Reaches(possible, next, s, t) ==> t in keep) <==> NoWayOut(possible, next, s, keep)
  {
    if NoWayOut(possible, next, s, keep) {
      forall t | Reaches(possible, next, s, t) ensures t in keep {
        var es :| Run(possible, next, s, es, t);
        RunStaysInside(possible, next, s, keep, [], s, es, t);
      }
    }
    if forall t :: Reaches(possible, next, s, t) ==> t in keep {
      forall t, e | Reaches(possible, next, s, t) && t in keep && (t, e) in possible ensures next(t, e) in keep {
        var es :| Run(possible, next, s, es, t);
        RunPushed(possible, next, s, es, t, e);
        assert Reaches(possible, next, s, next(t, e));
      }
    }
  }

  // ----- One run

  /** Every state of the run is in keep. */
  ghost predicate Along<S(!new), E(!new)>(next: (S, E) -> S, s: S, es: seq<E>, keep: iset<S>)
    decreases |es|
  {
    s in keep && (es == [] || Along(next, next(s, es[0]), es[1..], keep))
  }

  /** No step of the run is a bad one. */
  ghost predicate NoneBad<S(!new), E(!new)>(next: (S, E) -> S, s: S, es: seq<E>, bad: iset<(S, E)>)
    decreases |es|
  {
    es == [] || ((s, es[0]) !in bad && NoneBad(next, next(s, es[0]), es[1..], bad))
  }

  /** If the bad steps are just those that leave keep, a run stays in keep exactly when it has none. */
  lemma {:induction false} AlongExactly<S(!new), E(!new)>(possible: iset<(S, E)>, next: (S, E) -> S, s: S, es: seq<E>,
                                                         s': S, keep: iset<S>, bad: iset<(S, E)>)
    requires s in keep && Run(possible, next, s, es, s')
    requires forall t, e :: t in keep && (t, e) in possible ==> (next(t, e) in keep <==> (t, e) !in bad)
    ensures Along(next, s, es, keep) <==> NoneBad(next, s, es, bad)
    ensures Along(next, s, es, keep) ==> s' in keep
    decreases |es|
  {
    if es != [] {
      var t := next(s, es[0]);
      if t in keep {
        AlongExactly(possible, next, t, es[1..], s', keep, bad);
      }
    }
  }
}
