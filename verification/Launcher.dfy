/**
 docker/kubeshare-gemini-scheduler/launcher.py: the process table that update_podmanager reconciles
 with the port file, by marking the names it reads and killing the unmarked.
 */
module Launcher {
  import opened GpuPool
  import opened Wire

  /** Processes by name, the marks, and how many were ever started and killed. A process is its start number. */
  datatype Table = Table(procs: map<string, nat>, marks: set<string>, started: nat, killed: nat)

  const EMPTY_TABLE := Table(map[], {}, 0, 0)

  function Touch(t: Table, name: string): Table {
    if name in t.procs then t.(marks := t.marks + {name})
    else t.(procs := t.procs[name := t.started], marks := t.marks + {name}, started := t.started + 1)
  }

  function TouchAll(t: Table, names: seq<string>): Table {
    if names == [] then t else Touch(TouchAll(t, names[..|names| - 1]), names[|names| - 1])
  }

  function Sweep(t: Table): Table {
    var kept := map name | name in t.procs && name in t.marks :: t.procs[name];
    t.(procs := kept, killed := t.killed + |t.procs.Keys - t.marks|)
  }

  /** One call: an exception part way leaves what was done so far. */
  function Update(t: Table, r: Reading): Table {
    match r
    case Empty => t
    case BadCount => t
    case Names(names, complete) =>
      var touched := TouchAll(t.(marks := {}), names);
      if complete then Sweep(touched) else touched
  }

  /** A start that fails ends the call before its name is entered. */
  function Interrupted(r: Reading, at: nat): Reading {
    if r.Names? && at < |r.names| then Names(r.names[..at], false) else r
  }

  ghost predicate Sound(t: Table) {
    && t.started == t.killed + |t.procs|
    && (forall name :: name in t.procs ==> t.procs[name] < t.started)
    && (forall a, b :: a in t.procs && b in t.procs && t.procs[a] == t.procs[b] ==> a == b)
  }

  lemma TouchSound(t: Table, name: string)
    requires Sound(t)
    ensures Sound(Touch(t, name))
  {
    if name !in t.procs {
      assert Touch(t, name).procs.Keys == t.procs.Keys + {name};
      assert |Touch(t, name).procs| == |Touch(t, name).procs.Keys| && |t.procs| == |t.procs.Keys|;
    }
  }

  /** Marking and starting adds just the names read, and replaces no process. */
  ghost predicate Touched(t: Table, t': Table, names: set<string>) {
    && t'.procs.Keys == t.procs.Keys + names && t'.marks == t.marks + names && t'.started >= t.started
    && forall name :: name in t'.procs ==>
         if name in t.procs then t'.procs[name] == t.procs[name] else t'.procs[name] >= t.started
  }

  lemma TouchedMore(t: Table, t': Table, names: set<string>, name: string)
    requires Touched(t, t', names)
    ensures Touched(t, Touch(t', name), names + {name})
  {
  }

  function NameSet(names: seq<string>): set<string> {
    set name | name in names
  }

  lemma NameSetLast(names: seq<string>)
    requires names != []
    ensures NameSet(names) == NameSet(names[..|names| - 1]) + {names[|names| - 1]}
  {
    assert names == names[..|names| - 1] + [names[|names| - 1]];
  }

  lemma {:induction false} TouchAllSound(t: Table, names: seq<string>)
    requires Sound(t)
    ensures Sound(TouchAll(t, names)) && Touched(t, TouchAll(t, names), NameSet(names))
  {
    if names != [] {
      var last := names[|names| - 1];
      var mid := TouchAll(t, names[..|names| - 1]);
      TouchAllSound(t, names[..|names| - 1]);
      NameSetLast(names);
      TouchSound(mid, last);
      TouchedMore(t, mid, NameSet(names[..|names| - 1]), last);
    }
  }

  lemma SizeSplit(s: set<string>, m: set<string>)
    ensures |s| == |s * m| + |s - m|
  {
    assert s == s * m + (s - m);
  }

  lemma SweepSound(t: Table)
    requires Sound(t)
    ensures Sound(Sweep(t)) && Sweep(t).procs.Keys == t.procs.Keys * t.marks
  {
    assert Sweep(t).procs.Keys == t.procs.Keys * t.marks;
    assert |Sweep(t).procs| == |Sweep(t).procs.Keys| && |t.procs| == |t.procs.Keys|;
    SizeSplit(t.procs.Keys, t.marks);
  }

  /** Whatever file a call reads and wherever it is cut short, no process is lost or counted twice. */
  lemma UpdateSound(t: Table, r: Reading)
    requires Sound(t)
    ensures Sound(Update(t, r))
  {
    if r.Names? {
      TouchAllSound(t.(marks := {}), r.names);
      if r.complete {
        SweepSound(TouchAll(t.(marks := {}), r.names));
      }
    }
  }

  lemma SweepAfterTouch(t: Table, touched: Table, names: set<string>)
    requires Touched(t.(marks := {}), touched, names)
    ensures var t' := Sweep(touched);
            && t'.procs.Keys == names
            && (forall name :: name in t.procs && name in names ==> name in t'.procs && t'.procs[name] == t.procs[name])
            && (forall name :: name in names && name !in t.procs ==> name in t'.procs && t'.procs[name] >= t.started)
  {
  }

  /** A call that reads a whole file leaves exactly its names, and keeps the processes that had them. */
  lemma UpdateReconciles(t: Table, names: seq<string>)
    requires Sound(t)
    ensures var t' := Update(t, Names(names, true));
            && t'.procs.Keys == NameSet(names)
            && (forall name :: name in t.procs && name in names ==> t'.procs[name] == t.procs[name])
            && (forall name :: name in names && name !in t.procs ==> t'.procs[name] >= t.started)
  {
    var touched := TouchAll(t.(marks := {}), names);
    TouchAllSound(t.(marks := {}), names);
    SweepAfterTouch(t, touched, NameSet(names));
  }

  /** A call that raises part way kills nothing: it starts what it read before, and a bad count changes nothing. */
  lemma CutShortKillsNothing(t: Table, names: seq<string>, complete: bool, failAt: nat)
    requires Sound(t) && (complete ==> failAt < |names|)
    ensures Update(t, Empty) == t && Update(t, BadCount) == t
    ensures var t' := Update(t, Interrupted(Names(names, complete), failAt));
            && t'.procs.Keys == t.procs.Keys + NameSet(if failAt < |names| then names[..failAt] else names)
            && t'.killed == t.killed
            && forall name :: name in t.procs ==> t'.procs[name] == t.procs[name]
  {
    PartKillsNothing(t, if failAt < |names| then names[..failAt] else names);
  }

  lemma PartKillsNothing(t: Table, names: seq<string>)
    requires Sound(t)
    ensures var t' := TouchAll(t.(marks := {}), names);
            && t'.procs.Keys == t.procs.Keys + NameSet(names) && t'.killed == t.killed
            && forall name :: name in t.procs ==> t'.procs[name] == t.procs[name]
  {
    TouchAllSound(t.(marks := {}), names);
    TouchKillsNothing(t.(marks := {}), names);
  }

  lemma {:induction false} TouchKillsNothing(t: Table, names: seq<string>)
    ensures TouchAll(t, names).killed == t.killed
  {
    if names != [] {
      TouchKillsNothing(t, names[..|names| - 1]);
    }
  }

  // ----- Runs

  /** A file event: its text, and at which name, if any, starting a process failed. */
  datatype FileEvent = FileEvent(text: string, failAt: nat)

  function React(t: Table, e: FileEvent): Table {
    Update(t, Interrupted(ReadFile(e.text), e.failAt))
  }

  function Run(t: Table, es: seq<FileEvent>): Table {
    if es == [] then t else React(Run(t, es[..|es| - 1]), es[|es| - 1])
  }

  lemma {:induction false} RunSound(t: Table, es: seq<FileEvent>)
    requires Sound(t)
    ensures Sound(Run(t, es))
  {
    if es != [] {
      RunSound(t, es[..|es| - 1]);
      UpdateSound(Run(t, es[..|es| - 1]), Interrupted(ReadFile(es[|es| - 1].text), es[|es| - 1].failAt));
    }
  }

  /**
   After any history of files, malformed or cut short, a whole file leaves exactly the processes of
   its lines; surviving names keep their process, and started minus killed is the table's size.
   */
  lemma ReconciledAfterAnyHistory(es: seq<FileEvent>, last: FileEvent, names: seq<string>)
    requires ReadFile(last.text) == Names(names, true) && last.failAt >= |names|
    ensures var before, after := Run(EMPTY_TABLE, es), Run(EMPTY_TABLE, es + [last]);
            && after.procs.Keys == NameSet(names)
            && (forall name :: name in before.procs && name in names ==> after.procs[name] == before.procs[name])
            && after.started - after.killed == |after.procs| && Sound(after)
  {
    assert (es + [last])[..|es|] == es;
    RunSound(EMPTY_TABLE, es);
    RunSound(EMPTY_TABLE, es + [last]);
    UpdateReconciles(Run(EMPTY_TABLE, es), names);
  }

  lemma {:induction false} NamesOfList(pl: seq<PodRequest>)
    ensures |NamesOf(pl)| == |pl|
    ensures NameSet(NamesOf(pl)) == (set e | e in pl :: PortName(e))
  {
    if pl != [] {
      NamesOfList(pl[1..]);
      assert pl == [pl[0]] + pl[1..];
      var rest := set name | name in NamesOf(pl[1..]);
      assert (set name | name in NamesOf(pl)) == {PortName(pl[0])} + rest;
      assert (set e | e in pl :: PortName(e)) == {PortName(pl[0])} + (set e | e in pl[1..] :: PortName(e));
    }
  }

  /**
   From the pool to the processes: once the message that syncConfig prints for a GPU has been
   handled, the launcher runs one process for each request of that GPU and no other.
   */
  lemma ProcessesFollowThePool(c: Config, f: FloatText, es: seq<FileEvent>, failAt: nat)
    requires GoodKeys(c.podList) && PlainFloats(f) && ':' !in c.uuid && '\n' !in c.uuid
    requires failAt >= |c.podList|
    ensures var files := HandleRequest(Message(c, f));
            && files.Some?
            && Run(EMPTY_TABLE, es + [FileEvent(files.value.ports, failAt)]).procs.Keys
               == (set e | e in c.podList :: PortName(e))
  {
    WireRoundTrip(c, f);
    NamesOfList(c.podList);
    ReconciledAfterAnyHistory(es, FileEvent(HandleRequest(Message(c, f)).value.ports, failAt), NamesOf(c.podList));
  }

  // ----- The program

  class PodLauncher {
    /** name_port to its mark and process, as in the global podlist. */
    var podlist: map<string, (bool, nat)>
    var started: nat
    var killed: nat

    constructor ()
      ensures State() == EMPTY_TABLE
    {
      podlist, started, killed := map[], 0, 0;
    }

    function State(): Table
      reads this
    {
      Table(map n | n in podlist :: podlist[n].1, (set n | n in podlist && podlist[n].0), started, killed)
    }

    method UpdatePodmanager(text: string, failAt: nat) returns (ok: bool)
      modifies this
      ensures State() == React(old(State()), FileEvent(text, failAt))
    {
      ok := Reconcile(Interrupted(ReadFile(text), failAt));
    }

    /** The dict loop that marks and starts, up to an exception; then, if there was none, the sweep. */
    method Reconcile(r: Reading) returns (ok: bool)
      modifies this
      ensures State() == Update(old(State()), r)
      ensures ok <==> r.Empty? || (r.Names? && r.complete)
    {
      if !r.Names? {
        return r.Empty?;
      }
      podlist := map n | n in podlist :: (false, podlist[n].1);
      assert State() == old(State()).(marks := {});
      ghost var reset := State();
      for i := 0 to |r.names|
        invariant State() == TouchAll(reset, r.names[..i])
      {
        assert r.names[..i + 1][..i] == r.names[..i];
        Mark(r.names[i]);
      }
      assert r.names[..|r.names|] == r.names;
      if !r.complete {
        return false;
      }
      KillUnmarked();
      return true;
    }

    method Mark(name: string)
      modifies this
      ensures State() == Touch(old(State()), name)
    {
      if name !in podlist {
        podlist := podlist[name := (true, started)];
        started := started + 1;
      } else {
        podlist := podlist[name := (true, podlist[name].1)];
      }
      assert State().marks == old(State().marks) + {name};
    }

    /** Kills in one pass over the dict, in any order, collecting the names to delete. */
    method KillUnmarked()
      modifies this
      ensures State() == Sweep(old(State()))
    {
      var todo, del_list := podlist.Keys, {};
      while todo != {}
        invariant todo <= podlist.Keys && podlist == old(podlist) && started == old(started)
        invariant del_list == set n | n in podlist && n !in todo && !podlist[n].0
        invariant killed == old(killed) + |del_list|
        decreases todo
      {
        var n :| n in todo;
        todo := todo - {n};
        if !podlist[n].0 {
          killed := killed + 1;
          del_list := del_list + {n};
        }
      }
      podlist := podlist - del_list;
      assert del_list == old(State()).procs.Keys - old(State()).marks;
      assert State().marks == old(State()).marks;
    }
  }
}
