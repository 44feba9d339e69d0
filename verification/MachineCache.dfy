/**
  The controller's per-namespace state machines (internal/controller/global_state.go): a
  cache filled by double-checked creation, whose entries carry the lock that serialises
  work on a namespace, and emptied when a project goes away.

  An entry (machine and lock together) is an opaque number. The class holds the two maps;
  a `World` adds the threads between their two critical sections, and the locks they hold.
 */
module MachineCache {
  import opened Common

  type Ns = string
  type Entry = nat
  type Thread = nat

  /** The double check: an entry that is there wins over the one just made. */
  function Chosen(machines: map<Ns, Entry>, ns: Ns, made: Entry): Entry {
    if ns in machines then machines[ns] else made
  }

  class GlobalState {
    var projects: map<Ns, string>
    var machines: map<Ns, Entry>

    constructor ()
      ensures projects == map[] && machines == map[]
    {
      projects, machines := map[], map[];
    }

    /** First critical section of GetOrCreateMachine. */
    method Lookup(ns: Ns) returns (entry: Option<Entry>)
      ensures entry == Find(machines, ns)
    {
      if ns in machines {
        return Some(machines[ns]);
      }
      return None;
    }

    /** Second critical section: the new entry is used only if nobody was faster. */
    method Install(ns: Ns, made: Entry) returns (entry: Entry)
      modifies this`machines
      ensures entry == Chosen(old(machines), ns, made)
      ensures machines == old(machines)[ns := entry]
    {
      if ns in machines {
        entry := machines[ns];
        return;
      }
      machines := machines[ns := made];
      return made;
    }

    /** The whole call: `meanwhile` is the cache as other threads leave it while this one creates
        an entry outside the lock, which may fail. A cached entry is returned as it is, the
        own one only if there is still none. */
    method GetOrCreateMachine(ns: Ns, made: Option<Entry>, meanwhile: map<Ns, Entry>) returns (entry: Option<Entry>)
      modifies this`machines
      ensures ns in old(machines) ==> entry == Some(old(machines)[ns]) && machines == old(machines)
      ensures ns !in old(machines) ==> (entry == None <==> made == None)
      ensures ns !in old(machines) && made.None? ==> machines == meanwhile
      ensures ns !in old(machines) && made.Some? ==>
                && entry == (if ns in meanwhile then Some(meanwhile[ns]) else made)
                && machines == meanwhile[ns := entry.value]
    {
      entry := Lookup(ns);
      if entry.Some? {
        return;
      }
      machines := meanwhile;
      if made.None? {
        return None;
      }
      var installed := Install(ns, made.value);
      return Some(installed);
    }

    method RemoveMachine(ns: Ns)
      modifies this`machines
      ensures machines == old(machines) - {ns}
    {
      if ns in machines {
        machines := machines - {ns};
      }
    }

    method RemoveProject(ns: Ns) returns (removed: bool)
      modifies this
      ensures removed <==> ns in old(projects)
      ensures projects == old(projects) - {ns}
      ensures machines == if removed then old(machines) - {ns} else old(machines)
    {
      if ns !in projects {
        return false;
      }
      projects := projects - {ns};
      RemoveMachine(ns);
      return true;
    }

    /** Keeps exactly the owned projects, drops exactly the orphans' machines, and reports
        every orphan once. A machine without a project is left alone. */
    method RemoveOrphanProjects(isOwned: Ns -> bool) returns (orphans: seq<Ns>)
      modifies this
      ensures projects == map ns | ns in old(projects) && isOwned(ns) :: old(projects)[ns]
      ensures NoDup(orphans) && forall ns :: ns in orphans <==> ns in old(projects) && !isOwned(ns)
      ensures machines == map ns | ns in old(machines) && ns !in orphans :: old(machines)[ns]
    {
      orphans := [];
      var todo := projects.Keys;
      while todo != {}
        invariant todo <= projects.Keys
        invariant NoDup(orphans)
        invariant forall ns :: ns in orphans <==> ns in projects && ns !in todo && !isOwned(ns)
        decreases todo
      {
        var ns :| ns in todo;
        todo := todo - {ns};
        if !isOwned(ns) {
          orphans := orphans + [ns];
        }
      }
      for i := 0 to |orphans|
        modifies this`projects
        invariant forall ns :: ns in projects <==> ns in old(projects) && ns !in orphans[..i]
        invariant forall ns :: ns in projects ==> projects[ns] == old(projects)[ns]
      {
        projects := projects - {orphans[i]};
        assert orphans[..i + 1] == orphans[..i] + [orphans[i]];
      }
      assert orphans[..|orphans|] == orphans;
      RemoveMachines(orphans);
    }

    method RemoveMachines(orphans: seq<Ns>)
      modifies this`machines
      ensures machines == map ns | ns in old(machines) && ns !in orphans :: old(machines)[ns]
    {
      for i := 0 to |orphans|
        modifies this`machines
        invariant forall ns :: ns in machines <==> ns in old(machines) && ns !in orphans[..i]
        invariant forall ns :: ns in machines ==> machines[ns] == old(machines)[ns]
      {
        RemoveMachine(orphans[i]);
        assert orphans[..i + 1] == orphans[..i] + [orphans[i]];
      }
    }
  }

  // ----- threads

  /** A thread inside GetOrCreateMachine, or after it with the entry it was given. `epoch`
      counts the removals of the namespace up to the moment of the return. */
  datatype Phase =
    | Creating(ns: Ns)
    | Has(ns: Ns, entry: Entry, epoch: nat)
    | InSection(ns: Ns, entry: Entry, epoch: nat)

  /** `issued` is history: which entry was installed in which epoch of a namespace. */
  datatype World = World(machines: map<Ns, Entry>, next: Entry, threads: map<Thread, Phase>,
                         locked: map<Entry, Thread>, removals: map<Ns, nat>, issued: map<(Ns, nat), Entry>)

  datatype Event =
    | FirstCheck(t: Thread, ns: Ns)
    | CreateFails(t: Thread)
    | SecondCheck(t: Thread)
    | Lock(t: Thread)
    | Unlock(t: Thread)
    | Leave(t: Thread)
    | Remove(gone: Ns)

  function Epoch(w: World, ns: Ns): nat {
    if ns in w.removals then w.removals[ns] else 0
  }

  predicate Enabled(w: World, e: Event) {
    match e
    case FirstCheck(t, _) => t !in w.threads
    case CreateFails(t) => t in w.threads && w.threads[t].Creating?
    case SecondCheck(t) => t in w.threads && w.threads[t].Creating?
    case Lock(t) => t in w.threads && w.threads[t].Has? && w.threads[t].entry !in w.locked
    case Unlock(t) => t in w.threads && w.threads[t].InSection?
    case Leave(t) => t in w.threads && w.threads[t].Has?
    case Remove(_) => true
  }

  function Apply(w: World, e: Event): World
    requires Enabled(w, e)
  {
    match e
    case FirstCheck(t, ns) =>
      w.(threads := w.threads[t := if ns in w.machines then Has(ns, w.machines[ns], Epoch(w, ns)) else Creating(ns)])
    case CreateFails(t) => w.(threads := w.threads - {t})
    case SecondCheck(t) =>
      var ns := w.threads[t].ns;
      if ns in w.machines then w.(threads := w.threads[t := Has(ns, w.machines[ns], Epoch(w, ns))])
      else w.(machines := w.machines[ns := w.next], next := w.next + 1,
              issued := w.issued[(ns, Epoch(w, ns)) := w.next],
              threads := w.threads[t := Has(ns, w.next, Epoch(w, ns))])
    case Lock(t) =>
      var h := w.threads[t];
      w.(threads := w.threads[t := InSection(h.ns, h.entry, h.epoch)], locked := w.locked[h.entry := t])
    case Unlock(t) => w.(threads := w.threads - {t}, locked := w.locked - {w.threads[t].entry})
    case Leave(t) => w.(threads := w.threads - {t})
    case Remove(ns) =>
      if ns in w.machines then w.(machines := w.machines - {ns}, removals := w.removals[ns := Epoch(w, ns) + 1]) else w
  }

  /** The steps of a thread, as the methods above do them on the cache. */
  lemma StepsAreTheCode(w: World, t: Thread, ns: Ns)
    ensures Enabled(w, FirstCheck(t, ns)) ==>
              var v, found := Apply(w, FirstCheck(t, ns)), Find(w.machines, ns);
              && v.machines == w.machines
              && v.threads[t] == if found.Some? then Has(ns, found.value, Epoch(w, ns)) else Creating(ns)
    ensures Enabled(w, SecondCheck(t)) && w.threads[t].ns == ns ==>
              var v, entry := Apply(w, SecondCheck(t)), Chosen(w.machines, ns, w.next);
              && v.machines == w.machines[ns := entry] && v.threads[t] == Has(ns, entry, Epoch(w, ns))
    ensures Apply(w, Remove(ns)).machines == w.machines - {ns}
  {
    assert ns in w.machines ==> w.machines[ns := w.machines[ns]] == w.machines;
    assert ns !in w.machines ==> w.machines - {ns} == w.machines;
  }

  ghost predicate IsRun(worlds: seq<World>, events: seq<Event>) {
    && |worlds| == |events| + 1
    && worlds[0] == World(map[], 0, map[], map[], map[], map[])
    && forall i :: 0 <= i < |events| ==> Enabled(worlds[i], events[i]) && worlds[i + 1] == Apply(worlds[i], events[i])
  }

  predicate Holds(p: Phase) {
    p.Has? || p.InSection?
  }

  /** In the current epoch an entry has been issued exactly when one is cached, and every
      thread has what was issued in the epoch of its return. */
  ghost predicate OnePerEpoch(w: World) {
    Ledger(w) && ThreadsAgree(w)
  }

  ghost predicate Ledger(w: World) {
    && (forall ns :: ns in w.machines ==>
          (ns, Epoch(w, ns)) in w.issued && w.issued[(ns, Epoch(w, ns))] == w.machines[ns])
    && (forall ns, e :: (ns, e) in w.issued ==> e <= Epoch(w, ns) && (e == Epoch(w, ns) ==> ns in w.machines))
    && (forall x :: x in w.issued ==> w.issued[x] < w.next)
    && (forall x, y :: x in w.issued && y in w.issued && x != y ==> w.issued[x] != w.issued[y])
  }

  ghost predicate ThreadsAgree(w: World) {
    && (forall t :: t in w.threads && Holds(w.threads[t]) ==>
          var p := w.threads[t]; (p.ns, p.epoch) in w.issued && w.issued[(p.ns, p.epoch)] == p.entry)
    && (forall t :: t in w.threads && w.threads[t].InSection? ==>
          w.threads[t].entry in w.locked && w.locked[w.threads[t].entry] == t)
  }

  lemma InstallKeepsLedger(w: World, t: Thread)
    requires Ledger(w) && Enabled(w, SecondCheck(t)) && w.threads[t].ns !in w.machines
    ensures Ledger(Apply(w, SecondCheck(t)))
    ensures forall x :: x in w.issued ==>
              x in Apply(w, SecondCheck(t)).issued && Apply(w, SecondCheck(t)).issued[x] == w.issued[x]
  {
    var ns := w.threads[t].ns;
    var v := Apply(w, SecondCheck(t));
    assert (ns, Epoch(w, ns)) !in w.issued;
    assert forall n :: Epoch(v, n) == Epoch(w, n);
  }

  lemma SecondCheckKeeps(w: World, t: Thread)
    requires OnePerEpoch(w) && Enabled(w, SecondCheck(t))
    ensures OnePerEpoch(Apply(w, SecondCheck(t)))
  {
    if w.threads[t].ns !in w.machines {
      InstallKeepsLedger(w, t);
      InstallKeepsThreads(w, t);
    } else {
      SecondCheckFinds(w, t);
    }
  }

  lemma InstallKeepsThreads(w: World, t: Thread)
    requires OnePerEpoch(w) && Enabled(w, SecondCheck(t)) && w.threads[t].ns !in w.machines
    ensures ThreadsAgree(Apply(w, SecondCheck(t)))
  {
    InstallKeepsLedger(w, t);
    hide Ledger;
  }

  lemma SecondCheckFinds(w: World, t: Thread)
    requires OnePerEpoch(w) && Enabled(w, SecondCheck(t)) && w.threads[t].ns in w.machines
    ensures OnePerEpoch(Apply(w, SecondCheck(t)))
  {
    assert forall n :: Epoch(Apply(w, SecondCheck(t)), n) == Epoch(w, n);
  }

  lemma UnlockKeeps(w: World, t: Thread)
    requires OnePerEpoch(w) && Enabled(w, Unlock(t))
    ensures OnePerEpoch(Apply(w, Unlock(t)))
  {
    var v := Apply(w, Unlock(t));
    assert forall n :: Epoch(v, n) == Epoch(w, n);
    forall u | u in v.threads && v.threads[u].InSection?
      ensures v.threads[u].entry in v.locked && v.locked[v.threads[u].entry] == u
    {
      assert w.locked[w.threads[u].entry] == u && w.locked[w.threads[t].entry] == t;
    }
  }

  lemma RemoveKeeps(w: World, ns: Ns)
    requires OnePerEpoch(w)
    ensures OnePerEpoch(Apply(w, Remove(ns)))
  {
    var v := Apply(w, Remove(ns));
    assert forall n :: Epoch(v, n) == if n == ns && ns in w.machines then Epoch(w, n) + 1 else Epoch(w, n);
  }

  lemma ThreadStepKeeps(w: World, e: Event)
    requires OnePerEpoch(w) && Enabled(w, e) && (e.FirstCheck? || e.CreateFails? || e.Lock? || e.Leave?)
    ensures OnePerEpoch(Apply(w, e))
  {
    var v := Apply(w, e);
    assert forall n :: Epoch(v, n) == Epoch(w, n);
  }

  lemma StepKeepsOnePerEpoch(w: World, e: Event)
    requires OnePerEpoch(w) && Enabled(w, e)
    ensures OnePerEpoch(Apply(w, e))
  {
    hide OnePerEpoch;
    match e
    case SecondCheck(t) => SecondCheckKeeps(w, t);
    case Unlock(t) => UnlockKeeps(w, t);
    case Remove(ns) => RemoveKeeps(w, ns);
    case _ => ThreadStepKeeps(w, e);
  }

  lemma {:induction false} ReachableOnePerEpoch(worlds: seq<World>, events: seq<Event>, n: nat)
    requires IsRun(worlds, events) && n < |worlds|
    ensures OnePerEpoch(worlds[n])
  {
    if n > 0 {
      ReachableOnePerEpoch(worlds, events, n - 1);
      StepKeepsOnePerEpoch(worlds[n - 1], events[n - 1]);
    }
  }

  lemma StepKeepsIssued(w: World, e: Event, x: (Ns, nat))
    requires OnePerEpoch(w) && Enabled(w, e) && x in w.issued
    ensures x in Apply(w, e).issued && Apply(w, e).issued[x] == w.issued[x]
  {
    if e.SecondCheck? && w.threads[e.t].ns !in w.machines {
      InstallKeepsLedger(w, e.t);
    }
  }

  lemma {:induction false} IssuedForGood(worlds: seq<World>, events: seq<Event>, m: nat, n: nat, x: (Ns, nat))
    requires IsRun(worlds, events) && m <= n < |worlds| && x in worlds[m].issued
    ensures x in worlds[n].issued && worlds[n].issued[x] == worlds[m].issued[x]
  {
    if m < n {
      hide OnePerEpoch, Apply, Enabled;
      IssuedForGood(worlds, events, m, n - 1, x);
      ReachableOnePerEpoch(worlds, events, n - 1);
      StepKeepsIssued(worlds[n - 1], events[n - 1], x);
    }
  }

  /** In every interleaving, all calls that return between the same two removals of a
      namespace get the same entry; calls with a removal in between get different ones. */
  lemma SameEntryBetweenRemovals(worlds: seq<World>, events: seq<Event>, m: nat, n: nat, s: Thread, t: Thread)
    requires IsRun(worlds, events) && m <= n < |worlds|
    requires s in worlds[m].threads && Holds(worlds[m].threads[s])
    requires t in worlds[n].threads && Holds(worlds[n].threads[t])
    requires worlds[m].threads[s].ns == worlds[n].threads[t].ns
    ensures worlds[m].threads[s].epoch == worlds[n].threads[t].epoch
            <==> worlds[m].threads[s].entry == worlds[n].threads[t].entry
  {
    ReachableOnePerEpoch(worlds, events, m);
    ReachableOnePerEpoch(worlds, events, n);
    var p := worlds[m].threads[s];
    IssuedForGood(worlds, events, m, n, (p.ns, p.epoch));
  }

  /** Locked sections of one namespace overlap only if a removal came between the two
      returns that led to them. */
  lemma SectionsDoNotOverlap(worlds: seq<World>, events: seq<Event>, n: nat, s: Thread, t: Thread)
    requires IsRun(worlds, events) && n < |worlds| && s != t
    requires s in worlds[n].threads && worlds[n].threads[s].InSection?
    requires t in worlds[n].threads && worlds[n].threads[t].InSection?
    requires worlds[n].threads[s].ns == worlds[n].threads[t].ns
    ensures worlds[n].threads[s].epoch != worlds[n].threads[t].epoch
  {
    ReachableOnePerEpoch(worlds, events, n);
  }

  /** And then they can: a removal lets two threads work on one namespace at once. */
  lemma RemovalLetsSectionsOverlap(ns: Ns) returns (worlds: seq<World>, events: seq<Event>)
    ensures IsRun(worlds, events) && |worlds| > 0
    ensures var w := worlds[|worlds| - 1];
            0 in w.threads && 1 in w.threads && w.threads[0].InSection? && w.threads[1].InSection?
            && w.threads[0].ns == w.threads[1].ns == ns
  {
    worlds, events := [World(map[], 0, map[], map[], map[], map[])], [];
    hide IsRun;
    worlds, events := Extend(worlds, events, FirstCheck(0, ns));
    worlds, events := Extend(worlds, events, SecondCheck(0));
    worlds, events := Extend(worlds, events, Lock(0));
    worlds, events := Extend(worlds, events, Remove(ns));
    assert worlds[|worlds| - 1]
        == World(map[], 1, map[0 := InSection(ns, 0, 0)], map[0 := 0], map[ns := 1], map[(ns, 0) := 0]);
    worlds, events := Extend(worlds, events, FirstCheck(1, ns));
    worlds, events := Extend(worlds, events, SecondCheck(1));
    worlds, events := Extend(worlds, events, Lock(1));
  }

  lemma Extend(worlds: seq<World>, events: seq<Event>, e: Event) returns (longer: seq<World>, more: seq<Event>)
    requires IsRun(worlds, events) && worlds != [] && Enabled(worlds[|worlds| - 1], e)
    ensures IsRun(longer, more) && longer == worlds + [Apply(worlds[|worlds| - 1], e)]
  {
    longer, more := worlds + [Apply(worlds[|worlds| - 1], e)], events + [e];
  }

  /** The epoch is the number of removals that took an entry away. */
  lemma {:induction false} EpochsCountRemovals(worlds: seq<World>, events: seq<Event>, m: nat, n: nat, ns: Ns)
    requires IsRun(worlds, events) && m <= n < |worlds|
    ensures Epoch(worlds[m], ns) <= Epoch(worlds[n], ns)
    ensures Epoch(worlds[m], ns) < Epoch(worlds[n], ns)
            <==> exists i :: m <= i < n && events[i] == Remove(ns) && ns in worlds[i].machines
  {
    if m < n {
      EpochsCountRemovals(worlds, events, m, n - 1, ns);
    }
  }
}
