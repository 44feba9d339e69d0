/**
  The reconcile work queue: an ordered list of waiting keys, a `dirty` set and a
  `processing` set (internal/controller/workqueue.go).

  `Sets` is the value the mutex protects; the class performs the updates in place; a
  `System` adds the workers that hold keys between `get` and `done`, so that a run is
  any interleaving of Add, get and done by any number of workers.
 */
module WorkQueue {
  import opened Common

  type Key = string
  type Worker = nat

  datatype Sets = Sets(queue: seq<Key>, dirty: set<Key>, processing: set<Key>)

  const EMPTY := Sets([], {}, {})

  function Added(s: Sets, key: Key): Sets {
    if key in s.dirty then s
    else if key in s.processing then s.(dirty := s.dirty + {key})
    else s.(dirty := s.dirty + {key}, queue := s.queue + [key])
  }

  function Taken(s: Sets): Sets
    requires s.queue != []
  {
    var key := s.queue[0];
    Sets(s.queue[1..], s.dirty - {key}, s.processing + {key})
  }

  function Finished(s: Sets, key: Key): Sets {
    var rest := s.processing - {key};
    if key in s.dirty then Sets(s.queue + [key], s.dirty, rest)
    else Sets(s.queue, s.dirty, rest)
  }

  /** The queue lists, once each, exactly the dirty keys nobody is processing. */
  ghost predicate Consistent(s: Sets) {
    && NoDup(s.queue)
    && (forall k :: k in s.queue <==> k in s.dirty && k !in s.processing)
  }

  class ReconcileQueue {
    var queue: seq<Key>
    var dirty: set<Key>
    var processing: set<Key>

    ghost function State(): Sets
      reads this
    {
      Sets(queue, dirty, processing)
    }

    ghost predicate Valid()
      reads this
    {
      Consistent(State())
    }

    constructor ()
      ensures Valid() && State() == EMPTY
    {
      queue, dirty, processing := [], {}, {};
    }

    method Add(key: Key)
      requires Valid()
      modifies this
      ensures Valid() && State() == Added(old(State()), key)
    {
      if key in dirty {
        return;
      }
      dirty := dirty + {key};
      if key in processing {
        return;
      }
      queue := queue + [key];
    }

    /** One return of `get`: the worker holds the mutex and either the queue is not empty,
        or it has been woken from Wait and its context is cancelled. In the second case it
        leaves without a key even if one has arrived. */
    method Get(waited: bool, cancelled: bool) returns (key: Option<Key>)
      requires Valid()
      requires queue != [] || (waited && cancelled)
      modifies this
      ensures Valid()
      ensures waited && cancelled ==> key == None && State() == old(State())
      ensures !(waited && cancelled) ==>
                && key == Some(old(queue)[0]) && key.value !in old(processing)
                && State() == Taken(old(State()))
    {
      if waited && cancelled {
        return None;
      }
      var k := queue[0];
      queue := queue[1..];
      processing := processing + {k};
      dirty := dirty - {k};
      key := Some(k);
    }

    method Done(key: Key)
      requires Valid() && key in processing
      modifies this
      ensures Valid() && State() == Finished(old(State()), key)
    {
      processing := processing - {key};
      if key in dirty {
        queue := queue + [key];
      }
    }
  }

  // ----- runs of any number of workers

  datatype System = System(sets: Sets, held: map<Worker, Key>)

  datatype Op = OpAdd(key: Key) | OpGet(worker: Worker) | OpDone(worker: Worker)

  /** A worker takes a key only between jobs, and finishes the job it holds (`Run`). */
  predicate Enabled(s: System, op: Op) {
    match op
    case OpAdd(_) => true
    case OpGet(w) => w !in s.held && s.sets.queue != []
    case OpDone(w) => w in s.held
  }

  function Apply(s: System, op: Op): System
    requires Enabled(s, op)
  {
    match op
    case OpAdd(k) => s.(sets := Added(s.sets, k))
    case OpGet(w) => System(Taken(s.sets), s.held[w := s.sets.queue[0]])
    case OpDone(w) => System(Finished(s.sets, s.held[w]), s.held - {w})
  }

  /** A run: states[0] is the start and each op leads from one state to the next. */
  ghost predicate IsRun(states: seq<System>, ops: seq<Op>) {
    && |states| == |ops| + 1
    && forall i :: 0 <= i < |ops| ==> Enabled(states[i], ops[i]) && states[i + 1] == Apply(states[i], ops[i])
  }

  ghost predicate Good(s: System) {
    && Consistent(s.sets)
    && (forall w :: w in s.held ==> s.held[w] in s.sets.processing)
    && (forall k :: k in s.sets.processing ==> exists w :: w in s.held && s.held[w] == k)
    && (forall v, w :: v in s.held && w in s.held && v != w ==> s.held[v] != s.held[w])
  }

  lemma GetKeepsGood(s: System, w: Worker)
    requires Good(s) && Enabled(s, OpGet(w))
    ensures Good(Apply(s, OpGet(w)))
  {
    var t := Apply(s, OpGet(w));
    var key := s.sets.queue[0];
    assert key in s.sets.queue;
    forall k | k in t.sets.processing ensures exists v :: v in t.held && t.held[v] == k {
      if k == key {
        assert t.held[w] == k;
      } else {
        var v :| v in s.held && s.held[v] == k;
        assert t.held[v] == k;
      }
    }
  }

  lemma DoneKeepsGood(s: System, w: Worker)
    requires Good(s) && Enabled(s, OpDone(w))
    ensures Good(Apply(s, OpDone(w)))
  {
    var t := Apply(s, OpDone(w));
    forall k | k in t.sets.processing ensures exists v :: v in t.held && t.held[v] == k {
      var v :| v in s.held && s.held[v] == k;
      assert v != w;
      assert t.held[v] == k;
    }
  }

  lemma AddKeepsGood(s: System, k: Key)
    requires Good(s) && Enabled(s, OpAdd(k))
    ensures Good(Apply(s, OpAdd(k)))
  {}

  lemma StepKeepsGood(s: System, op: Op)
    requires Good(s) && Enabled(s, op)
    ensures Good(Apply(s, op))
  {
    hide Good, Enabled, Apply;
    match op
    case OpAdd(k) => AddKeepsGood(s, k);
    case OpGet(w) => GetKeepsGood(s, w);
    case OpDone(w) => DoneKeepsGood(s, w);
  }

  /** Every reachable state keeps the three sets consistent and the workers apart. */
  lemma {:induction false} ReachableGood(states: seq<System>, ops: seq<Op>, n: nat)
    requires IsRun(states, ops) && n < |states| && states[0] == System(EMPTY, map[])
    ensures Good(states[n])
  {
    if n > 0 {
      ReachableGood(states, ops, n - 1);
      StepKeepsGood(states[n - 1], ops[n - 1]);
    }
  }

  /** No key is processed by two workers at once, and no get hands out a key that is
      still being processed. */
  lemma NeverProcessedTwiceAtOnce(states: seq<System>, ops: seq<Op>, n: nat)
    requires IsRun(states, ops) && n < |states| && states[0] == System(EMPTY, map[])
    ensures forall v, w :: v in states[n].held && w in states[n].held && v != w ==>
                             states[n].held[v] != states[n].held[w]
    ensures n < |ops| && ops[n].OpGet? ==>
              forall v :: v in states[n].held ==> states[n].held[v] != states[n + 1].held[ops[n].worker]
  {
    ReachableGood(states, ops, n);
    if n < |ops| && ops[n].OpGet? {
      assert states[n].sets.queue[0] in states[n].sets.queue;
    }
  }

  /** The get at step n hands out key k. */
  ghost predicate Starts(states: seq<System>, ops: seq<Op>, n: nat, k: Key)
    requires IsRun(states, ops) && n < |ops|
  {
    ops[n].OpGet? && states[n].sets.queue[0] == k
  }

  /** A dirty key stays dirty until some get hands it out. */
  lemma {:induction false} DirtyUntilStarted(states: seq<System>, ops: seq<Op>, k: Key, from: nat, to: nat)
    requires IsRun(states, ops) && from <= to < |states| && k in states[from].sets.dirty
    ensures k in states[to].sets.dirty || exists g :: from <= g < to && Starts(states, ops, g, k)
  {
    if from < to {
      DirtyUntilStarted(states, ops, k, from, to - 1);
      if k in states[to - 1].sets.dirty && k !in states[to].sets.dirty {
        assert Starts(states, ops, to - 1, k);
      }
    }
  }

  /** No event is lost: once a run that contains Add(k) has no dirty key left, fn(k) was
      started after that Add - also when k was being processed when Add came. */
  lemma NoEventLost(states: seq<System>, ops: seq<Op>, k: Key, add: nat, end: nat)
    requires IsRun(states, ops) && add < end < |states| && ops[add] == OpAdd(k)
    requires states[end].sets.dirty == {}
    ensures exists g :: add < g < end && Starts(states, ops, g, k)
  {
    DirtyUntilStarted(states, ops, k, add + 1, end);
  }

  /** A dirty key always has somebody responsible: it waits in the queue, or a worker holds
      it and its `done` will put it back. */
  lemma DirtyHasAnOwner(states: seq<System>, ops: seq<Op>, n: nat, k: Key)
    requires IsRun(states, ops) && n < |states| && states[0] == System(EMPTY, map[])
    requires k in states[n].sets.dirty
    ensures k in states[n].sets.queue
            || exists w :: w in states[n].held && states[n].held[w] == k
                           && Apply(states[n], OpDone(w)).sets.queue == states[n].sets.queue + [k]
  {
    ReachableGood(states, ops, n);
    if k !in states[n].sets.queue {
      var w :| w in states[n].held && states[n].held[w] == k;
      assert Apply(states[n], OpDone(w)).sets.queue == states[n].sets.queue + [k];
    }
  }

  function GetsBetween(ops: seq<Op>, from: nat, to: nat): nat
    requires from <= to <= |ops|
  {
    if from == to then 0
    else GetsBetween(ops, from, to - 1) + (if ops[to - 1].OpGet? then 1 else 0)
  }

  /** What was queued moves forward by one place at each get and is never overtaken. */
  lemma {:induction false} QueueAdvances(states: seq<System>, ops: seq<Op>, from: nat, to: nat)
    requires IsRun(states, ops) && from <= to < |states|
    requires GetsBetween(ops, from, to) <= |states[from].sets.queue|
    ensures states[from].sets.queue[GetsBetween(ops, from, to)..] <= states[to].sets.queue
  {
    if from < to {
      QueueAdvances(states, ops, from, to - 1);
      var c := GetsBetween(ops, from, to - 1);
      var q := states[from].sets.queue;
      if ops[to - 1].OpGet? {
        assert q[c..][1..] == q[c + 1..];
      }
    }
  }

  /** First in, first out: the key at position i of the queue is what the (i+1)-th later
      get hands out, whatever Adds and dones come in between. */
  lemma FirstInFirstOut(states: seq<System>, ops: seq<Op>, from: nat, get: nat, i: nat)
    requires IsRun(states, ops) && from <= get < |ops| && ops[get].OpGet?
    requires i < |states[from].sets.queue| && GetsBetween(ops, from, get) == i
    ensures Starts(states, ops, get, states[from].sets.queue[i])
  {
    QueueAdvances(states, ops, from, get);
    assert states[from].sets.queue[i..][0] == states[get].sets.queue[0];
  }

  function AddsOf(ops: seq<Op>, k: Key, n: nat): nat
    requires n <= |ops|
  {
    if n == 0 then 0 else AddsOf(ops, k, n - 1) + (if ops[n - 1] == OpAdd(k) then 1 else 0)
  }

  ghost function StartsOf(states: seq<System>, ops: seq<Op>, k: Key, n: nat): nat
    requires IsRun(states, ops) && n <= |ops|
  {
    if n == 0 then 0
    else StartsOf(states, ops, k, n - 1) + (if Starts(states, ops, n - 1, k) then 1 else 0)
  }

  /** No spurious work: every start of fn(k), and a pending one, is paid for by its own Add. */
  lemma {:induction false} EveryStartHasItsAdd(states: seq<System>, ops: seq<Op>, k: Key, n: nat)
    requires IsRun(states, ops) && n <= |ops| && states[0] == System(EMPTY, map[])
    ensures StartsOf(states, ops, k, n) + (if k in states[n].sets.dirty then 1 else 0) <= AddsOf(ops, k, n)
  {
    if n > 0 {
      EveryStartHasItsAdd(states, ops, k, n - 1);
      ReachableGood(states, ops, n - 1);
      if ops[n - 1].OpGet? {
        assert states[n - 1].sets.queue[0] in states[n - 1].sets.queue;
      }
    }
  }
}
