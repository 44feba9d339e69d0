/**
  One subscription of the informer (internal/eventstream/informer_impl.go, subscriberImpl): a
  bounded queue between the watch loop, which dispatches, and the subscriber's own goroutine,
  which handles. A `select` with several ready cases takes any of them.

  `offered`, `handled` and `accepted` are history: the events dispatched, those handled, and
  at which positions of `offered` the ones stand that were let in.
 */
module Subscriber {
  import opened Common

  const QUEUE_SIZE: nat := 1024

  ghost predicate Ascending(s: seq<nat>) {
    forall i, j :: 0 <= i < j < |s| ==> s[i] < s[j]
  }

  /** `part` is what stands in `whole` at ascending positions `at`. */
  ghost predicate StandsAt<E>(part: seq<E>, whole: seq<E>, at: seq<nat>) {
    && |part| == |at| && Ascending(at)
    && (forall i :: 0 <= i < |at| ==> at[i] < |whole|)
    && (forall i :: 0 <= i < |at| ==> part[i] == whole[at[i]])
  }

  ghost predicate IsSubsequence<E(!new)>(part: seq<E>, whole: seq<E>) {
    exists at :: StandsAt(part, whole, at)
  }

  lemma {:induction false} AscendingIsAtLeast(at: seq<nat>, i: nat)
    requires Ascending(at) && i < |at|
    ensures at[i] >= i
    ensures at[|at| - 1] >= at[i] + (|at| - 1 - i)
    decreases |at|
  {
    if i > 0 {
      AscendingIsAtLeast(at[..|at| - 1], i - 1);
    }
    if i < |at| - 1 {
      AscendingIsAtLeast(at[..|at| - 1], i);
    }
  }

  /** A subsequence that lacks nothing is the whole. */
  lemma NothingMissing<E>(part: seq<E>, whole: seq<E>, at: seq<nat>)
    requires StandsAt(part, whole, at) && |part| == |whole|
    ensures part == whole
  {
    forall i | 0 <= i < |part| ensures part[i] == whole[i] {
      AscendingIsAtLeast(at, i);
    }
  }

  class Subscription<E(!new)> {
    var inflight: seq<E>
    var stopped: bool
    var done: bool
    var delivered: nat
    var panics: nat
    var dropped: nat
    ghost var offered: seq<E>
    ghost var handled: seq<E>
    ghost var accepted: seq<nat>
    ghost var late: nat

    ghost predicate Valid()
      reads this
    {
      && |inflight| <= QUEUE_SIZE
      && StandsAt(handled + inflight, offered, accepted)
      && delivered + panics == |handled|
      && |offered| == |handled| + |inflight| + dropped + late
      && (late > 0 || done ==> stopped)
    }

    constructor ()
      ensures Valid() && !stopped && !done && offered == handled == inflight == [] && dropped == 0
    {
      inflight, stopped, done := [], false, false;
      delivered, panics, dropped := 0, 0, 0;
      offered, handled, accepted, late := [], [], [], 0;
    }

    /** Never blocks: a full queue of an open subscription drops the event and counts it. */
    method Dispatch(ev: E)
      requires Valid()
      modifies this
      ensures Valid() && offered == old(offered) + [ev]
      ensures handled == old(handled) && stopped == old(stopped) && done == old(done)
      ensures inflight == old(inflight) || (|old(inflight)| < 1024 && inflight == old(inflight) + [ev])
      ensures !stopped ==> (inflight == old(inflight) <==> |old(inflight)| == 1024)
      ensures dropped == old(dropped) + (if !stopped && |old(inflight)| == 1024 then 1 else 0)
    {
      var takeSend: bool := *;
      if |inflight| < QUEUE_SIZE && (!stopped || takeSend) {
        inflight := inflight + [ev];
        accepted := accepted + [|offered|];
      } else if stopped {
        late := late + 1;
      } else {
        dropped := dropped + 1;
      }
      offered := offered + [ev];
      assert inflight == old(inflight) + [ev] ==> handled + inflight == old(handled + inflight) + [ev];
    }

    /** One turn of the handler goroutine. An open subscription with an empty queue waits. */
    method Turn(handlerPanics: bool)
      requires Valid() && !done && (stopped || inflight != [])
      modifies this
      ensures Valid() && offered == old(offered) && stopped == old(stopped) && dropped == old(dropped)
      ensures handled + inflight == old(handled + inflight)
      ensures done <==> handled == old(handled)
      ensures !done ==>
                && old(inflight) != [] && handled == old(handled) + [old(inflight)[0]]
                && inflight == old(inflight)[1..]
      ensures !done ==> panics == old(panics) + (if handlerPanics then 1 else 0)
    {
      var takeStop: bool := *;
      if stopped && (takeStop || inflight == []) {
        done := true;
        return;
      }
      var ev := inflight[0];
      assert handled + inflight == (handled + [ev]) + inflight[1..];
      inflight := inflight[1..];
      handled := handled + [ev];
      if handlerPanics {
        panics := panics + 1;
      } else {
        delivered := delivered + 1;
      }
    }

    /** Closing the stop channel; a second call does nothing. */
    method Stop()
      requires Valid()
      modifies this`stopped
      ensures Valid() && stopped
    {
      stopped := true;
    }

    /** What is handled or queued is, in order, a part of what was dispatched - all of it
        exactly when nothing was dropped and the subscription has not been closed early. */
    lemma InOrder()
      requires Valid()
      ensures IsSubsequence(handled + inflight, offered) && IsSubsequence(handled, offered)
      ensures handled + inflight == offered <==> dropped + late == 0
      ensures !stopped ==> |offered| == delivered + panics + |inflight| + dropped
    {
      if dropped + late == 0 {
        NothingMissing(handled + inflight, offered, accepted);
      }
      var at := accepted[..|handled|];
      assert forall i :: 0 <= i < |at| ==> handled[i] == (handled + inflight)[i];
      assert StandsAt(handled, offered, at);
    }
  }
}
