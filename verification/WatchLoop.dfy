/**
  The watch loop and ForceResync (internal/eventstream/informer_impl.go, ForceResync and
  runWatchLoop): a one-slot channel of requests, and the cancel function of the current
  watch, which the loop installs and removes. Any number of callers run beside the loop; a
  call is two steps, the send and the cancel.
 */
module WatchLoop {
  import opened Informer

  type Caller = nat

  /** `Starting`: the loop has looked at the channel, and has not yet installed the cancel
      function. `Finished`: the watch has returned, the function is still installed. */
  datatype Pc =
    | FirstList
    | Head
    | Starting
    | Watching(canceled: bool)
    | Finished(outcome: Outcome)
    | Backoff
    | Relisting
    | Stopped

  datatype Loop = Loop(pc: Pc, slot: bool, installed: bool, stopping: bool, calling: set<Caller>)

  datatype Event =
    | Send(c: Caller) | Cancel(c: Caller) | RequestStop
    | ListReturns
    | TakeAtHead | PassHead | Install | WatchReturns(outcome: Outcome) | Remove(giveUp: bool)
    | Timer | ResyncTick | TakeInBackoff | ObeyStop

  const START := Loop(FirstList, false, false, false, {})

  predicate IsLoopStep(e: Event) {
    !e.Send? && !e.Cancel? && !e.RequestStop?
  }

  predicate Enabled(s: Loop, e: Event) {
    match e
    case Send(c) => c !in s.calling
    case Cancel(c) => c in s.calling
    case RequestStop => true
    case ListReturns => s.pc.FirstList? || s.pc.Relisting?
    case TakeAtHead => s.pc.Head? && s.slot
    case PassHead => s.pc.Head? && !s.slot && !s.stopping
    case Install => s.pc.Starting?
    case WatchReturns(outcome) => s.pc.Watching? && (outcome == EndedWith(Canceled) ==> s.pc.canceled || s.stopping)
    case Remove(_) => s.pc.Finished?
    case Timer => s.pc.Backoff?
    case ResyncTick => s.pc.Backoff?
    case TakeInBackoff => s.pc.Backoff? && s.slot
    case ObeyStop => (s.pc.Head? || s.pc.Backoff?) && s.stopping
  }

  function Apply(s: Loop, e: Event): Loop
    requires Enabled(s, e)
  {
    match e
    case Send(c) => s.(slot := true, calling := s.calling + {c})
    case Cancel(c) =>
      var t := s.(calling := s.calling - {c});
      if s.installed then CancelWatch(t) else t
    case RequestStop => s.(stopping := true)
    case ListReturns => s.(pc := Head)
    case TakeAtHead =>
      var t := s.(slot := false, pc := Relisting);
      if s.installed then CancelWatch(t) else t
    case PassHead => s.(pc := Starting)
    case Install => s.(pc := Watching(false), installed := true)
    case WatchReturns(outcome) => s.(pc := Finished(outcome))
    case Remove(giveUp) =>
      var t := s.(installed := false);
      if s.pc.outcome == EndedWith(Canceled) then t.(pc := Head)
      else if s.pc.outcome == EndedGone then t.(pc := Relisting)
      else if giveUp then t.(pc := Stopped)
      else t.(pc := Backoff)
    case Timer => s.(pc := Head)
    case ResyncTick => s.(pc := Relisting)
    case TakeInBackoff => s.(slot := false, pc := Relisting)
    case ObeyStop => s.(pc := Stopped)
  }

  function CancelWatch(s: Loop): Loop {
    if s.pc.Watching? then s.(pc := Watching(true)) else s
  }

  ghost predicate IsRun(states: seq<Loop>, events: seq<Event>) {
    && |states| == |events| + 1 && states[0] == START
    && forall i :: 0 <= i < |events| ==> Enabled(states[i], events[i]) && states[i + 1] == Apply(states[i], events[i])
  }

  /** A step that begins a relist. */
  predicate BeginsRelist(s: Loop, e: Event)
    requires Enabled(s, e)
  {
    !s.pc.Relisting? && Apply(s, e).pc.Relisting?
  }

  /** Step i begins a relist or stops the loop. */
  ghost predicate Serves(states: seq<Loop>, events: seq<Event>, i: nat)
    requires IsRun(states, events) && i < |events|
  {
    BeginsRelist(states[i], events[i]) || states[i + 1].pc.Stopped?
  }

  /** Neither a relist begun nor the loop stopped by the steps lo, .., hi-1. */
  ghost predicate Unserved(states: seq<Loop>, events: seq<Event>, lo: nat, hi: nat)
    requires IsRun(states, events) && hi < |states|
  {
    forall i :: lo <= i < hi ==> !Serves(states, events, i)
  }

  /** The cancel function is installed exactly while there is a watch to cancel - so the
      cancel before a forced relist never has anything to do. */
  lemma {:induction false} InstalledWhileWatching(states: seq<Loop>, events: seq<Event>, n: nat)
    requires IsRun(states, events) && n < |states|
    ensures states[n].installed <==> states[n].pc.Watching? || states[n].pc.Finished?
  {
    if n > 0 {
      InstalledWhileWatching(states, events, n - 1);
    }
  }

  /** A request is never lost: from the send on, the channel is full until a relist begins or
      the loop has stopped - no matter how many calls were merged, or where the loop was. */
  lemma {:induction false} RequestStaysUntilServed(states: seq<Loop>, events: seq<Event>, s: nat, n: nat)
    requires IsRun(states, events) && s < n < |states| && events[s].Send?
    requires Unserved(states, events, s, n)
    ensures states[n].slot
    decreases n
  {
    assert !Serves(states, events, n - 1);
    if n > s + 1 {
      RequestStaysUntilServed(states, events, s, n - 1);
    }
  }

  // ----- what the loop does next

  /** Step n is the first step of the loop after step m. */
  ghost predicate NextOfLoop(events: seq<Event>, m: nat, n: nat) {
    m < n < |events| && IsLoopStep(events[n]) && forall i :: m < i < n ==> !IsLoopStep(events[i])
  }

  lemma {:induction false} OnlyTheLoopMoves(states: seq<Loop>, events: seq<Event>, m: nat, n: nat)
    requires IsRun(states, events) && m <= n < |states| && forall i :: m <= i < n ==> !IsLoopStep(events[i])
    ensures states[n].pc == states[m].pc || (states[n].pc.Watching? && states[m].pc.Watching?)
  {
    if m < n {
      OnlyTheLoopMoves(states, events, m, n - 1);
    }
  }

  /** After a watch: a response 410 is followed by a list at once, without a back-off and
      without another watch; a cancellation leads to the head of the loop at once; anything
      else to a back-off, or to the end if the policy gives up. */
  lemma AfterAWatch(states: seq<Loop>, events: seq<Event>, w: nat, n: nat)
    requires IsRun(states, events) && NextOfLoop(events, w, n) && events[w].WatchReturns?
    ensures events[n].Remove?
    ensures events[w].outcome == EndedGone ==> BeginsRelist(states[n], events[n])
    ensures events[w].outcome == EndedWith(Canceled) ==> states[n + 1].pc == Head
    ensures events[w].outcome == EndedWith(OtherCause) || events[w].outcome == EndedClosed ==>
              states[n + 1].pc == if events[n].giveUp then Stopped else Backoff
  {
    OnlyTheLoopMoves(states, events, w + 1, n);
  }

  /** What begins a list, exactly: a request taken from the channel, the resync timer - or a
      response 410 that the last watch ended with. */
  lemma RelistsExactlyOnDemand(states: seq<Loop>, events: seq<Event>, n: nat)
    requires IsRun(states, events) && n < |events|
    ensures BeginsRelist(states[n], events[n])
            <==> || events[n].TakeAtHead? || events[n].TakeInBackoff? || events[n].ResyncTick?
                 || exists w: nat :: NextOfLoop(events, w, n) && events[w] == WatchReturns(EndedGone)
  {
    if w: nat :| NextOfLoop(events, w, n) && events[w] == WatchReturns(EndedGone) {
      AfterAWatch(states, events, w, n);
    }
    if BeginsRelist(states[n], events[n]) && events[n].Remove? {
      var w := FinishedBy(states, events, n);
    }
  }

  lemma {:induction false} FinishedBy(states: seq<Loop>, events: seq<Event>, n: nat) returns (w: nat)
    requires IsRun(states, events) && n < |states| && states[n].pc.Finished?
    ensures w < n && events[w] == WatchReturns(states[n].pc.outcome)
    ensures forall i :: w < i < n ==> !IsLoopStep(events[i])
  {
    if events[n - 1].WatchReturns? {
      w := n - 1;
    } else {
      w := FinishedBy(states, events, n - 1);
    }
  }

  /** After a list and after a back-off that ran out, the loop looks at the channel and the
      stop signal, and with neither it watches again. */
  lemma WatchesAgain(states: seq<Loop>, events: seq<Event>, m: nat, n: nat)
    requires IsRun(states, events) && NextOfLoop(events, m, n)
    ensures events[m].ListReturns? || events[m].Timer? ==>
              && (events[n].PassHead? || events[n].TakeAtHead? || events[n].ObeyStop?)
              && (!states[n].slot && !states[n].stopping ==> events[n].PassHead?)
    ensures events[m].PassHead? ==> states[n + 1].pc == Watching(false)
    ensures BeginsRelist(states[m], events[m]) ==> events[n].ListReturns?
  {
    OnlyTheLoopMoves(states, events, m + 1, n);
  }

  /** Once a stop is requested no watch is started; and a loop that has stopped takes no step. */
  lemma {:induction false} NoWatchAfterAStop(states: seq<Loop>, events: seq<Event>, r: nat, n: nat)
    requires IsRun(states, events) && r < n < |states| && (events[r].RequestStop? || states[r].pc.Stopped?)
    ensures events[r].RequestStop? ==> states[n].stopping && (n < |events| ==> !events[n].PassHead?)
    ensures states[r].pc.Stopped? ==> states[n].pc.Stopped? && (n < |events| ==> !IsLoopStep(events[n]))
  {
    if n > r + 1 {
      NoWatchAfterAStop(states, events, r, n - 1);
    }
  }

  // ----- how soon a request is served

  function LoopSteps(events: seq<Event>, lo: nat, hi: nat): nat
    requires lo <= hi <= |events|
  {
    if lo == hi then 0 else LoopSteps(events, lo, hi - 1) + (if IsLoopStep(events[hi - 1]) then 1 else 0)
  }

  /** How many steps the loop can still take with a full channel before it must relist. */
  function Rank(pc: Pc): nat {
    match pc
    case Starting => 5
    case Watching(_) => 4
    case Finished(_) => 3
    case Backoff => 2
    case Relisting => 2
    case FirstList => 2
    case Head => 1
    case Stopped => 0
  }

  /** And it is served soon: whichever steps the loop takes, the fifth after the send at the
      latest begins a relist or stops the loop. */
  lemma ServedWithinFiveSteps(states: seq<Loop>, events: seq<Event>, s: nat, n: nat)
    requires IsRun(states, events) && s < n < |states| && events[s].Send? && !states[s].pc.Stopped?
    requires LoopSteps(events, s + 1, n) >= 5
    ensures exists i :: s < i < n && Serves(states, events, i)
  {
    if Unserved(states, events, s, n) {
      RankRunsOut(states, events, s, n);
    }
  }

  lemma {:induction false} RankRunsOut(states: seq<Loop>, events: seq<Event>, s: nat, n: nat)
    requires IsRun(states, events) && s < n < |states| && events[s].Send? && !states[s].pc.Stopped?
    requires Unserved(states, events, s, n)
    ensures LoopSteps(events, s + 1, n) + Rank(states[n].pc) <= 5 && Rank(states[n].pc) >= 1
    decreases n
  {
    assert !Serves(states, events, n - 1);
    if n > s + 1 {
      RankRunsOut(states, events, s, n - 1);
      RequestStaysUntilServed(states, events, s, n - 1);
      RankGoesDown(states[n - 1], events[n - 1]);
      hide Apply, Enabled, Rank;
    }
  }

  lemma RankGoesDown(s: Loop, e: Event)
    requires Enabled(s, e) && s.slot && !s.pc.Stopped? && !BeginsRelist(s, e) && !Apply(s, e).pc.Stopped?
    ensures 1 <= Rank(Apply(s, e).pc) <= Rank(s.pc) - (if IsLoopStep(e) then 1 else 0)
  {}

  /** No watch is started between a call and the relist that serves it; the only one there
      can be was on its way when the call was made. After the call has returned, that watch
      goes on uncanceled only if the call's cancel came in the moment between the loop's
      look at the channel and the installation of the cancel function - and until the watch
      ends by itself, or another call cancels it, exactly then. */
  lemma {:induction false} OnlyTheGapDelaysAResync(states: seq<Loop>, events: seq<Event>, s: nat, c: nat, n: nat)
    requires IsRun(states, events) && s < c < n < |states|
    requires events[s].Send? && events[c] == Cancel(events[s].c) && Unserved(states, events, s, n)
    ensures !events[n - 1].PassHead?
    ensures states[n].pc == Starting || states[n].pc == Watching(false) ==> states[c].pc == Starting
    ensures (forall i :: c < i < n ==> !events[i].Cancel? && !events[i].WatchReturns?) ==>
              (states[n].pc == Starting || states[n].pc == Watching(false) <==> states[c].pc == Starting)
    decreases n
  {
    RequestStaysUntilServed(states, events, s, n - 1);
    InstalledWhileWatching(states, events, n - 1);
    if n > c + 1 {
      OnlyTheGapDelaysAResync(states, events, s, c, n - 1);
    }
  }

  /** In that moment the wake-up is lost: the call has returned, and the watch that starts
      next is not canceled; the relist waits until it ends by itself. */
  lemma LostWakeUp(c: Caller) returns (states: seq<Loop>, events: seq<Event>)
    ensures IsRun(states, events) && |states| > 0
    ensures Send(c) in events && Cancel(c) in events
    ensures var s := states[|states| - 1];
            && s.slot && s.calling == {} && s.pc == Watching(false)
            && !Enabled(s, WatchReturns(EndedWith(Canceled)))
  {
    var s1 := Apply(START, ListReturns);
    var s2 := Apply(s1, PassHead);
    var s3 := Apply(s2, Send(c));
    var s4 := Apply(s3, Cancel(c));
    var s5 := Apply(s4, Install);
    states := [START, s1, s2, s3, s4, s5];
    events := [ListReturns, PassHead, Send(c), Cancel(c), Install];
    assert events[2] == Send(c) && events[3] == Cancel(c);
  }
}
